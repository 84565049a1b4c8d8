/** Refreshing the inventory cache: the hydrator (internal/app/cache_group2.go) collects,
    completes and publishes a generation and writes a receipt, and the action
    (actions/cache/refresh.go) validates that receipt. */
module CacheReceipts {
  import opened Common
  import opened ByteText
  import opened CacheScopes

  const MAX_INT := 0x7fff_ffff_ffff_ffff
  const WORD := 0x1_0000_0000_0000_0000
  const MAX_RUNES := 512

  datatype Refusal = PlansDiffer | CollectorDiffers | Overflow | CollectorFailed | StoreFailed

  datatype Hydration = Hydration(requested: seq<Scope>, implicit: seq<Scope>)

  /** What the collector reports; a scope without a count was not collected. */
  datatype Run = Run(requested: seq<Scope>, implicit: seq<Scope>, counts: map<Scope, int>, requests: int, denied: int)

  datatype Published = Published(id: Bytes, path: Bytes, records: int)

  /** The text of a scope that is counted; None is a text that names no scope. */
  datatype ScopeCount = ScopeCount(scope: Option<Scope>, records: int)

  datatype Receipt = Receipt(
    id: Bytes, generatedAt: int, complete: bool, source: Bytes, path: Bytes, records: int, hydrated: int,
    requested: seq<Scope>, implicit: seq<Scope>, counts: seq<ScopeCount>, denied: int, warnings: nat,
    requests: int, failed: int, duration: Bytes)

  /** How many code points a text has. */
  type Runes = Bytes -> nat

  // ----- Counting -----

  function Recorded(counts: map<Scope, int>, scope: Scope): int {
    if scope in counts then counts[scope] else 0
  }

  function Listed(scopes: seq<Scope>, counts: map<Scope, int>): (listed: seq<ScopeCount>)
    ensures |listed| == |scopes|
  {
    seq(|scopes|, i requires 0 <= i < |scopes| => ScopeCount(Some(scopes[i]), Recorded(counts, scopes[i])))
  }

  function Sum(counts: seq<ScopeCount>): int {
    if counts == [] then 0 else Sum(counts[..|counts| - 1]) + counts[|counts| - 1].records
  }

  /** The sum counts every line once. */
  lemma {:induction false} SumParts(a: seq<ScopeCount>, b: seq<ScopeCount>)
    ensures Sum(a + b) == Sum(a) + Sum(b)
    ensures |a| == 1 ==> Sum(a) == a[0].records
    decreases |b|
  {
    if b == [] {
      assert a + b == a;
    } else {
      assert (a + b)[..|a + b| - 1] == a + b[..|b| - 1];
      SumParts(a, b[..|b| - 1]);
    }
    assert |a| == 1 ==> Sum(a[..0]) == 0;
  }

  /** A signed machine word. */
  function Wrap(n: int): int {
    (n + MAX_INT + 1) % WORD - MAX_INT - 1
  }

  lemma WrapSum(a: int, b: int)
    ensures Wrap(Wrap(a) + b) == Wrap(a + b)
    ensures -MAX_INT - 1 <= a <= MAX_INT ==> Wrap(a) == a
  {
  }

  lemma {:induction false} SumMonotone(counts: seq<ScopeCount>, k: nat)
    requires k <= |counts| && forall i | 0 <= i < |counts| :: counts[i].records >= 0
    ensures 0 <= Sum(counts[..k]) <= Sum(counts)
    decreases |counts|
  {
    if k < |counts| {
      SumMonotone(counts[..|counts| - 1], k);
      assert counts[..|counts| - 1][..k] == counts[..k];
    } else if counts != [] {
      SumMonotone(counts[..|counts| - 1], |counts| - 1);
      assert counts[..k] == counts && counts[..|counts| - 1][..|counts| - 1] == counts[..|counts| - 1];
    }
  }

  /** The guarded total: it succeeds exactly when no count is negative and the true sum fits a
      machine word, and no intermediate sum ever leaves it. */
  method CacheScopeCounts(scopes: seq<Scope>, counts: map<Scope, int>)
      returns (ok: bool, result: seq<ScopeCount>, total: int)
    ensures ok
      <==> (forall i | 0 <= i < |scopes| :: Recorded(counts, scopes[i]) >= 0) && Sum(Listed(scopes, counts)) <= MAX_INT
    ensures ok ==> result == Listed(scopes, counts) && total == Sum(result) && 0 <= total <= MAX_INT
  {
    ghost var listed := Listed(scopes, counts);
    result, total := [], 0;
    for i := 0 to |scopes|
      invariant result == listed[..i] && total == Sum(result) && 0 <= total <= MAX_INT
      invariant forall k | 0 <= k < i :: Recorded(counts, scopes[k]) >= 0
    {
      var count := Recorded(counts, scopes[i]);
      assert listed[..i + 1] == listed[..i] + [listed[i]];
      assert listed[..i + 1][..i] == listed[..i];
      if count < 0 || count > MAX_INT - total {
        if forall k | 0 <= k < |scopes| :: Recorded(counts, scopes[k]) >= 0 {
          SumMonotone(listed, i + 1);
        }
        return false, result, total;
      }
      total := total + count;
      result := result + [ScopeCount(Some(scopes[i]), count)];
    }
    assert listed[..|scopes|] == listed;
    ok := true;
  }

  // ----- Validating a receipt -----

  const SLASH: byte := 0x2F
  const BACKSLASH: byte := 0x5C
  const DOT: byte := 0x2E

  predicate Holds(text: Bytes, pat: Bytes) {
    IndexFrom(text, pat, 0) != -1
  }

  predicate RelativePath(path: Bytes) {
    && TrimSpace(path) != []
    && path[0] != SLASH
    && BACKSLASH !in path
    && !([DOT, DOT, SLASH] <= path)
    && !Holds(path, [SLASH, DOT, DOT, SLASH])
  }

  /** A path is accepted exactly if it is not blank, starts at no root, has no backslash, and none of its elements
      before the last one leads upwards. */
  lemma RelativePathIff(path: Bytes)
    ensures RelativePath(path) <==> (
      && TrimSpace(path) != [] && path[0] != SLASH && BACKSLASH !in path
      && forall i | 0 <= i && UpwardsAt(path, i) :: i > 0 && path[i - 1] != SLASH)
  {
    UpwardsFirst(path);
    InnerUpwards(path);
  }

  lemma UpwardsFirst(path: Bytes)
    ensures [DOT, DOT, SLASH] <= path <==> UpwardsAt(path, 0)
  {
    assert |path| >= 3 ==> path[0..3] == path[..3];
  }

  lemma InnerUpwards(path: Bytes)
    ensures Holds(path, [SLASH, DOT, DOT, SLASH])
      <==> exists i :: i > 0 && UpwardsAt(path, i) && path[i - 1] == SLASH
  {
    var inner: Bytes := [SLASH, DOT, DOT, SLASH];
    var at := IndexFrom(path, inner, 0);
    if at != -1 {
      assert path[at..at + 4][0] == SLASH && path[at..at + 4][1..] == path[at + 1..at + 4];
      assert UpwardsAt(path, at + 1);
    }
    if i :| i > 0 && UpwardsAt(path, i) && path[i - 1] == SLASH {
      assert path[i - 1..i + 3] == [SLASH] + path[i..i + 3];
      assert OccursAt(path, inner, i - 1);
    }
  }

  /** An element that leads upwards, and the slash after it. */
  predicate UpwardsAt(path: Bytes, i: int) {
    0 <= i <= |path| - 3 && path[i..i + 3] == [DOT, DOT, SLASH]
  }

  predicate Provenance(receipt: Receipt, runes: Runes) {
    && TrimSpace(receipt.id) != [] && receipt.generatedAt != 0 && TrimSpace(receipt.source) != []
    && runes(receipt.id) <= MAX_RUNES && runes(receipt.source) <= MAX_RUNES
    && runes(receipt.path) <= MAX_RUNES && runes(receipt.duration) <= MAX_RUNES
    && RelativePath(receipt.path)
  }

  /** The counts name selected scopes in canonical order, and add up to the total if there are any. */
  ghost predicate CountsStand(receipt: Receipt, request: Hydration) {
    && AllStand(receipt.counts, request)
    && (receipt.counts != [] ==> Wrap(Sum(receipt.counts)) == receipt.hydrated)
  }

  ghost predicate AllStand(counts: seq<ScopeCount>, request: Hydration) {
    && (forall i | 0 <= i < |counts| :: CountStands(counts[i], request))
    && forall i, j | 0 <= i < j < |counts| :: Index(counts[i].scope.value) < Index(counts[j].scope.value)
  }

  predicate CountStands(count: ScopeCount, request: Hydration) {
    count.scope.Some? && (count.scope.value in request.requested || count.scope.value in request.implicit)
      && count.records >= 0
  }

  /** What a receipt must say to be accepted: it is complete with nothing denied, or partial because
      requested permissions were denied, with a warning. */
  ghost predicate Passes(receipt: Receipt, request: Hydration, runes: Runes) {
    && (if receipt.complete then receipt.denied == 0
        else receipt.denied > 0 && Permissions in request.requested && receipt.warnings > 0)
    && Provenance(receipt, runes)
    && 0 <= receipt.records <= receipt.hydrated && receipt.requests >= 0 && receipt.failed >= 0
    && receipt.failed == receipt.denied
    && receipt.requested == request.requested && receipt.implicit == request.implicit
    && CountsStand(receipt, request)
  }

  lemma OneCountMore(counts: seq<ScopeCount>, i: nat, request: Hydration)
    requires i < |counts| && AllStand(counts[..i], request)
    ensures if CountStands(counts[i], request)
        && (i > 0 ==> Index(counts[i - 1].scope.value) < Index(counts[i].scope.value))
      then AllStand(counts[..i + 1], request) else !AllStand(counts, request)
  {
    assert forall k | 0 <= k < i :: counts[..i][k] == counts[k];
    if i > 0 {
      assert CountStands(counts[..i][i - 1], request);
    }
  }

  method ValidateCounts(counts: seq<ScopeCount>, request: Hydration) returns (ok: bool, counted: int)
    ensures ok <==> AllStand(counts, request)
    ensures ok ==> counted == Wrap(Sum(counts))
  {
    var lastIndex: int := -1;
    var seen: set<Scope> := {};
    counted := 0;
    for i := 0 to |counts|
      invariant AllStand(counts[..i], request)
      invariant lastIndex == if i == 0 then -1 else Index(counts[i - 1].scope.value)
      invariant forall scope <- seen :: Index(scope) <= lastIndex
      invariant counted == Wrap(Sum(counts[..i]))
    {
      var count := counts[i];
      assert counts[..i + 1][..i] == counts[..i];
      OneCountMore(counts, i, request);
      if !CountStands(count, request) || count.scope.value in seen || Index(count.scope.value) <= lastIndex {
        return false, counted;
      }
      WrapSum(Sum(counts[..i]), count.records);
      seen := seen + {count.scope.value};
      lastIndex := Index(count.scope.value);
      counted := Wrap(counted + count.records);
    }
    assert counts[..|counts|] == counts;
    ok := true;
  }

  method ValidateResult(receipt: Receipt, request: Hydration, runes: Runes) returns (ok: bool)
    ensures ok <==> Passes(receipt, request, runes)
  {
    var partialPermissions :=
      receipt.denied > 0 && Permissions in request.requested && !receipt.complete && receipt.warnings > 0;
    if !receipt.complete && !partialPermissions {
      return false;
    }
    if receipt.denied < 0 || (receipt.denied > 0 && !partialPermissions) {
      return false;
    }
    if !Provenance(receipt, runes) {
      return false;
    }
    if receipt.records < 0 || receipt.hydrated < receipt.records || receipt.requests < 0 || receipt.failed < 0 {
      return false;
    }
    if receipt.failed != receipt.denied {
      return false;
    }
    if receipt.requested != request.requested || receipt.implicit != request.implicit {
      return false;
    }
    var standing, counted := ValidateCounts(receipt.counts, request);
    if !standing {
      return false;
    }
    return !(|receipt.counts| > 0 && counted != receipt.hydrated);
  }

  // ----- Hydrating -----

  /** The store's writer for one generation. Any step may fail; closing it without publishing
      discards everything. */
  class Writer {
    var completed: seq<Scope>
    var permissionsIncomplete: bool
    var published: bool

    /** What the store said when the generation was published. */
    ghost var answer: Option<Published>
    /** A step failed. */
    ghost var failed: bool

    constructor ()
      ensures completed == [] && !permissionsIncomplete && !published && !failed
    {
      completed, permissionsIncomplete, published, answer, failed := [], false, false, None, false;
    }

    method MarkPermissionsIncomplete() returns (ok: bool)
      modifies `permissionsIncomplete, `failed
      ensures (ok ==> permissionsIncomplete) && failed == (old(failed) || !ok)
    {
      ok := *;
      if ok {
        permissionsIncomplete := true;
      }
      failed := failed || !ok;
    }

    method CompleteScopes(scopes: seq<Scope>) returns (ok: bool)
      modifies `completed, `failed
      ensures (ok ==> completed == scopes) && failed == (old(failed) || !ok)
    {
      ok := *;
      if ok {
        completed := scopes;
      }
      failed := failed || !ok;
    }

    method Publish() returns (result: Option<Published>)
      modifies `published, `answer, `failed
      ensures published <==> old(published) || result.Some?
      ensures answer == result && failed == (old(failed) || result.None?)
    {
      result := *;
      answer := result;
      failed := failed || result.None?;
      if result.Some? {
        published := true;
      }
    }
  }

  const SOURCE := Ascii("tableau-rest")

  function WithoutPermissions(scopes: seq<Scope>): (rest: seq<Scope>)
    ensures forall scope: Scope :: scope in rest <==> scope in scopes && scope != Permissions
  {
    if scopes == [] then []
    else
      var last := scopes[|scopes| - 1];
      WithoutPermissions(scopes[..|scopes| - 1]) + if last == Permissions then [] else [last]
  }

  /** What the store and the clock owe a receipt. */
  ghost predicate StoreKept(receipt: Receipt, runes: Runes) {
    Provenance(receipt, runes) && 0 <= receipt.records <= receipt.hydrated && receipt.requests >= 0
  }

  /** What the collector owes: it denies permissions only where it collects them. */
  ghost predicate CollectorKept(run: Run) {
    run.denied >= 0 && (run.denied > 0 ==> Permissions in run.requested || Permissions in run.implicit)
  }

  /** A receipt is what its run says, counted over the planned scopes. */
  ghost predicate Tells(receipt: Receipt, run: Run, plan: Plan, request: Hydration) {
    && receipt.complete == (run.denied == 0)
    && receipt.denied == run.denied == receipt.failed
    && receipt.requests == run.requests
    && (receipt.warnings > 0 <==> run.denied > 0)
    && receipt.requested == request.requested && receipt.implicit == request.implicit
    && receipt.counts == Listed(plan.collected, run.counts) && CountsTold(receipt.counts, plan.collected, run.counts)
    && receipt.hydrated == Sum(receipt.counts) <= MAX_INT
    && (forall i | 0 <= i < |receipt.counts| :: receipt.counts[i].records >= 0)
  }

  /** A line for every scope of the plan, with the number that was collected, or none. */
  ghost predicate CountsTold(lines: seq<ScopeCount>, scopes: seq<Scope>, counts: map<Scope, int>) {
    && |lines| == |scopes|
    && forall i | 0 <= i < |lines| ::
      && lines[i].scope == Some(scopes[i])
      && (scopes[i] in counts ==> lines[i].records == counts[scopes[i]])
      && (scopes[i] !in counts ==> lines[i].records == 0)
  }

  /** The receipt of a run whose generation the store published. */
  function ReceiptOf(
    stored: Published, run: Run, collected: seq<Scope>, request: Hydration, generatedAt: int, duration: Bytes): Receipt
  {
    var counts := Listed(collected, run.counts);
    Receipt(
      stored.id, generatedAt, run.denied == 0, SOURCE, stored.path, stored.records, Sum(counts), request.requested,
      request.implicit, counts, run.denied, if run.denied > 0 then 1 else 0, run.requests, run.denied, duration)
  }

  /** A receipt that says what the store answered. */
  ghost predicate FromStore(receipt: Receipt, answer: Option<Published>, generatedAt: int, duration: Bytes) {
    && answer.Some?
    && receipt.id == answer.value.id && receipt.path == answer.value.path && receipt.records == answer.value.records
    && receipt.generatedAt == generatedAt && receipt.duration == duration && receipt.source == Ascii("tableau-rest")
  }

  /** The scopes that a request names are those of its plan and of the collector. */
  ghost predicate PlanAgrees(request: Hydration, plan: Plan) {
    plan.requested == request.requested && plan.implicit == request.implicit
  }

  ghost predicate RunAgrees(request: Hydration, run: Run) {
    run.requested == request.requested && run.implicit == request.implicit
  }

  /** The numbers collected are no negative ones, and fit machine words in sum. */
  ghost predicate Countable(plan: Plan, run: Run) {
    && (forall scope <- plan.collected :: scope in run.counts ==> run.counts[scope] >= 0)
    && Sum(Listed(plan.collected, run.counts)) <= MAX_INT && run.requests <= MAX_INT
  }

  /** Why a hydration is refused, if it is. */
  ghost predicate HydrationTold(
    result: Result<Receipt, Refusal>, request: Hydration, plan: Plan, run: Option<Run>, failed: bool)
  {
    && (result == Err(PlansDiffer) <==> !PlanAgrees(request, plan))
    && (result == Err(CollectorFailed) <==> PlanAgrees(request, plan) && run.None?)
    && (result == Err(CollectorDiffers) <==>
      PlanAgrees(request, plan) && run.Some? && !RunAgrees(request, run.value))
    && (PlanAgrees(request, plan) && run.Some? && RunAgrees(request, run.value) ==>
      && (result == Err(StoreFailed) <==> failed)
      && (result == Err(Overflow) <==> !failed && !Countable(plan, run.value))
      && (result.Ok? <==> !failed && Countable(plan, run.value)))
  }

  /** One hydration: `run` is what the collector answers, `generatedAt` and `duration` what the clock says.
      Without a receipt nothing was published; with one, the generation is, exactly the readable scopes
      are marked complete, and the receipt tells what was collected. */
  method Hydrate(writer: Writer, request: Hydration, run: Option<Run>, generatedAt: int, duration: Bytes)
      returns (result: Result<Receipt, Refusal>, ghost plan: Plan)
    requires !writer.published && !writer.permissionsIncomplete && !writer.failed
    modifies writer
    ensures Planned(Wanted(request.requested), plan)
    ensures writer.published <==> result.Ok?
    ensures HydrationTold(result, request, plan, run, writer.failed)
    ensures result.Ok? ==>
      && run.Some? && plan.requested == run.value.requested == request.requested
      && plan.implicit == run.value.implicit == request.implicit
      && Tells(result.value, run.value, plan, request)
    ensures result.Ok? ==> FromStore(result.value, writer.answer, generatedAt, duration)
    ensures result.Ok? ==> writer.permissionsIncomplete == (run.value.denied > 0)
    ensures result.Ok? ==> forall scope: Scope :: scope in writer.completed <==>
      (scope in request.requested || scope in request.implicit) && !(run.value.denied > 0 && scope == Permissions)
  {
    var planned := PlanScopes(request.requested);
    plan := planned;
    if planned.requested != request.requested || planned.implicit != request.implicit {
      return Err(PlansDiffer), plan;
    }
    if run.None? {
      return Err(CollectorFailed), plan;
    }
    if run.value.requested != request.requested || run.value.implicit != request.implicit {
      return Err(CollectorDiffers), plan;
    }
    var collected := run.value.requested + run.value.implicit;
    var warnings := 0;
    if run.value.denied > 0 {
      collected := WithoutPermissions(collected);
      var marked := writer.MarkPermissionsIncomplete();
      if !marked {
        return Err(StoreFailed), plan;
      }
      warnings := 1;
    }
    var completed := writer.CompleteScopes(collected);
    if !completed {
      return Err(StoreFailed), plan;
    }
    var ok, counts, total := CacheScopeCounts(planned.collected, run.value.counts);
    if !ok || run.value.requests > MAX_INT {
      return Err(Overflow), plan;
    }
    assert forall i | 0 <= i < |counts| :: counts[i].records == Recorded(run.value.counts, planned.collected[i]);
    assert forall i | 0 <= i < |planned.collected| :: planned.collected[i] in planned.collected;
    var published := writer.Publish();
    if published.None? {
      return Err(StoreFailed), plan;
    }
    return Ok(Receipt(published.value.id, generatedAt, run.value.denied == 0, SOURCE, published.value.path,
      published.value.records, total, request.requested, request.implicit, counts, run.value.denied, warnings,
      run.value.requests, run.value.denied, duration)), plan;
  }

  lemma CountsOfPlan(receipt: Receipt, run: Run, plan: Plan, request: Hydration)
    requires Tells(receipt, run, plan, request)
    requires Ordered(plan.collected)
      && Elements(plan.collected) == Elements(request.requested) + Elements(request.implicit)
    ensures CountsStand(receipt, request)
  {
    WrapSum(Sum(receipt.counts), 0);
    SumMonotone(receipt.counts, 0);
    forall i | 0 <= i < |receipt.counts|
      ensures CountStands(receipt.counts[i], request)
    {
      assert plan.collected[i] in Elements(plan.collected);
    }
  }

  /** What the action lets be denied: requested permissions, or nothing. */
  predicate DenialAllowed(denied: int, request: Hydration) {
    denied == 0 || (denied > 0 && Permissions in request.requested)
  }

  /** A hydrator's receipt passes validation exactly when the store's part of it is sound and nothing was
      denied but permissions that had been requested; and a collector that denies permissions only where
      it collects them denies nothing else. */
  lemma ReceiptPasses(
    values: seq<Option<Scope>>, receipt: Receipt, run: Run, plan: Plan, request: Hydration, runes: Runes)
    requires Acceptable(values) && Normal(values, request.requested, request.implicit)
    requires Planned(Wanted(request.requested), plan) && Tells(receipt, run, plan, request)
    requires run.requested == request.requested && run.implicit == request.implicit
    ensures Passes(receipt, request, runes) <==> StoreKept(receipt, runes) && DenialAllowed(run.denied, request)
    ensures CollectorKept(run) ==> DenialAllowed(run.denied, request)
  {
    PlansAgree(values, request.requested, request.implicit, plan);
    CountsOfPlan(receipt, run, plan, request);
    assert Permissions in request.implicit ==> Permissions in Elements(plan.collected);
    assert Permissions in plan.collected <==> Permissions in Elements(plan.collected);
  }

  /** A full refresh whose collector found nothing, and whose store says that it published more than nothing:
      the hydrator's receipt is refused. */
  lemma OverreportRefused(stored: Published, plan: Plan, generatedAt: int, duration: Bytes, runes: Runes)
      returns (run: Run)
    requires Planned(Wanted(SUPPORTED), plan) && stored.records > 0
    ensures CollectorKept(run) && run.requested == SUPPORTED && run.implicit == []
    ensures var request := Hydration(SUPPORTED, []);
      var receipt := ReceiptOf(stored, run, plan.collected, request, generatedAt, duration);
      Tells(receipt, run, plan, request) && !Passes(receipt, request, runes)
  {
    run := Run(SUPPORTED, [], map[], 0, 0);
    NothingCounted(plan.collected);
  }

  lemma {:induction false} NothingCounted(scopes: seq<Scope>)
    ensures Sum(Listed(scopes, map[])) == 0
    decreases |scopes|
  {
    if scopes != [] {
      var n := |scopes| - 1;
      NothingCounted(scopes[..n]);
      assert Listed(scopes, map[])[..n] == Listed(scopes[..n], map[]);
    }
  }

  // ----- The refresh -----

  datatype Coverage = Coverage(scope: Option<Scope>, records: int, requested: bool, complete: bool)

  datatype Outcome =
    | Usage(error: Error)
    | Preview(requested: seq<Scope>, implicit: seq<Scope>)
    | Failed(refusal: Refusal)
    | Incomplete(receipt: Receipt)
    | Refreshed(partial: bool, receipt: Receipt, coverage: seq<Coverage>)

  /** A scope's line: as counted, requested as asked, and incomplete only for permissions that were denied. */
  predicate CoverageStands(line: Coverage, count: ScopeCount, receipt: Receipt) {
    && line.scope == count.scope && line.records == count.records
    && (line.requested <==> count.scope.Some? && count.scope.value in receipt.requested)
    && (line.complete <==> !(receipt.denied > 0 && count.scope == Some(Permissions)))
  }

  function Covered(receipt: Receipt, requested: seq<Scope>): (coverage: seq<Coverage>)
    ensures |coverage| == |receipt.counts|
  {
    seq(|receipt.counts|, i requires 0 <= i < |receipt.counts| =>
      var count := receipt.counts[i];
      Coverage(count.scope, count.records, count.scope.Some? && count.scope.value in requested,
        receipt.complete || count.scope != Some(Permissions)))
  }

  /** What a published receipt leads to. */
  ghost predicate Judged(
    outcome: Outcome, values: seq<Option<Scope>>, receipt: Receipt, run: Run, request: Hydration, runes: Runes)
  {
    && (outcome.Incomplete? || outcome.Refreshed?) && outcome.receipt == receipt
    && (outcome.Incomplete? <==> !(StoreKept(receipt, runes) && DenialAllowed(run.denied, request)))
    && (outcome.Refreshed? ==>
      && Passes(receipt, request, runes)
      && outcome.partial == (run.denied > 0)
      && |outcome.coverage| == |receipt.counts|
      && forall i | 0 <= i < |outcome.coverage| :: CoverageStands(outcome.coverage[i], receipt.counts[i], receipt))
  }

  /** Validating a receipt and showing what it covers. */
  method Judge(
    values: seq<Option<Scope>>, receipt: Receipt, ghost run: Run, ghost plan: Plan, request: Hydration, runes: Runes)
      returns (outcome: Outcome)
    requires Acceptable(values) && Normal(values, request.requested, request.implicit)
    requires Planned(Wanted(request.requested), plan) && Tells(receipt, run, plan, request)
    requires run.requested == request.requested && run.implicit == request.implicit
    ensures Judged(outcome, values, receipt, run, request, runes)
  {
    ReceiptPasses(values, receipt, run, plan, request, runes);
    var ok := ValidateResult(receipt, request, runes);
    if !ok {
      return Incomplete(receipt);
    }
    return Refreshed(!receipt.complete, receipt, Covered(receipt, request.requested));
  }

  /** A refresh. Scopes the action normalises are never refused as planned differently; a preview leaves
      the store alone; a refreshed inventory is published and partial exactly when permissions were
      denied; and a generation is reported as incomplete although it was published exactly if the store's
      part of its receipt is unsound or the collector was denied something that was not asked for. */
  method Refresh(
    writer: Writer, values: seq<Option<Scope>>, preview: bool, run: Option<Run>, generatedAt: int, duration: Bytes,
    runes: Runes)
      returns (outcome: Outcome, ghost request: Hydration, ghost plan: Plan)
    requires !writer.published && !writer.permissionsIncomplete && !writer.failed
    modifies writer
    ensures outcome.Usage? <==> !Acceptable(values)
    ensures outcome.Usage? || outcome.Preview? ==> !writer.published
    ensures !outcome.Usage? ==> Normal(values, request.requested, request.implicit)
    ensures !outcome.Usage? ==> (outcome.Preview? <==> preview)
    ensures outcome.Preview? ==> outcome == Preview(request.requested, request.implicit)
    ensures Acceptable(values) && !preview ==>
      && Planned(Wanted(request.requested), plan) && PlanAgrees(request, plan)
      && HydrationTold(
        if outcome.Failed? then Err(outcome.refusal) else Ok(outcome.receipt), request, plan, run, writer.failed)
    ensures outcome != Failed(PlansDiffer)
    ensures writer.published <==> outcome.Refreshed? || outcome.Incomplete?
    ensures writer.published ==>
      && run.Some?
      && writer.permissionsIncomplete == (run.value.denied > 0)
      && request == Hydration(outcome.receipt.requested, outcome.receipt.implicit)
      && Judged(outcome, values, outcome.receipt, run.value, request, runes)
      && Tells(outcome.receipt, run.value, plan, request)
      && FromStore(outcome.receipt, writer.answer, generatedAt, duration)
  {
    request, plan := Hydration([], []), Plan([], [], []);
    var normalized := NormalizeScopes(values);
    if normalized.Err? {
      return Usage(normalized.error), request, plan;
    }
    var (requested, implicit) := normalized.value;
    request := Hydration(requested, implicit);
    if preview {
      return Preview(requested, implicit), request, plan;
    }
    var result: Result<Receipt, Refusal>;
    result, plan := Hydrate(writer, Hydration(requested, implicit), run, generatedAt, duration);
    PlansAgree(values, requested, implicit, plan);
    if result.Err? {
      return Failed(result.error), request, plan;
    }
    outcome := Judge(values, result.value, run.value, plan, Hydration(requested, implicit), runes);
  }
}
