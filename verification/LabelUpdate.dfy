/** Updating a content label (actions/contentlabel/update.go) against a remote that
    may answer anything at any time: read, plan, read again, write, read back. */
module LabelUpdate {
  import opened Common

  const MAX_LABELS := 10000

  datatype Kind = Database | Table | Column | Datasource | Flow | OtherKind(text: Bytes)

  datatype Target = Target(kind: Kind, luid: Bytes)

  /** A label as the remote sends it: the type may be spelled in several ways. */
  datatype Raw = Raw(luid: Bytes, target: Bytes, spelling: Bytes, state: State, details: Bytes)

  /** The properties an update can change. */
  datatype State = State(value: Bytes, message: Bytes, active: bool, elevated: bool)

  datatype Label = Label(luid: Bytes, target: Target, state: State, details: Bytes)

  datatype Definition = Definition(name: Bytes, internal: bool, elevatedDefault: bool)

  /** The attachment selected during planning; an empty identifier means there must be none. */
  datatype Expected = Expected(target: Target, attachment: Bytes)

  datatype Input = Input(
    id: Bytes, asked: Option<Target>, value: Option<Bytes>, message: Option<Bytes>, active: Option<bool>,
    elevated: Option<bool>, expected: Option<Expected>)

  datatype Plan = Plan(target: Target, before: Option<Label>, desired: State)

  datatype Step = Read | Pin | Value | Recheck | Conflict | Submission | Verification
  datatype Effect = NotAttempted | Unknown | Confirmed

  datatype Outcome =
    | Unusable
    | Failed(step: Step, effect: Effect)
    | Previewed(plan: Plan)
    | Unchanged(plan: Plan, item: Label)
    | Updated(plan: Plan, item: Label)

  /** How spellings of types are folded to kinds. */
  type Folding = Bytes -> Kind

  function Canonical(raw: Raw, fold: Folding): Label {
    Label(raw.luid, Target(fold(raw.spelling), raw.target), raw.state, raw.details)
  }

  // ----- The remote -----

  datatype Request =
    | GetLabel(id: Bytes)
    | GetLabels(target: Target)
    | GetValue(name: Bytes)
    | SetLabel(target: Target, desired: State)
    | UpdateLabel(id: Bytes, desired: State)

  /** A failed read; or a failed write, perhaps acknowledged, perhaps with a label. */
  datatype Reply =
    | Failure(acknowledged: bool)
    | OneLabel(raw: Raw)
    | Labels(labels: seq<Raw>)
    | OneValue(definition: Definition)

  datatype Call = Call(request: Request, reply: Reply)

  predicate IsWrite(request: Request) {
    request.SetLabel? || request.UpdateLabel?
  }

  /** A reply of the right shape for its request. */
  predicate Fits(request: Request, reply: Reply) {
    reply.Failure? || match request
      case GetLabel(_) => reply.OneLabel?
      case GetLabels(_) => reply.Labels?
      case GetValue(_) => reply.OneValue?
      case SetLabel(_, _) => reply.OneLabel?
      case UpdateLabel(_, _) => reply.OneLabel?
  }

  class Remote {
    /** Every call made, with its reply. */
    ghost var log: seq<Call>

    constructor ()
      ensures log == []
    {
      log := [];
    }

    method Ask(request: Request) returns (reply: Reply)
      modifies this
      ensures log == old(log) + [Call(request, reply)] && Fits(request, reply)
    {
      reply := *;
      if !Fits(request, reply) {
        reply := Failure(false);
      }
      log := log + [Call(request, reply)];
    }
  }

  // ----- Pieces of the update -----

  predicate Supported(kind: Kind) {
    !kind.OtherKind?
  }

  /** What the update needs of its input: an attachment, or a target and a value. */
  predicate Selects(input: Input) {
    input.id != [] || (input.asked.Some? && input.value.Some?)
  }

  function BaselineRead(input: Input): (request: Request)
    requires Selects(input)
  {
    if input.id != [] then GetLabel(input.id) else GetLabels(input.asked.value)
  }

  /** The baseline a reply establishes: an attachment, none, or nothing usable. */
  function Baseline(input: Input, reply: Reply, fold: Folding): (baseline: Option<Option<Label>>)
    requires Selects(input)
    ensures baseline == Some(None) ==> input.id == [] && input.asked.Some?
  {
    match reply
    case OneLabel(raw) =>
      if input.id == [] then None
      else
        var item := Canonical(raw, fold);
        if item.luid != input.id || !Supported(item.target.kind) || item.target.luid == []
          || (input.asked.Some? && item.target != input.asked.value) then None
        else Some(Some(item))
    case Labels(labels) =>
      if input.id != [] || |labels| > MAX_LABELS then None
      else Only(labels, input.asked.value, input.value.value, fold)
    case _ => None
  }

  /** The only label with this value, if every label belongs to the target. */
  function Only(labels: seq<Raw>, target: Target, value: Bytes, fold: Folding): Option<Option<Label>> {
    if labels == [] then Some(None)
    else
      var before, item := Only(labels[..|labels| - 1], target, value, fold), Canonical(labels[|labels| - 1], fold);
      if before.None? || item.target != target || item.luid == [] then None
      else if item.state.value != value then before
      else if before.value.Some? then None
      else Some(Some(item))
  }

  /** The label that an identifier's reply establishes: the one that was asked for, on a supported target, and on the
      target that was asked for, if any. */
  ghost predicate Identifies(input: Input, raw: Raw, fold: Folding, item: Label) {
    && item.luid == raw.luid == input.id && item.state == raw.state && item.details == raw.details
    && item.target == Target(fold(raw.spelling), raw.target)
    && item.target.kind in {Database, Table, Column, Kind.Datasource, Flow} && raw.target != []
    && (input.asked.Some? ==> input.asked.value == item.target)
  }

  /** A listing of at most ten thousand labels, all of the target and identified. */
  ghost predicate Usual(labels: seq<Raw>, target: Target, fold: Folding) {
    && |labels| <= 10000
    && forall i | 0 <= i < |labels| ::
      labels[i].luid != [] && Target(fold(labels[i].spelling), labels[i].target) == target
  }

  /** The only label of a listing with this value. */
  ghost predicate OnlyAt(labels: seq<Raw>, value: Bytes, k: nat) {
    k < |labels| && forall i | 0 <= i < |labels| :: labels[i].state.value == value <==> i == k
  }

  /** What a reply says of the label that an update is about. */
  lemma BaselineIff(input: Input, reply: Reply, fold: Folding)
    requires Selects(input)
    ensures var baseline := Baseline(input, reply, fold);
      if input.id != [] then
        && baseline != Some(None)
        && forall item :: baseline == Some(Some(item)) <==> reply.OneLabel? && Identifies(input, reply.raw, fold, item)
      else
        var usual := reply.Labels? && Usual(reply.labels, input.asked.value, fold);
        && (baseline == Some(None)
            <==> usual && forall raw <- reply.labels :: raw.state.value != input.value.value)
        && forall item :: baseline == Some(Some(item)) <==> usual && exists k: nat ::
          OnlyAt(reply.labels, input.value.value, k) && item == Canonical(reply.labels[k], fold)
  {
    if input.id == [] && reply.Labels? && |reply.labels| <= MAX_LABELS {
      OnlyIff(reply.labels, input.asked.value, input.value.value, fold);
    }
  }

  lemma {:induction false} OnlyIff(labels: seq<Raw>, target: Target, value: Bytes, fold: Folding)
    requires |labels| <= 10000
    ensures var only := Only(labels, target, value, fold);
      && (only == Some(None) <==> Usual(labels, target, fold) && forall raw <- labels :: raw.state.value != value)
      && forall item :: only == Some(Some(item)) <==> Usual(labels, target, fold) && exists k: nat ::
        OnlyAt(labels, value, k) && item == Canonical(labels[k], fold)
    decreases |labels|
  {
    if labels != [] {
      var init, last := labels[..|labels| - 1], labels[|labels| - 1];
      OnlyIff(init, target, value, fold);
      assert labels == init + [last];
    }
  }

  predicate PinHolds(input: Input, before: Option<Label>)
    requires Selects(input) && (before.None? ==> input.asked.Some?)
  {
    input.expected.Some? ==>
      var target := if before.Some? then before.value.target else input.asked.value;
      var attachment := if before.Some? then before.value.luid else [];
      input.expected.value == Expected(target, attachment)
  }

  function Or<T>(given: Option<T>, otherwise: T): T {
    if given.Some? then given.value else otherwise
  }

  const NOTHING := State([], [], true, false)

  /** The state asked for, before a new label's elevation is defaulted. */
  function Asked(input: Input, before: Option<Label>): State {
    var base := if before.Some? then before.value.state else NOTHING;
    State(Or(input.value, base.value), Or(input.message, base.message), Or(input.active, base.active),
      Or(input.elevated, base.elevated))
  }

  function PlanOf(input: Input, before: Option<Label>, definition: Definition): Plan
    requires before.None? ==> input.asked.Some?
  {
    var asked := Asked(input, before);
    var desired := if before.None? && input.elevated.None? then asked.(elevated := definition.elevatedDefault)
      else asked;
    Plan(if before.Some? then before.value.target else input.asked.value, before, desired)
  }

  /** The old value must be readable and not system-managed when the value changes. */
  predicate ChangesValue(input: Input, before: Option<Label>) {
    before.Some? && input.value.Some? && input.value.value != before.value.state.value
  }

  predicate Usable(name: Bytes, reply: Reply) {
    reply.OneValue? && reply.definition.name == name && !reply.definition.internal
  }

  /** Whether two baselines are the same label in the same state, or both absent. */
  predicate SameBaseline(a: Option<Label>, b: Option<Label>) {
    if a.None? || b.None? then a == b
    else a.value.luid == b.value.luid && a.value.target == b.value.target && a.value.state == b.value.state
  }

  function WriteRequest(plan: Plan): (request: Request)
    ensures IsWrite(request)
  {
    if plan.before.Some? then UpdateLabel(plan.before.value.luid, plan.desired) else SetLabel(plan.target, plan.desired)
  }

  predicate SavedAsPlanned(plan: Plan, saved: Label) {
    saved.luid != [] && saved.target == plan.target && saved.state == plan.desired
    && (plan.before.Some? ==> saved.luid == plan.before.value.luid)
  }

  predicate VerifiedAsSaved(plan: Plan, saved: Label, verified: Label) {
    verified.luid == saved.luid && verified.target == saved.target && verified.state == plan.desired
  }

  // ----- The protocol -----

  datatype Setting = Setting(preview: bool, writable: bool, fold: Folding)

  /** Where an update is: about to read the baseline, the value given up or the value chosen,
      to read the baseline again, to write, to read back; or over. */
  datatype Phase =
    | Reading
    | Leaving(before: Option<Label>)
    | Choosing(before: Option<Label>)
    | Rereading(plan: Plan)
    | Writing(plan: Plan)
    | Verifying(plan: Plan, saved: Label)
    | Over(outcome: Outcome)

  /** A phase this input can reach. */
  predicate Sound(input: Input, phase: Phase) {
    && Selects(input)
    && (phase.Leaving? ==> ChangesValue(input, phase.before))
    && (phase.Choosing? && phase.before.None? ==> input.asked.Some?)
  }

  /** The call a phase makes. */
  function RequestOf(input: Input, phase: Phase): Request
    requires Sound(input, phase) && !phase.Over?
  {
    match phase
    case Reading => BaselineRead(input)
    case Leaving(before) => GetValue(before.value.state.value)
    case Choosing(before) => GetValue(Asked(input, before).value)
    case Rereading(_) => BaselineRead(input)
    case Writing(plan) => WriteRequest(plan)
    case Verifying(_, saved) => GetLabel(saved.luid)
  }

  /** Where a reply leads. */
  function Advance(input: Input, setting: Setting, phase: Phase, reply: Reply): (next: Phase)
    requires Sound(input, phase)
    ensures Sound(input, next)
  {
    match phase
    case Reading =>
      var baseline := Baseline(input, reply, setting.fold);
      if baseline.None? then Over(Failed(Read, NotAttempted))
      else if !PinHolds(input, baseline.value) then Over(Failed(Pin, NotAttempted))
      else if ChangesValue(input, baseline.value) then Leaving(baseline.value)
      else Choosing(baseline.value)
    case Leaving(before) =>
      if Usable(before.value.state.value, reply) then Choosing(before) else Over(Failed(Value, NotAttempted))
    case Choosing(before) =>
      if !Usable(Asked(input, before).value, reply) then Over(Failed(Value, NotAttempted))
      else Planned(setting, PlanOf(input, before, reply.definition))
    case Rereading(plan) =>
      var current := Baseline(input, reply, setting.fold);
      if current.None? then Over(Failed(Recheck, NotAttempted))
      else if !SameBaseline(plan.before, current.value) then Over(Failed(Conflict, NotAttempted))
      else Writing(plan)
    case Writing(plan) => Written(setting, plan, reply)
    case Verifying(plan, saved) =>
      if reply.OneLabel? && VerifiedAsSaved(plan, saved, Canonical(reply.raw, setting.fold)) then
        Over(Updated(plan, Canonical(reply.raw, setting.fold)))
      else Over(Failed(Verification, Confirmed))
    case Over(_) => phase
  }

  /** What is done with a plan. */
  function Planned(setting: Setting, plan: Plan): Phase {
    if setting.preview then Over(Previewed(plan))
    else if plan.before.Some? && plan.before.value.state == plan.desired then Over(Unchanged(plan, plan.before.value))
    else if !setting.writable then Over(Unusable)
    else Rereading(plan)
  }

  function Written(setting: Setting, plan: Plan, reply: Reply): Phase {
    match reply
    case OneLabel(raw) =>
      var saved := Canonical(raw, setting.fold);
      if SavedAsPlanned(plan, saved) then Verifying(plan, saved) else Over(Failed(Verification, Confirmed))
    case Failure(true) => Over(Failed(Verification, Confirmed))
    case _ => Over(Failed(Submission, Unknown))
  }

  /** Where an update is after some calls. */
  function After(input: Input, setting: Setting, calls: seq<Call>): (phase: Phase)
    requires Selects(input)
    ensures Sound(input, phase)
  {
    if calls == [] then Reading
    else Advance(input, setting, After(input, setting, calls[..|calls| - 1]), calls[|calls| - 1].reply)
  }

  /** A run of the protocol: each call is the one its phase makes, with a reply of the right shape. */
  ghost predicate Follows(input: Input, setting: Setting, calls: seq<Call>)
    requires Selects(input)
  {
    calls == [] || (
      var before, last := calls[..|calls| - 1], calls[|calls| - 1];
      var phase := After(input, setting, before);
      Follows(input, setting, before) && !phase.Over? && last.request == RequestOf(input, phase)
        && Fits(last.request, last.reply))
  }

  lemma OneCallMore(input: Input, setting: Setting, calls: seq<Call>, reply: Reply)
    requires Selects(input) && Follows(input, setting, calls) && !After(input, setting, calls).Over?
    requires Fits(RequestOf(input, After(input, setting, calls)), reply)
    ensures var more := calls + [Call(RequestOf(input, After(input, setting, calls)), reply)];
      Follows(input, setting, more)
      && After(input, setting, more) == Advance(input, setting, After(input, setting, calls), reply)
  {
    var more := calls + [Call(RequestOf(input, After(input, setting, calls)), reply)];
    assert more[..|more| - 1] == calls;
  }

  ghost predicate LastCall(calls: seq<Call>, call: Call) {
    calls != [] && calls[|calls| - 1] == call
  }

  /** A run that has come to this phase. */
  ghost predicate Reached(input: Input, setting: Setting, calls: seq<Call>, phase: Phase)
    requires Selects(input)
  {
    Follows(input, setting, calls) && After(input, setting, calls) == phase
  }

  // ----- The update -----

  /** The next call of a run. */
  method MakeCall(
    remote: Remote, input: Input, ghost setting: Setting, ghost phase: Phase, request: Request,
    ghost start: seq<Call>, ghost before: seq<Call>)
      returns (reply: Reply, ghost calls: seq<Call>)
    requires Selects(input) && Sound(input, phase) && !phase.Over? && request == RequestOf(input, phase)
    requires Reached(input, setting, before, phase) && remote.log == start + before
    modifies remote
    ensures remote.log == start + calls && LastCall(calls, Call(request, reply)) && Fits(request, reply)
    ensures Reached(input, setting, calls, Advance(input, setting, phase, reply))
  {
    reply := remote.Ask(request);
    OneCallMore(input, setting, before, reply);
    calls := before + [Call(request, reply)];
  }

  method FindOnly(items: seq<Raw>, target: Target, value: Bytes, fold: Folding)
      returns (baseline: Option<Option<Label>>)
    ensures baseline == Only(items, target, value, fold)
  {
    var found: Option<Label> := None;
    for i := 0 to |items|
      invariant Only(items[..i], target, value, fold) == Some(found)
    {
      var item := Canonical(items[i], fold);
      assert items[..i + 1][..i] == items[..i];
      OnlyFails(items, i + 1, target, value, fold);
      if item.target != target || item.luid == [] {
        return None;
      }
      if item.state.value == value {
        if found.Some? {
          return None;
        }
        found := Some(item);
      }
    }
    assert items[..|items|] == items;
    return Some(found);
  }

  lemma {:induction false} OnlyFails(labels: seq<Raw>, k: nat, target: Target, value: Bytes, fold: Folding)
    requires k <= |labels|
    ensures Only(labels[..k], target, value, fold).None? ==> Only(labels, target, value, fold).None?
    decreases |labels|
  {
    if k < |labels| {
      OnlyFails(labels[..|labels| - 1], k, target, value, fold);
      assert labels[..|labels| - 1][..k] == labels[..k];
    } else {
      assert labels[..k] == labels;
    }
  }

  method UpdateBaseline(
    remote: Remote, input: Input, setting: Setting, ghost phase: Phase, ghost start: seq<Call>, ghost before: seq<Call>)
      returns (baseline: Option<Option<Label>>, ghost reply: Reply, ghost calls: seq<Call>)
    requires Selects(input) && (phase.Reading? || phase.Rereading?)
    requires Reached(input, setting, before, phase) && remote.log == start + before
    modifies remote
    ensures remote.log == start + calls && LastCall(calls, Call(BaselineRead(input), reply))
    ensures Reached(input, setting, calls, Advance(input, setting, phase, reply))
    ensures baseline == Baseline(input, reply, setting.fold)
  {
    var answer: Reply;
    answer, calls := MakeCall(remote, input, setting, phase, BaselineRead(input), start, before);
    reply := answer;
    if answer.Failure? {
      return None, reply, calls;
    }
    if input.id != [] {
      var item := Canonical(answer.raw, setting.fold);
      if item.luid != input.id || !Supported(item.target.kind) || item.target.luid == []
        || (input.asked.Some? && item.target != input.asked.value) {
        return None, reply, calls;
      }
      return Some(Some(item)), reply, calls;
    }
    if |answer.labels| > MAX_LABELS {
      return None, reply, calls;
    }
    baseline := FindOnly(answer.labels, input.asked.value, input.value.value, setting.fold);
  }

  /** Read the baseline, check the pin, and check the value that is given up. */
  method Settle(remote: Remote, input: Input, setting: Setting)
      returns (result: Result<Option<Label>, Outcome>, ghost calls: seq<Call>)
    requires Selects(input)
    modifies remote
    ensures remote.log == old(remote.log) + calls
    ensures Reached(input, setting, calls, if result.Ok? then Choosing(result.value) else Over(result.error))
  {
    ghost var start := remote.log;
    var baseline: Option<Option<Label>>;
    ghost var answer: Reply;
    baseline, answer, calls := UpdateBaseline(remote, input, setting, Reading, start, []);
    if baseline.None? {
      return Err(Failed(Read, NotAttempted)), calls;
    }
    var before := baseline.value;
    if input.expected.Some? {
      var target := if before.Some? then before.value.target else input.asked.value;
      var attachment := if before.Some? then before.value.luid else [];
      if target != input.expected.value.target || attachment != input.expected.value.attachment {
        return Err(Failed(Pin, NotAttempted)), calls;
      }
    }
    if before.Some? && input.value.Some? && input.value.value != before.value.state.value {
      var previous: Reply;
      previous, calls := MakeCall(
        remote, input, setting, Leaving(before), GetValue(before.value.state.value), start, calls);
      if !Usable(before.value.state.value, previous) {
        return Err(Failed(Value, NotAttempted)), calls;
      }
    }
    return Ok(before), calls;
  }

  /** Check the value that is chosen, and plan. */
  method Prepare(remote: Remote, input: Input, setting: Setting)
      returns (result: Result<Plan, Outcome>, ghost calls: seq<Call>)
    requires Selects(input)
    modifies remote
    ensures remote.log == old(remote.log) + calls
    ensures Reached(input, setting, calls, if result.Ok? then Rereading(result.value) else Over(result.error))
  {
    ghost var start := remote.log;
    var settled: Result<Option<Label>, Outcome>;
    settled, calls := Settle(remote, input, setting);
    if settled.Err? {
      return Err(settled.error), calls;
    }
    var before := settled.value;
    var value := Asked(input, before).value;
    var definition: Reply;
    definition, calls := MakeCall(remote, input, setting, Choosing(before), GetValue(value), start, calls);
    if !Usable(value, definition) {
      return Err(Failed(Value, NotAttempted)), calls;
    }
    var plan := PlanOf(input, before, definition.definition);
    if setting.preview {
      return Err(Previewed(plan)), calls;
    }
    if before.Some? && before.value.state == plan.desired {
      return Err(Unchanged(plan, before.value)), calls;
    }
    if !setting.writable {
      return Err(Unusable), calls;
    }
    return Ok(plan), calls;
  }

  method Update(remote: Remote, input: Input, setting: Setting) returns (outcome: Outcome, ghost calls: seq<Call>)
    requires Selects(input)
    modifies remote
    ensures remote.log == old(remote.log) + calls
    ensures Follows(input, setting, calls) && After(input, setting, calls) == Over(outcome)
    ensures Told(input, setting, calls, outcome) && WritesVetted(input, setting, calls) && Writes(calls) <= 1
  {
    outcome, calls := UpdateSteps(remote, input, setting);
    RunKeepsShape(input, setting, calls);
    RunTells(input, setting, calls, outcome);
    RunVetsWrites(input, setting, calls);
  }

  /** The first part: plan, and read the baseline again. */
  method UpdateSteps(remote: Remote, input: Input, setting: Setting) returns (outcome: Outcome, ghost calls: seq<Call>)
    requires Selects(input)
    modifies remote
    ensures remote.log == old(remote.log) + calls && Reached(input, setting, calls, Over(outcome))
  {
    ghost var start := remote.log;
    var prepared: Result<Plan, Outcome>;
    prepared, calls := Prepare(remote, input, setting);
    if prepared.Err? {
      return prepared.error, calls;
    }
    var plan := prepared.value;
    var current: Option<Option<Label>>;
    ghost var answer: Reply;
    current, answer, calls := UpdateBaseline(remote, input, setting, Rereading(plan), start, calls);
    if current.None? {
      return Failed(Recheck, NotAttempted), calls;
    }
    if !SameBaseline(plan.before, current.value) {
      return Failed(Conflict, NotAttempted), calls;
    }
    outcome, calls := Perform(remote, input, setting, plan, start, calls);
  }

  /** The second part: write and read back. */
  method Perform(
    remote: Remote, input: Input, setting: Setting, plan: Plan, ghost start: seq<Call>, ghost before: seq<Call>)
      returns (outcome: Outcome, ghost calls: seq<Call>)
    requires Selects(input) && Reached(input, setting, before, Writing(plan)) && remote.log == start + before
    modifies remote
    ensures remote.log == start + calls && Reached(input, setting, calls, Over(outcome))
  {
    var written: Reply;
    written, calls := MakeCall(remote, input, setting, Writing(plan), WriteRequest(plan), start, before);
    if written.Failure? {
      if written.acknowledged {
        return Failed(Verification, Confirmed), calls;
      }
      return Failed(Submission, Unknown), calls;
    }
    var saved := Canonical(written.raw, setting.fold);
    if !SavedAsPlanned(plan, saved) {
      return Failed(Verification, Confirmed), calls;
    }
    var readback: Reply;
    readback, calls := MakeCall(
      remote, input, setting, Verifying(plan, saved), GetLabel(saved.luid), start, calls);
    if readback.Failure? {
      return Failed(Verification, Confirmed), calls;
    }
    var verified := Canonical(readback.raw, setting.fold);
    if !VerifiedAsSaved(plan, saved, verified) {
      return Failed(Verification, Confirmed), calls;
    }
    return Updated(plan, verified), calls;
  }

  // ----- What every run keeps -----

  function Writes(calls: seq<Call>): nat {
    if calls == [] then 0
    else Writes(calls[..|calls| - 1]) + if IsWrite(calls[|calls| - 1].request) then 1 else 0
  }

  /** The plan was made with this definition of the value it asks for. */
  ghost predicate PlannedWith(input: Input, plan: Plan, reply: Reply) {
    && (plan.before.None? ==> input.asked.Some?)
    && Usable(Asked(input, plan.before).value, reply)
    && plan == PlanOf(input, plan.before, reply.definition)
  }

  /** The definition of this value was read: it has that name, and the system does not manage it. */
  ghost predicate PublicValue(call: Call, name: Bytes) {
    && call.request == GetValue(name) && call.reply.OneValue?
    && call.reply.definition.name == name && !call.reply.definition.internal
  }

  ghost predicate Vetted(calls: seq<Call>, name: Bytes) {
    exists k :: 0 <= k < |calls| && PublicValue(calls[k], name)
  }

  /** The value of a plan was vetted, and so was the value that it gives up. */
  ghost predicate VettedPlan(calls: seq<Call>, plan: Plan) {
    && Vetted(calls, plan.desired.value)
    && (plan.before.Some? && plan.before.value.state.value != plan.desired.value ==>
          Vetted(calls, plan.before.value.state.value))
  }

  lemma VettedMore(calls: seq<Call>, init: seq<Call>, name: Bytes)
    requires calls != [] && calls[..|calls| - 1] == init
    ensures Vetted(calls, name) <==> (Vetted(init, name) || PublicValue(calls[|calls| - 1], name))
  {
    assert forall k | 0 <= k < |init| :: calls[k] == init[k];
    if Vetted(init, name) {
      var k :| 0 <= k < |init| && PublicValue(init[k], name);
      assert PublicValue(calls[k], name);
    }
  }

  /** The run read this baseline first, and planned from it. */
  ghost predicate PlannedFrom(input: Input, setting: Setting, calls: seq<Call>, plan: Plan)
    requires Selects(input)
  {
    && calls != [] && calls[0].request == BaselineRead(input)
    && Baseline(input, calls[0].reply, setting.fold) == Some(plan.before)
    && PinHolds(input, plan.before)
    && (exists k :: 0 < k < |calls| && PlannedWith(input, plan, calls[k].reply))
    && VettedPlan(calls, plan)
    && !setting.preview && setting.writable
  }

  /** The baseline was read again just before call number k, and nothing had changed. */
  ghost predicate Agreed(input: Input, setting: Setting, calls: seq<Call>, k: nat, plan: Plan)
    requires Selects(input)
  {
    && 2 <= k <= |calls| && calls[k - 1].request == BaselineRead(input)
    && var current := Baseline(input, calls[k - 1].reply, setting.fold);
      current.Some? && SameBaseline(plan.before, current.value)
  }

  /** What is true of the calls in each phase. */
  ghost predicate Shape(input: Input, setting: Setting, calls: seq<Call>, phase: Phase)
    requires Selects(input)
  {
    match phase
    case Reading => calls == []
    case Leaving(before) =>
      Writes(calls) == 0 && Begun(input, setting, calls, before) && |calls| == 1
    case Choosing(before) =>
      && Writes(calls) == 0 && Begun(input, setting, calls, before)
      && (ChangesValue(input, before) ==> Vetted(calls, before.value.state.value))
    case Rereading(plan) => Writes(calls) == 0 && PlannedFrom(input, setting, calls, plan)
    case Writing(plan) =>
      Writes(calls) == 0 && PlannedFrom(input, setting, calls, plan) && Agreed(input, setting, calls, |calls|, plan)
    case Verifying(plan, saved) =>
      && Writes(calls) == 1 && WrittenLast(input, setting, calls, plan) && SavedAsPlanned(plan, saved)
      && var last := calls[|calls| - 1];
        last.reply.OneLabel? && saved == Canonical(last.reply.raw, setting.fold)
    case Over(outcome) => Ended(input, setting, calls, outcome)
  }

  ghost predicate Begun(input: Input, setting: Setting, calls: seq<Call>, before: Option<Label>)
    requires Selects(input)
  {
    && calls != [] && calls[0].request == BaselineRead(input)
    && Baseline(input, calls[0].reply, setting.fold) == Some(before) && PinHolds(input, before)
  }

  /** The last call is the planned write, and the two baselines before it agree. */
  ghost predicate WrittenLast(input: Input, setting: Setting, calls: seq<Call>, plan: Plan)
    requires Selects(input)
  {
    && calls != [] && calls[|calls| - 1].request == WriteRequest(plan)
    && PlannedFrom(input, setting, calls, plan) && Agreed(input, setting, calls, |calls| - 1, plan)
  }

  /** What an outcome says of the calls that led to it. */
  ghost predicate Ended(input: Input, setting: Setting, calls: seq<Call>, outcome: Outcome)
    requires Selects(input)
  {
    match outcome
    case Failed(_, NotAttempted) => Writes(calls) == 0
    case Unusable => Writes(calls) == 0 && !setting.writable
    case Previewed(_) => Writes(calls) == 0 && setting.preview
    case Unchanged(plan, item) =>
      && Writes(calls) == 0 && Begun(input, setting, calls, plan.before)
      && plan.before == Some(item) && item.state == plan.desired
    case Failed(_, _) => Writes(calls) == 1
    case Updated(plan, item) =>
      && Writes(calls) == 1 && |calls| >= 2 && WrittenLast(input, setting, calls[..|calls| - 1], plan)
      && item.state == plan.desired && item.target == plan.target
      && var last := calls[|calls| - 1];
        && last.request == GetLabel(item.luid) && last.reply.OneLabel?
        && item == Canonical(last.reply.raw, setting.fold)
        && item.luid != [] && (plan.before.Some? ==> item.luid == plan.before.value.luid)
  }

  /** Every run keeps its shape: at most one write, none in a preview, none unless the baseline was
      read twice with the same result; an outcome that says so means that nothing was attempted;
      and "updated" means that the label read back is the one planned. */
  lemma {:induction false} RunKeepsShape(input: Input, setting: Setting, calls: seq<Call>)
    requires Selects(input) && Follows(input, setting, calls)
    ensures Shape(input, setting, calls, After(input, setting, calls))
    decreases |calls|
  {
    if calls != [] {
      var init, last := calls[..|calls| - 1], calls[|calls| - 1];
      RunKeepsShape(input, setting, init);
      StepKeepsShape(input, setting, calls, init, last);
    }
  }

  lemma {:induction false} StepKeepsShape(input: Input, setting: Setting, calls: seq<Call>, init: seq<Call>, last: Call)
    requires Selects(input) && Follows(input, setting, calls)
    requires calls != [] && calls[..|calls| - 1] == init && calls[|calls| - 1] == last
    requires Shape(input, setting, init, After(input, setting, init))
    ensures Shape(input, setting, calls, After(input, setting, calls))
  {
    var phase := After(input, setting, init);
    assert init != [] ==> calls[0] == init[0];
    assert Writes(calls) == Writes(init) + if IsWrite(last.request) then 1 else 0;
    PhaseKeepsShape(input, setting, calls, init, last, phase);
  }

  /** What one call does to the shape of a run. */
  lemma PhaseKeepsShape(
    input: Input, setting: Setting, calls: seq<Call>, init: seq<Call>, last: Call, phase: Phase)
    requires Selects(input) && Sound(input, phase) && !phase.Over? && Shape(input, setting, init, phase)
    requires last.request == RequestOf(input, phase) && Fits(last.request, last.reply)
    requires calls != [] && calls[..|calls| - 1] == init && calls[|calls| - 1] == last
    requires init != [] ==> calls[0] == init[0]
    requires Writes(calls) == Writes(init) + if IsWrite(last.request) then 1 else 0
    ensures Shape(input, setting, calls, Advance(input, setting, phase, last.reply))
  {
    match phase {
      case Reading =>
      case Leaving(before) =>
        VettedMore(calls, init, before.value.state.value);
      case Choosing(before) =>
        ChoosingKeepsShape(input, setting, calls, init, last, before);
      case Rereading(plan) =>
        PlanKept(input, setting, calls, init, plan);
      case Writing(plan) =>
        WritingKeepsShape(input, setting, calls, init, last, plan);
      case Verifying(plan, saved) =>
        VerifyingKeepsShape(input, setting, calls, init, last, plan, saved);
    }
  }

  lemma {:induction false} WritingKeepsShape(
    input: Input, setting: Setting, calls: seq<Call>, init: seq<Call>, last: Call, plan: Plan)
    requires Selects(input) && Shape(input, setting, init, Writing(plan))
    requires last.request == WriteRequest(plan) && Writes(calls) == 1
    requires calls != [] && calls[..|calls| - 1] == init && calls[|calls| - 1] == last
    ensures Shape(input, setting, calls, Written(setting, plan, last.reply))
  {
    PlanKept(input, setting, calls, init, plan);
    AgreementKept(input, setting, calls, init, plan);
  }

  lemma AgreementKept(input: Input, setting: Setting, calls: seq<Call>, init: seq<Call>, plan: Plan)
    requires Selects(input) && calls != [] && calls[..|calls| - 1] == init
    requires Agreed(input, setting, init, |init|, plan)
    ensures Agreed(input, setting, calls, |calls| - 1, plan)
  {
    assert calls[|calls| - 2] == init[|init| - 1];
  }

  lemma {:induction false} VerifyingKeepsShape(
    input: Input, setting: Setting, calls: seq<Call>, init: seq<Call>, last: Call, plan: Plan, saved: Label)
    requires Selects(input) && Shape(input, setting, init, Verifying(plan, saved))
    requires last.request == GetLabel(saved.luid) && Writes(calls) == 1
    requires calls != [] && calls[..|calls| - 1] == init && calls[|calls| - 1] == last
    ensures Shape(input, setting, calls, Advance(input, setting, Verifying(plan, saved), last.reply))
  {
  }

  /** A plan stays the plan of a longer run. */
  lemma PlanKept(input: Input, setting: Setting, calls: seq<Call>, init: seq<Call>, plan: Plan)
    requires Selects(input) && calls != [] && calls[..|calls| - 1] == init && PlannedFrom(input, setting, init, plan)
    ensures PlannedFrom(input, setting, calls, plan)
  {
    var k :| 0 < k < |init| && PlannedWith(input, plan, init[k].reply);
    assert calls[k] == init[k] && calls[0] == init[0];
    VettedMore(calls, init, plan.desired.value);
    if plan.before.Some? {
      VettedMore(calls, init, plan.before.value.state.value);
    }
  }

  lemma ChoosingKeepsShape(
    input: Input, setting: Setting, calls: seq<Call>, init: seq<Call>, last: Call, before: Option<Label>)
    requires Selects(input) && Sound(input, Choosing(before)) && Writes(calls) == 0
    requires Begun(input, setting, init, before)
    requires ChangesValue(input, before) ==> Vetted(init, before.value.state.value)
    requires last.request == GetValue(Asked(input, before).value)
    requires calls != [] && calls[..|calls| - 1] == init && calls[|calls| - 1] == last && calls[0] == init[0]
    ensures Shape(input, setting, calls, Advance(input, setting, Choosing(before), last.reply))
  {
    if Usable(Asked(input, before).value, last.reply) {
      var plan := PlanOf(input, before, last.reply.definition);
      assert PlannedWith(input, plan, calls[|calls| - 1].reply);
      VettedMore(calls, init, plan.desired.value);
      if before.Some? {
        VettedMore(calls, init, before.value.state.value);
      }
    }
  }

  // ----- What the calls of a run say -----

  /** The target of a write after this baseline. */
  function TargetAfter(input: Input, before: Option<Label>): Option<Target> {
    if before.Some? then Some(before.value.target) else input.asked
  }

  /** A label as the write asked for it: of the target and in the state that was written, and the same attachment
      if there was one. */
  ghost predicate AsWritten(request: Request, target: Option<Target>, raw: Raw, fold: Folding) {
    && raw.luid != [] && target == Some(Target(fold(raw.spelling), raw.target))
    && match request
      case SetLabel(_, desired) => raw.state == desired
      case UpdateLabel(id, desired) => raw.state == desired && raw.luid == id
      case _ => false
  }

  /** The write saved the label as asked. */
  ghost predicate WroteAsAsked(write: Call, target: Option<Target>, fold: Folding) {
    IsWrite(write.request) && write.reply.OneLabel? && AsWritten(write.request, target, write.reply.raw, fold)
  }

  /** What was written is read back, by the identifier that the write returned. */
  ghost predicate ReadBack(write: Call, read: Call, target: Option<Target>, fold: Folding) {
    && WroteAsAsked(write, target, fold) && read.request == GetLabel(write.reply.raw.luid)
    && read.reply.OneLabel? && read.reply.raw.luid == write.reply.raw.luid
    && AsWritten(write.request, target, read.reply.raw, fold)
  }

  /** The last two calls are a write, saved as asked, and its reading back. */
  ghost predicate ReadsBack(calls: seq<Call>, target: Option<Target>, fold: Folding) {
    |calls| >= 2 && WroteAsAsked(calls[|calls| - 2], target, fold)
      && calls[|calls| - 1].request == GetLabel(calls[|calls| - 2].reply.raw.luid)
  }

  /** The outcome of a run after the baseline, by its last calls: the two failures around a write, and success. */
  ghost predicate WriteOutcome(calls: seq<Call>, target: Option<Target>, fold: Folding, outcome: Outcome)
    requires calls != []
  {
    var last := calls[|calls| - 1];
    && (outcome == Failed(Submission, Unknown) <==> IsWrite(last.request) && last.reply == Failure(false))
    && (outcome == Failed(Verification, Confirmed) <==> (
      || (IsWrite(last.request) && last.reply != Failure(false) && !WroteAsAsked(last, target, fold))
      || (ReadsBack(calls, target, fold) && !ReadBack(calls[|calls| - 2], last, target, fold))))
    && (outcome.Updated? <==> (
      ReadsBack(calls, target, fold) && ReadBack(calls[|calls| - 2], last, target, fold)))
    && (outcome.Updated? ==> outcome.item == Canonical(last.reply.raw, fold))
    && (outcome.Failed? && outcome.effect != NotAttempted ==>
      outcome in {Failed(Submission, Unknown), Failed(Verification, Confirmed)})
  }

  /** The outcome of a run that ended with reading a value: it is refused exactly if the definition has another name
      or the system manages it. */
  ghost predicate ValueOutcome(setting: Setting, before: Option<Label>, last: Call, outcome: Outcome) {
    && (outcome == Failed(Value, NotAttempted)
        <==> last.request.GetValue? && !PublicValue(last, last.request.name))
    && (outcome.Previewed? <==> last.request.GetValue? && PublicValue(last, last.request.name) && setting.preview)
    && (outcome == Unusable || outcome.Unchanged? ==> last.request.GetValue? && !setting.preview)
    && (outcome.Unchanged? ==> before == Some(outcome.item) && outcome.item.state == outcome.plan.desired)
  }

  /** Both are absent, or the same attachment of the same target in the same state. */
  ghost predicate Unmoved(first: Option<Label>, current: Option<Label>) {
    && (first.None? <==> current.None?)
    && (first.Some? && current.Some? ==>
      && first.value.luid == current.value.luid && first.value.target == current.value.target
      && first.value.state == current.value.state)
  }

  /** The outcome of a run that ended with reading a baseline. */
  ghost predicate BaselineOutcome(input: Input, setting: Setting, calls: seq<Call>, outcome: Outcome)
    requires Selects(input) && calls != []
  {
    var first := Baseline(input, calls[0].reply, setting.fold);
    var current := Baseline(input, calls[|calls| - 1].reply, setting.fold);
    && (outcome == Failed(Read, NotAttempted) <==> first.None?)
    && (first.None? || outcome == Failed(Pin, NotAttempted) ==> |calls| == 1)
    && (outcome == Failed(Pin, NotAttempted) <==> (
      && first.Some? && input.expected.Some?
      && (TargetAfter(input, first.value) != Some(input.expected.value.target)
          || input.expected.value.attachment != if first.value.Some? then first.value.value.luid else [])))
    && (Writes(calls) == 0 && |calls| > 1 && calls[|calls| - 1].request == BaselineRead(input) ==>
      && first.Some?
      && outcome == Failed(if current.None? then Recheck else Conflict, NotAttempted)
      && (current.Some? ==> !Unmoved(first.value, current.value)))
    && (outcome.Failed? && outcome.step in {Recheck, Conflict} ==>
      Writes(calls) == 0 && |calls| > 1 && calls[|calls| - 1].request == BaselineRead(input))
  }

  /** What an outcome says of the calls of its run. */
  ghost predicate Told(input: Input, setting: Setting, calls: seq<Call>, outcome: Outcome)
    requires Selects(input)
  {
    && calls != [] && calls[0].request == BaselineRead(input)
    && BaselineOutcome(input, setting, calls, outcome)
    && var first := Baseline(input, calls[0].reply, setting.fold);
      first.Some? ==>
        && WriteOutcome(calls, TargetAfter(input, first.value), setting.fold, outcome)
        && ValueOutcome(setting, first.value, calls[|calls| - 1], outcome)
  }

  /** A write goes to the attachment that was read first, or to the target if there was none, and only after the
      definitions of its value and of the value it gives up were read and found fit. */
  ghost predicate WriteVetted(input: Input, setting: Setting, calls: seq<Call>, k: nat)
    requires Selects(input) && k < |calls|
  {
    var first, before := Baseline(input, calls[0].reply, setting.fold), calls[..k];
    (IsWrite(calls[k].request) ==>
      && k >= 2 && calls[0].request == calls[k - 1].request == BaselineRead(input)
      && var current := Baseline(input, calls[k - 1].reply, setting.fold);
        first.Some? && current.Some? && Unmoved(first.value, current.value)) &&
    match calls[k].request
    case SetLabel(target, desired) =>
      first == Some(None) && input.asked == Some(target) && Vetted(before, desired.value)
    case UpdateLabel(id, desired) =>
      && first.Some? && first.value.Some? && first.value.value.luid == id && Vetted(before, desired.value)
      && var was := first.value.value.state.value;
        was != desired.value ==> Vetted(before, was)
    case _ => true
  }

  ghost predicate WritesVetted(input: Input, setting: Setting, calls: seq<Call>)
    requires Selects(input)
  {
    forall k: nat | k < |calls| :: WriteVetted(input, setting, calls, k)
  }

  /** In every run, a label is written only after its value, and the value it gives up, were vetted. */
  lemma {:induction false} RunVetsWrites(input: Input, setting: Setting, calls: seq<Call>)
    requires Selects(input) && Follows(input, setting, calls)
    ensures WritesVetted(input, setting, calls)
  {
    forall k: nat | k < |calls|
      ensures WriteVetted(input, setting, calls, k)
    {
      FollowsAt(input, setting, calls, k);
      RunKeepsShape(input, setting, calls[..k]);
      var phase := After(input, setting, calls[..k]);
      if phase.Writing? {
        assert calls[..k][0] == calls[0];
      }
    }
  }

  /** The calls of a run that is over explain its outcome. */
  lemma {:induction false} RunTells(input: Input, setting: Setting, calls: seq<Call>, outcome: Outcome)
    requires Selects(input) && Reached(input, setting, calls, Over(outcome))
    ensures Told(input, setting, calls, outcome)
  {
    var init, last := calls[..|calls| - 1], calls[|calls| - 1];
    RunKeepsShape(input, setting, init);
    LastTells(input, setting, calls, init, last, After(input, setting, init), outcome);
  }

  lemma {:induction false} LastTells(
    input: Input, setting: Setting, calls: seq<Call>, init: seq<Call>, last: Call, phase: Phase, outcome: Outcome)
    requires Selects(input) && Sound(input, phase) && !phase.Over? && Shape(input, setting, init, phase)
    requires last.request == RequestOf(input, phase) && Fits(last.request, last.reply)
    requires calls != [] && calls[..|calls| - 1] == init && calls[|calls| - 1] == last
    requires Advance(input, setting, phase, last.reply) == Over(outcome)
    ensures Told(input, setting, calls, outcome)
  {
    assert init != [] ==> calls[0] == init[0];
    assert Writes(calls) == Writes(init) + if IsWrite(last.request) then 1 else 0;
    if phase.Writing? {
      WritingTells(input, setting, calls, init, last, phase.plan, outcome);
    } else if phase.Verifying? {
      VerifyingTells(input, setting, calls, init, last, phase, outcome);
    } else {
      EarlyTells(input, setting, calls, init, last, phase, outcome);
    }
  }

  lemma {:induction false} EarlyTells(
    input: Input, setting: Setting, calls: seq<Call>, init: seq<Call>, last: Call, phase: Phase, outcome: Outcome)
    requires Selects(input) && Sound(input, phase) && Shape(input, setting, init, phase)
    requires phase.Reading? || phase.Leaving? || phase.Choosing? || phase.Rereading?
    requires last.request == RequestOf(input, phase) && Fits(last.request, last.reply)
    requires calls != [] && calls[..|calls| - 1] == init && calls[|calls| - 1] == last
    requires Advance(input, setting, phase, last.reply) == Over(outcome)
    requires (init != [] ==> calls[0] == init[0]) && Writes(calls) == 0
    ensures Told(input, setting, calls, outcome)
  {
    assert !WroteAsAsked(calls[|calls| - 1], None, setting.fold);
    if |calls| >= 2 {
      NoWrites(calls, |calls| - 2);
    }
  }

  lemma {:induction false} WritingTells(
    input: Input, setting: Setting, calls: seq<Call>, init: seq<Call>, last: Call, plan: Plan, outcome: Outcome)
    requires Selects(input) && Shape(input, setting, init, Writing(plan)) && init != []
    requires last.request == WriteRequest(plan) && Fits(last.request, last.reply)
    requires calls != [] && calls[..|calls| - 1] == init && calls[|calls| - 1] == last && calls[0] == init[0]
    requires Written(setting, plan, last.reply) == Over(outcome) && Writes(calls) == 1
    ensures Told(input, setting, calls, outcome)
  {
  }

  lemma {:induction false} VerifyingTells(
    input: Input, setting: Setting, calls: seq<Call>, init: seq<Call>, last: Call, phase: Phase, outcome: Outcome)
    requires Selects(input) && phase.Verifying? && Shape(input, setting, init, phase)
    requires last.request == GetLabel(phase.saved.luid) && Fits(last.request, last.reply)
    requires calls != [] && calls[..|calls| - 1] == init && calls[|calls| - 1] == last && init != []
    requires calls[0] == init[0] && Writes(calls) == 1
    requires Advance(input, setting, phase, last.reply) == Over(outcome)
    ensures Told(input, setting, calls, outcome)
  {
    assert calls[|calls| - 2] == init[|init| - 1];
  }

  lemma {:induction false} NoWrites(calls: seq<Call>, k: nat)
    requires Writes(calls) == 0 && k < |calls|
    ensures !IsWrite(calls[k].request)
    decreases |calls|
  {
    if k < |calls| - 1 {
      NoWrites(calls[..|calls| - 1], k);
    }
  }

  /** An updated label has every property that was asked for; the others are those of the baseline,
      or of a new active label with the value's default elevation. */
  lemma UpdatedAsAsked(input: Input, setting: Setting, calls: seq<Call>, plan: Plan, item: Label)
    requires Selects(input) && Follows(input, setting, calls)
      && After(input, setting, calls) == Over(Updated(plan, item))
    ensures input.value.Some? ==> item.state.value == input.value.value
    ensures input.message.Some? ==> item.state.message == input.message.value
    ensures input.active.Some? ==> item.state.active == input.active.value
    ensures input.elevated.Some? ==> item.state.elevated == input.elevated.value
    ensures plan.before.Some? ==> var was := plan.before.value.state;
      && (input.value.None? ==> item.state.value == was.value)
      && (input.message.None? ==> item.state.message == was.message)
      && (input.active.None? ==> item.state.active == was.active)
      && (input.elevated.None? ==> item.state.elevated == was.elevated)
    ensures plan.before.None? ==>
      && (input.message.None? ==> item.state.message == [])
      && (input.active.None? ==> item.state.active)
      && (input.elevated.None? ==> exists k :: 0 <= k < |calls| && Defaults(calls[k].reply, item.state))
  {
    RunKeepsShape(input, setting, calls);
    var init := calls[..|calls| - 1];
    assert PlannedFrom(input, setting, init, plan);
    var k :| 0 < k < |init| && PlannedWith(input, plan, init[k].reply);
    assert plan.before.None? && input.elevated.None? ==> Defaults(calls[k].reply, item.state);
  }

  /** The definition of the label's value has the label's elevation as its default. */
  predicate Defaults(reply: Reply, state: State) {
    reply.OneValue? && reply.definition.name == state.value && reply.definition.elevatedDefault == state.elevated
  }

  /** A pinned update writes to the pinned target only: to the pinned attachment, or a new one if it was
      pinned absent. */
  lemma {:induction false} PinnedWrite(input: Input, setting: Setting, calls: seq<Call>)
    requires Selects(input) && Follows(input, setting, calls) && input.expected.Some?
    ensures forall k | 0 <= k < |calls| && IsWrite(calls[k].request) ::
      match calls[k].request
        case SetLabel(target, _) => input.expected.value == Expected(target, [])
        case UpdateLabel(id, _) => input.expected.value.attachment == id
        case _ => true
  {
    forall k | 0 <= k < |calls| && IsWrite(calls[k].request)
      ensures match calls[k].request
        case SetLabel(target, _) => input.expected.value == Expected(target, [])
        case UpdateLabel(id, _) => input.expected.value.attachment == id
        case _ => true
    {
      FollowsAt(input, setting, calls, k);
      RunKeepsShape(input, setting, calls[..k]);
    }
  }

  /** Each call of a run is the one its phase makes. */
  lemma {:induction false} FollowsAt(input: Input, setting: Setting, calls: seq<Call>, k: nat)
    requires Selects(input) && Follows(input, setting, calls) && k < |calls|
    ensures Follows(input, setting, calls[..k]) && Follows(input, setting, calls[..k + 1])
    ensures var phase := After(input, setting, calls[..k]);
      && !phase.Over? && calls[k].request == RequestOf(input, phase) && Fits(calls[k].request, calls[k].reply)
      && After(input, setting, calls[..k + 1]) == Advance(input, setting, phase, calls[k].reply)
    decreases |calls|
  {
    var init := calls[..|calls| - 1];
    if k < |init| {
      FollowsAt(input, setting, init, k);
      assert init[..k] == calls[..k] && init[..k + 1] == calls[..k + 1];
    } else {
      assert calls[..k] == init && calls[..k + 1] == calls;
    }
  }

  // ----- Repeating an update -----

  /** What a list of labels says when the only change is that `raw` was saved. */
  ghost predicate ListAfter(before: seq<Raw>, raw: Raw, after: seq<Raw>) {
    exists k :: 0 <= k < |after| && after[k] == raw
      && forall i | 0 <= i < |after| && i != k :: after[i] in before && after[i].luid != raw.luid
  }

  /** A remote where nothing changes after `raw` was read back. */
  ghost predicate Quiet(before: seq<Raw>, raw: Raw, calls: seq<Call>) {
    forall k | 0 <= k < |calls| :: QuietCall(before, raw, calls[k])
  }

  ghost predicate QuietCall(before: seq<Raw>, raw: Raw, call: Call) {
    match call.request
    case GetLabel(id) => id == raw.luid ==> call.reply == OneLabel(raw)
    case GetLabels(_) => call.reply.Labels? && ListAfter(before, raw, call.reply.labels)
    case GetValue(name) => name == raw.state.value ==> Usable(name, call.reply)
    case _ => true
  }

  /** What the usable list of labels says. */
  lemma {:induction false} OnlyMeaning(labels: seq<Raw>, target: Target, value: Bytes, fold: Folding)
    requires Only(labels, target, value, fold).Some?
    ensures forall raw <- labels :: Canonical(raw, fold).target == target && raw.luid != []
    ensures forall raw <- labels | raw.state.value == value ::
      Only(labels, target, value, fold) == Some(Some(Canonical(raw, fold)))
    decreases |labels|
  {
    if labels != [] {
      OnlyMeaning(labels[..|labels| - 1], target, value, fold);
      assert labels == labels[..|labels| - 1] + [labels[|labels| - 1]];
    }
  }

  lemma {:induction false} OnlyOne(labels: seq<Raw>, k: nat, target: Target, value: Bytes, fold: Folding)
    requires k < |labels| && labels[k].state.value == value
    requires forall i | 0 <= i < |labels| :: Canonical(labels[i], fold).target == target && labels[i].luid != []
    requires forall i | 0 <= i < |labels| && i != k :: labels[i].state.value != value
    ensures Only(labels, target, value, fold) == Some(Some(Canonical(labels[k], fold)))
    decreases |labels|
  {
    var init := labels[..|labels| - 1];
    if k < |init| {
      OnlyOne(init, k, target, value, fold);
    } else {
      OnlyNone(init, target, value, fold);
    }
  }

  lemma {:induction false} OnlyNone(labels: seq<Raw>, target: Target, value: Bytes, fold: Folding)
    requires forall i | 0 <= i < |labels| :: Canonical(labels[i], fold).target == target && labels[i].luid != []
    requires forall i | 0 <= i < |labels| :: labels[i].state.value != value
    ensures Only(labels, target, value, fold) == Some(None)
    decreases |labels|
  {
    if labels != [] {
      OnlyNone(labels[..|labels| - 1], target, value, fold);
    }
  }

  /** A run that updated a label: the raw label it read back, and the list it had read just before the write. */
  ghost predicate UpdatedBy(input: Input, setting: Setting, calls: seq<Call>, plan: Plan, raw: Raw, before: seq<Raw>)
    requires Selects(input)
  {
    && Follows(input, setting, calls) && |calls| >= 3
    && After(input, setting, calls) == Over(Updated(plan, Canonical(raw, setting.fold)))
    && calls[|calls| - 1].reply == OneLabel(raw)
    && (input.id == [] ==> calls[|calls| - 3].reply == Labels(before))
  }

  /** The baseline of a repeated update is the label that was read back. */
  lemma RepeatBaseline(
    input: Input, setting: Setting, calls: seq<Call>, plan: Plan, raw: Raw, before: seq<Raw>, reply: Reply)
    requires Selects(input) && UpdatedBy(input, setting, calls, plan, raw, before)
    requires QuietCall(before, raw, Call(BaselineRead(input), reply))
    ensures if input.id == [] && |reply.labels| > MAX_LABELS then Baseline(input, reply, setting.fold) == None
      else Baseline(input, reply, setting.fold) == Some(Some(Canonical(raw, setting.fold)))
  {
    RunKeepsShape(input, setting, calls);
    var init := calls[..|calls| - 1];
    assert Agreed(input, setting, init, |init| - 1, plan);
    assert init[|init| - 2] == calls[|calls| - 3];
    assert init[0] == calls[0];
    if input.id == [] {
      var target, value := input.asked.value, input.value.value;
      if plan.before.Some? {
        OnlySome(init[0].reply.labels, target, value, setting.fold);
      }
      ListingAfter(before, raw, reply.labels, target, value, setting.fold);
    }
  }

  /** A listing after the only change finds the changed label. */
  lemma ListingAfter(before: seq<Raw>, raw: Raw, after: seq<Raw>, target: Target, value: Bytes, fold: Folding)
    requires Canonical(raw, fold).target == target && raw.state.value == value && raw.luid != []
    requires ListAfter(before, raw, after)
    requires var current := Only(before, target, value, fold);
      current.Some? && (current.value.Some? ==> current.value.value.luid == raw.luid)
    ensures Only(after, target, value, fold) == Some(Some(Canonical(raw, fold)))
  {
    OnlyMeaning(before, target, value, fold);
    var k :| 0 <= k < |after| && after[k] == raw
      && forall i | 0 <= i < |after| && i != k :: after[i] in before && after[i].luid != raw.luid;
    OnlyOne(after, k, target, value, fold);
  }

  lemma {:induction false} OnlySome(labels: seq<Raw>, target: Target, value: Bytes, fold: Folding)
    ensures var only := Only(labels, target, value, fold);
      only.Some? && only.value.Some? ==> only.value.value.target == target && only.value.value.state.value == value
    decreases |labels|
  {
    if labels != [] {
      OnlySome(labels[..|labels| - 1], target, value, fold);
    }
  }

  /** Asking again for what a label already is plans no change. */
  lemma RepeatPlan(
    input: Input, setting: Setting, calls: seq<Call>, plan: Plan, raw: Raw, before: seq<Raw>, reply: Reply)
    requires Selects(input) && UpdatedBy(input, setting, calls, plan, raw, before)
    requires Usable(raw.state.value, reply)
    ensures var item := Canonical(raw, setting.fold);
      && !ChangesValue(input, Some(item))
      && Asked(input, Some(item)).value == raw.state.value
      && PlanOf(input, Some(item), reply.definition) == Plan(item.target, Some(item), item.state)
      && (PinHolds(input, Some(item)) <==> !(input.expected.Some? && input.expected.value.attachment == []))
  {
    RunKeepsShape(input, setting, calls);
    var init := calls[..|calls| - 1];
    assert PlannedFrom(input, setting, init, plan);
    var k :| 0 < k < |init| && PlannedWith(input, plan, init[k].reply);
    BaselineIdentified(input, init[0].reply, setting.fold);
  }

  lemma BaselineIdentified(input: Input, reply: Reply, fold: Folding)
    requires Selects(input)
    ensures var b := Baseline(input, reply, fold);
      b.Some? && b.value.Some? ==> b.value.value.luid != []
  {
    if input.id == [] && reply.Labels? {
      OnlyIdentified(reply.labels, input.asked.value, input.value.value, fold);
    }
  }

  lemma {:induction false} OnlyIdentified(labels: seq<Raw>, target: Target, value: Bytes, fold: Folding)
    ensures var only := Only(labels, target, value, fold);
      only.Some? && only.value.Some? ==> only.value.value.luid != []
    decreases |labels|
  {
    if labels != [] {
      OnlyIdentified(labels[..|labels| - 1], target, value, fold);
    }
  }

  /** Repeating a successful update while the remote is quiet changes nothing and reports the label
      as unchanged, unless the first one was pinned to create the attachment or the target now holds
      more labels than a listing may. */
  lemma {:induction false} RepeatIsUnchanged(
    input: Input, setting: Setting, calls: seq<Call>, plan: Plan, raw: Raw, before: seq<Raw>, again: seq<Call>,
    outcome: Outcome)
    requires Selects(input) && UpdatedBy(input, setting, calls, plan, raw, before)
    requires Follows(input, setting, again) && After(input, setting, again) == Over(outcome)
      && Quiet(before, raw, again)
    ensures var item := Canonical(raw, setting.fold);
      var tooMany := input.id == [] && again[0].reply.Labels? && |again[0].reply.labels| > MAX_LABELS;
      var pinnedAbsent := input.expected.Some? && input.expected.value.attachment == [];
      outcome ==
        if tooMany then Failed(Read, NotAttempted)
        else if pinnedAbsent then Failed(Pin, NotAttempted)
        else Unchanged(Plan(item.target, Some(item), item.state), item)
  {
    var item := Canonical(raw, setting.fold);
    RunKeepsShape(input, setting, calls);
    assert again != [];
    FollowsAt(input, setting, again, 0);
    assert again[..0] == [];
    var baseline := again[0].reply;
    assert QuietCall(before, raw, again[0]);
    RepeatBaseline(input, setting, calls, plan, raw, before, baseline);
    var first := After(input, setting, again[..1]);
    if first.Over? {
      EndsThere(input, setting, again, 1);
      if !(input.id == [] && |baseline.labels| > MAX_LABELS) {
        RepeatPlan(input, setting, calls, plan, raw, before, OneValue(Definition(raw.state.value, false, false)));
      }
    } else {
      RepeatPlan(input, setting, calls, plan, raw, before, OneValue(Definition(raw.state.value, false, false)));
      assert first == Choosing(Some(item));
      assert again[..|again|] == again;
      FollowsAt(input, setting, again, 1);
      assert QuietCall(before, raw, again[1]);
      RepeatPlan(input, setting, calls, plan, raw, before, again[1].reply);
      EndsThere(input, setting, again, 2);
    }
  }

  /** A run that is over makes no more calls. */
  lemma {:induction false} EndsThere(input: Input, setting: Setting, calls: seq<Call>, k: nat)
    requires Selects(input) && Follows(input, setting, calls) && k <= |calls| && After(input, setting, calls[..k]).Over?
    ensures |calls| == k && calls[..k] == calls
  {
    if k < |calls| {
      FollowsAt(input, setting, calls, k);
    }
  }

  // ----- Pinning -----

  /** The input of a batch, pinned to what its preview found. */
  function PinTarget(input: Input, plan: Plan): Option<Input> {
    if !Supported(plan.target.kind) || plan.target.luid == [] then None
    else
      var pinned := input.(asked := Some(plan.target), expected := Some(Expected(plan.target, [])));
      if plan.before.None? then Some(pinned)
      else if plan.before.value.luid == [] then None
      else
        var attachment := plan.before.value.luid;
        Some(pinned.(id := attachment, expected := Some(Expected(plan.target, attachment))))
  }

  /** A preview can be pinned, and the pinned update, previewed again while the remote shows
      the same label, plans the same thing. */
  lemma PinnedPreview(input: Input, setting: Setting, calls: seq<Call>, plan: Plan, reply: Reply)
    requires Selects(input) && (input.asked.Some? ==> Supported(input.asked.value.kind) && input.asked.value.luid != [])
    requires Follows(input, setting, calls) && After(input, setting, calls) == Over(Previewed(plan))
    ensures PinTarget(input, plan).Some?
    ensures var pinned := PinTarget(input, plan).value;
      && Selects(pinned)
      && (Baseline(pinned, reply, setting.fold) == Some(plan.before) ==> PinHolds(pinned, plan.before))
      && Asked(pinned, plan.before) == Asked(input, plan.before)
  {
    PreviewPlanned(input, setting, calls, plan);
  }

  lemma {:induction false} PreviewPlanned(input: Input, setting: Setting, calls: seq<Call>, plan: Plan)
    requires Selects(input) && Follows(input, setting, calls) && After(input, setting, calls) == Over(Previewed(plan))
    requires input.asked.Some? ==> Supported(input.asked.value.kind) && input.asked.value.luid != []
    ensures plan.before.None? ==> input.asked == Some(plan.target) && input.value.Some?
    ensures plan.before.Some? ==> plan.target == plan.before.value.target && plan.before.value.luid != []
    ensures Supported(plan.target.kind) && plan.target.luid != []
  {
    RunKeepsShape(input, setting, calls);
    var init, last := calls[..|calls| - 1], calls[|calls| - 1];
    RunKeepsShape(input, setting, init);
    var phase := After(input, setting, init);
    assert phase.Choosing?;
    BaselineTarget(input, init[0].reply, setting.fold);
    BaselineIdentified(input, init[0].reply, setting.fold);
  }

  lemma BaselineTarget(input: Input, reply: Reply, fold: Folding)
    requires Selects(input) && (input.asked.Some? ==> Supported(input.asked.value.kind) && input.asked.value.luid != [])
    ensures var b := Baseline(input, reply, fold);
      b.Some? && b.value.Some? ==> Supported(b.value.value.target.kind) && b.value.value.target.luid != []
  {
    if input.id == [] && reply.Labels? {
      OnlySome(reply.labels, input.asked.value, input.value.value, fold);
    }
  }
}
