/** Paged search (actions/search/action.go): a large result bound is met by chaining
    the source's cursors in pages of one hundred. The source is an adversary; the
    cursor a caller sees is its content, the encoding being taken as injective. */
module SearchPages {
  import opened Common
  import opened ByteText

  const PAGE := 100
  const MAX_PAGES := 100
  const MAX_TOKEN := 16384
  const DEFAULT_LIMIT := 20
  const MAX_LIMIT := 2000

  datatype Kind = Workbook | Datasource | Flow | Project | User | Group | Definition | Metric | OtherKind(text: Bytes)
  datatype Item = Item(kind: Kind, luid: Bytes, name: Bytes)

  datatype SourceName = Unnamed | Live | Cache | Mixed | OtherSource(text: Bytes)

  /** The two warnings this code adds or looks for, and all others. */
  datatype Warning = Unshared | CacheAbsence | OtherWarning(text: Bytes)

  datatype Generation = Generation(id: Bytes, environment: Bytes, site: Bytes, generatedAt: Bytes, stale: bool)

  /** What a source returns for one call, and what a search returns for all of them. */
  datatype Found = Found(
    items: seq<Item>, source: SourceName, generation: Option<Generation>, warnings: seq<Warning>,
    total: int, next: Bytes, more: bool, unresolved: bool)

  /** What a search can be narrowed to; `Every` leaves the selector out. */
  datatype Selector = Every | Content | Admin | Pulse | Only(kind: Kind)

  /** The search terms and filters; everything a cursor is tied to. */
  datatype Query = Query(terms: Bytes, selector: Selector, limit: int, cache: bool, filters: Bytes)

  datatype Input = Input(query: Query, cursor: Bytes)

  datatype Request = Request(query: Query, cursor: Bytes, limit: int, budget: int)

  datatype Reply = Failed | Answered(page: Found)

  datatype Exchange = Exchange(request: Request, reply: Reply)

  datatype Error =
    | SourceFailed | Cancelled | PageTooLarge | BadContinuation | PageBound
    | BadCursor | TooManyItems | BadIdentity | BadArguments | NotOnThisServer

  // ----- One page after another -----

  const NOTHING := Found([], Unnamed, None, [], 0, [], false, false)

  function Blank(text: Bytes): bool {
    TrimSpace(text) == []
  }

  predicate SameGeneration(a: Generation, b: Generation) {
    a.id == b.id && a.environment == b.environment && a.site == b.site && a.generatedAt == b.generatedAt
  }

  function MergeGeneration(have: Option<Generation>, got: Option<Generation>): Option<Generation> {
    if have.None? || got.None? || !SameGeneration(have.value, got.value) then None
    else Some(have.value.(stale := have.value.stale || got.value.stale))
  }

  function MergeSource(have: SourceName, got: SourceName): SourceName {
    if got != Unnamed && have != Unnamed && got != have then Mixed else have
  }

  /** A page whose continuation the source cannot offer. */
  predicate Unresolved(page: Found) {
    page.unresolved || (page.more && page.next == [])
  }

  function Merge(have: Found, page: Found, first: bool, limit: int): Found {
    var items := have.items + page.items;
    var unresolved := have.unresolved || Unresolved(page);
    Found(
      items,
      if first then page.source else MergeSource(have.source, page.source),
      if first then page.generation else MergeGeneration(have.generation, page.generation),
      have.warnings + page.warnings,
      page.total,
      [],
      unresolved || page.more || page.next != [] || |items| > limit,
      unresolved)
  }

  /** Everything the pages say, merged in order. */
  function Merged(pages: seq<Found>, limit: int): Found {
    if pages == [] then NOTHING
    else Merge(Merged(pages[..|pages| - 1], limit), pages[|pages| - 1], |pages| == 1, limit)
  }

  function Without(warnings: seq<Warning>, warning: Warning): (rest: seq<Warning>)
    ensures warning !in rest && |rest| <= |warnings|
  {
    if warnings == [] then []
    else
      var last := warnings[|warnings| - 1];
      Without(warnings[..|warnings| - 1], warning) + if last == warning then [] else [last]
  }

  /** Leaving a warning out keeps exactly the others, in their order. */
  lemma {:induction false} WithoutKeeps(warnings: seq<Warning>, warning: Warning) returns (at: seq<nat>)
    ensures Picks(warnings, at, Without(warnings, warning))
    ensures forall k: nat | k < |warnings| :: k in at <==> warnings[k] != warning
    decreases |warnings|
  {
    if warnings == [] {
      return [];
    }
    var n := |warnings| - 1;
    at := WithoutKeeps(warnings[..n], warning);
    PicksMore(warnings, at, Without(warnings[..n], warning));
    at := at + if warnings[n] != warning then [n] else [];
  }

  function Truncated(query: Query, merged: Found, pages: nat): Found
    requires query.limit >= 0
  {
    var items := merged.items[..Min(query.limit, |merged.items|)];
    if query.cache && pages > 1 && merged.generation.None? then
      merged.(items := items, warnings := [Unshared] + Without(merged.warnings, Unshared))
    else
      merged.(items := items)
  }

  /** A search goes on, is done, or stopped; no page comes after that. */
  datatype Progress = More | Done(found: Found) | Stopped(error: Error) | Overrun

  function Cursors(pages: seq<Found>): set<Bytes> {
    set i | 0 <= i < |pages| :: pages[i].next
  }

  /** The cursor of call number k. */
  function CursorAt(input: Input, pages: seq<Found>, k: nat): Bytes
    requires k <= |pages|
  {
    if k == 0 then input.cursor else pages[k - 1].next
  }

  /** The call that is made after some pages. */
  function RequestAfter(input: Input, pages: seq<Found>): Request {
    var have := |Merged(pages, input.query.limit).items|;
    Request(input.query, CursorAt(input, pages, |pages|), PAGE, Min(PAGE, input.query.limit - have))
  }

  /** What becomes of a search when one more page arrives. */
  function Arrive(input: Input, before: seq<Found>, page: Found): Progress
    requires input.query.limit > PAGE
  {
    if |page.items| > PAGE then Stopped(PageTooLarge)
    else if page.next != [] && (Blank(page.next) || page.next in Cursors(before)) then Stopped(BadContinuation)
    else
      var merged := Merged(before + [page], input.query.limit);
      if |merged.items| >= input.query.limit || page.next == [] then Done(Truncated(input.query, merged, |before| + 1))
      else More
  }

  /** How far a search is after these pages. */
  function After(input: Input, pages: seq<Found>): Progress
    requires input.query.limit > PAGE
  {
    if pages == [] then More
    else
      var before := After(input, pages[..|pages| - 1]);
      if !before.More? then Overrun else Arrive(input, pages[..|pages| - 1], pages[|pages| - 1])
  }

  // ----- The source -----

  class Source {
    /** Every call made, with its reply. */
    ghost var log: seq<Exchange>
    /** Whether the caller has given up by the time of call number k of a paged search. */
    const ended: nat -> bool

    constructor (ended: nat -> bool)
      ensures log == [] && this.ended == ended
    {
      log, this.ended := [], ended;
    }

    method Search(request: Request) returns (reply: Reply)
      modifies this
      ensures log == old(log) + [Exchange(request, reply)]
    {
      reply := *;
      log := log + [Exchange(request, reply)];
    }
  }

  /** What a search leaves in the log: for each page, the call that asked for it. */
  ghost function Exchanges(input: Input, pages: seq<Found>): seq<Exchange> {
    if pages == [] then []
    else
      var init := pages[..|pages| - 1];
      Exchanges(input, init) + [Exchange(RequestAfter(input, init), Answered(pages[|pages| - 1]))]
  }

  /** What a single call answers. */
  function Single(input: Input, reply: Reply): Result<Found, Error> {
    match reply
    case Failed => Err(SourceFailed)
    case Answered(page) =>
      if page.next != [] && (Blank(page.next) || page.next == input.cursor) then Err(BadContinuation) else Ok(page)
  }

  /** A small search: one call with the caller's own limit. */
  method SearchOnce(source: Source, input: Input) returns (result: Result<Found, Error>, reply: Reply)
    modifies source
    ensures source.log == old(source.log) + [Exchange(Request(input.query, input.cursor, input.query.limit, 0), reply)]
    ensures result == Single(input, reply)
  {
    reply := source.Search(Request(input.query, input.cursor, input.query.limit, 0));
    if reply.Failed? {
      return Err(SourceFailed), reply;
    }
    var page := reply.page;
    if page.next != [] && (Blank(page.next) || page.next == input.cursor) {
      return Err(BadContinuation), reply;
    }
    return Ok(page), reply;
  }

  /** Folding one page into what was found before. */
  method Absorb(have: Found, page: Found, first: bool, limit: int) returns (found: Found)
    ensures found == Merge(have, page, first, limit)
  {
    found := have.(next := []);
    if first {
      found := found.(source := page.source, generation := page.generation);
    } else if found.generation.Some? {
      if page.generation.None? || !SameGeneration(found.generation.value, page.generation.value) {
        found := found.(generation := None);
      } else {
        var stale := found.generation.value.stale || page.generation.value.stale;
        found := found.(generation := Some(found.generation.value.(stale := stale)));
      }
    }
    if page.source != Unnamed && found.source != Unnamed && page.source != found.source {
      found := found.(source := Mixed);
    }
    found := found.(items := found.items + page.items, warnings := found.warnings + page.warnings, total := page.total);
    found := found.(unresolved := found.unresolved || page.unresolved || (page.more && page.next == []));
    found := found.(more := found.unresolved || page.more || page.next != [] || |found.items| > limit);
  }

  lemma MergedMore(before: seq<Found>, page: Found, limit: int)
    ensures Merged(before + [page], limit) == Merge(Merged(before, limit), page, before == [], limit)
  {
    assert (before + [page])[..|before|] == before;
  }

  lemma AfterMore(input: Input, before: seq<Found>, page: Found)
    requires input.query.limit > PAGE && After(input, before).More?
    ensures After(input, before + [page]) == Arrive(input, before, page)
  {
    assert (before + [page])[..|before|] == before;
  }

  lemma ExchangesMore(input: Input, before: seq<Found>, page: Found)
    ensures Exchanges(input, before + [page]) ==
      Exchanges(input, before) + [Exchange(RequestAfter(input, before), Answered(page))]
  {
    assert (before + [page])[..|before|] == before;
  }

  lemma CursorsMore(before: seq<Found>, page: Found)
    ensures Cursors(before + [page]) == Cursors(before) + {page.next}
  {
    var pages := before + [page];
    assert forall i | 0 <= i < |before| :: pages[i] == before[i];
    assert pages[|before|].next in Cursors(pages);
    forall next <- Cursors(before)
      ensures next in Cursors(pages)
    {
      var i :| 0 <= i < |before| && before[i].next == next;
      assert pages[i].next == next;
    }
  }

  /** What becomes of a search, given all that its pages say. */
  lemma {:induction false} ArriveIs(input: Input, pages: seq<Found>, page: Found, merged: Found)
    requires input.query.limit > PAGE && merged == Merged(pages + [page], input.query.limit)
    ensures Arrive(input, pages, page) ==
      if |page.items| > PAGE then Stopped(PageTooLarge)
      else if page.next != [] && (Blank(page.next) || page.next in Cursors(pages)) then Stopped(BadContinuation)
      else if |merged.items| >= input.query.limit || page.next == [] then
        Done(Truncated(input.query, merged, |pages| + 1))
      else More
  {
  }

  /** Checking and absorbing a page. */
  method TakePage(input: Input, ghost pages: seq<Found>, received: nat, have: Found, seen: set<Bytes>, page: Found)
      returns (progress: Progress, found: Found)
    requires input.query.limit > PAGE && received == |pages|
    requires have == Merged(pages, input.query.limit) && seen == Cursors(pages) + {[]}
    ensures progress == Arrive(input, pages, page)
    ensures progress.More? ==> found == Merged(pages + [page], input.query.limit)
  {
    var limit := input.query.limit;
    found := have;
    MergedMore(pages, page, limit);
    ArriveIs(input, pages, page, Merge(have, page, pages == [], limit));
    if |page.items| > PAGE {
      return Stopped(PageTooLarge), found;
    }
    if page.next != [] && (Blank(page.next) || page.next in seen) {
      return Stopped(BadContinuation), found;
    }
    found := Absorb(have, page, received == 0, limit);
    if |found.items| >= limit || page.next == [] {
      var warnings := found.warnings;
      if input.query.cache && received > 0 && found.generation.None? {
        warnings := [Unshared] + Without(found.warnings, Unshared);
      }
      return Done(found.(items := found.items[..Min(limit, |found.items|)], warnings := warnings)), found;
    }
    progress := More;
  }

  /** How the pages received explain the result of a paged search. */
  ghost predicate Explained(input: Input, pages: seq<Found>, result: Result<Found, Error>)
    requires input.query.limit > PAGE
  {
    && |pages| <= MAX_PAGES
    && match result
      case Ok(found) => After(input, pages) == Done(found)
      case Err(e) =>
        if e == SourceFailed || e == Cancelled then After(input, pages).More? && |pages| < MAX_PAGES
        else if e == PageBound then After(input, pages).More? && |pages| == MAX_PAGES
        else After(input, pages) == Stopped(e)
  }

  /** All the calls of a paged search; a source that fails sends no page. */
  ghost function Calls(input: Input, pages: seq<Found>, result: Result<Found, Error>): seq<Exchange> {
    if result == Err(SourceFailed) then Exchanges(input, pages) + [Exchange(RequestAfter(input, pages), Failed)]
    else Exchanges(input, pages)
  }

  /** What the loop holds after these pages. */
  ghost predicate Holding(input: Input, pages: seq<Found>, found: Found, seen: set<Bytes>, cursor: Bytes) {
    && found == Merged(pages, input.query.limit)
    && seen == Cursors(pages) + {[]}
    && cursor == CursorAt(input, pages, |pages|)
  }

  /** Asking for one page. */
  method Fetch(source: Source, input: Input, ghost pages: seq<Found>, found: Found, seen: set<Bytes>, cursor: Bytes)
      returns (reply: Reply)
    requires Holding(input, pages, found, seen, cursor)
    modifies source
    ensures source.log == old(source.log) + [Exchange(RequestAfter(input, pages), reply)]
  {
    reply := source.Search(Request(input.query, cursor, PAGE, Min(PAGE, input.query.limit - |found.items|)));
  }

  /** What a page that was taken in explains. */
  lemma {:induction false} PageTaken(input: Input, pages: seq<Found>, page: Found)
    requires input.query.limit > PAGE && |pages| < MAX_PAGES && After(input, pages).More?
    ensures var more, progress := pages + [page], Arrive(input, pages, page);
      && (progress.Stopped? ==>
        Explained(input, more, Err(progress.error))
          && Calls(input, more, Err(progress.error)) == Exchanges(input, more))
      && (progress.Done? ==>
        Explained(input, more, Ok(progress.found)) && Calls(input, more, Ok(progress.found)) == Exchanges(input, more))
      && (progress.More? ==> After(input, more).More?)
      && progress != Overrun
      && Exchanges(input, more) == Exchanges(input, pages) + [Exchange(RequestAfter(input, pages), Answered(page))]
      && Cursors(more) == Cursors(pages) + {page.next}
  {
    AfterMore(input, pages, page);
    ExchangesMore(input, pages, page);
    CursorsMore(pages, page);
    ArriveErrors(input, pages, page);
  }

  /** The caller had not given up before any of the first n calls, and has now if the search was cancelled. */
  ghost predicate Heeded(ended: nat -> bool, n: nat, cancelled: bool) {
    (forall k: nat | k < n :: !ended(k)) && (cancelled ==> ended(n))
  }

  /** How many calls a paged search makes. */
  ghost function CallCount(pages: seq<Found>, result: Result<Found, Error>): nat {
    |pages| + if result == Err(SourceFailed) then 1 else 0
  }

  /** One turn of the loop: fetch a page, check it, absorb it. */
  method Turn(
    source: Source, ghost start: seq<Exchange>, input: Input, pages: seq<Found>, found: Found, seen: set<Bytes>,
    cursor: Bytes)
      returns (result: Option<Result<Found, Error>>, pages': seq<Found>, found': Found, seen': set<Bytes>,
        cursor': Bytes)
    requires input.query.limit > PAGE && |pages| < MAX_PAGES && After(input, pages).More?
    requires Holding(input, pages, found, seen, cursor) && source.log == start + Exchanges(input, pages)
    modifies source
    ensures match result
      case Some(r) =>
        && Explained(input, pages', r) && source.log == start + Calls(input, pages', r)
        && r != Err(Cancelled) && CallCount(pages', r) == |pages| + 1
      case None =>
        && |pages'| == |pages| + 1 && After(input, pages').More?
        && Holding(input, pages', found', seen', cursor') && source.log == start + Exchanges(input, pages')
  {
    pages', found', seen', cursor' := pages, found, seen, cursor;
    var reply := Fetch(source, input, pages, found, seen, cursor);
    if reply.Failed? {
      return Some(Err(SourceFailed)), pages', found', seen', cursor';
    }
    var page := reply.page;
    var progress, merged := TakePage(input, pages, |pages|, found, seen, page);
    PageTaken(input, pages, page);
    pages' := pages + [page];
    if progress.Stopped? {
      return Some(Err(progress.error)), pages', found', seen', cursor';
    }
    if progress.Done? {
      return Some(Ok(progress.found)), pages', found', seen', cursor';
    }
    found', cursor', seen' := merged, page.next, seen + {page.next};
    result := None;
  }

  /** What a search that stops between two calls leaves. */
  lemma {:induction false} StopsBetween(input: Input, pages: seq<Found>, error: Error)
    requires input.query.limit > PAGE && After(input, pages).More? && |pages| <= MAX_PAGES
    requires error == if |pages| < MAX_PAGES then Cancelled else PageBound
    ensures Explained(input, pages, Err(error)) && Calls(input, pages, Err(error)) == Exchanges(input, pages)
    ensures CallCount(pages, Err(error)) == |pages|
  {
  }

  lemma HeededMore(ended: nat -> bool, n: nat)
    requires Heeded(ended, n, false)
    ensures ended(n) ==> Heeded(ended, n, true)
    ensures !ended(n) ==> Heeded(ended, n + 1, false)
  {
  }

  /** The paged search. The pages received are returned as well; they account for
      every call and for the result. */
  method SearchMany(source: Source, input: Input) returns (result: Result<Found, Error>, pages: seq<Found>)
    requires input.query.limit > PAGE
    modifies source
    ensures Explained(input, pages, result)
    ensures source.log == old(source.log) + Calls(input, pages, result)
    ensures Heeded(source.ended, CallCount(pages, result), result == Err(Cancelled))
  {
    ghost var start := source.log;
    var found, seen, cursor := NOTHING, {[]}, input.cursor;
    pages := [];
    while |pages| < MAX_PAGES
      invariant |pages| <= MAX_PAGES && Heeded(source.ended, |pages|, false)
      invariant After(input, pages).More? && Holding(input, pages, found, seen, cursor)
      invariant source.log == start + Exchanges(input, pages)
    {
      HeededMore(source.ended, |pages|);
      if source.ended(|pages|) {
        StopsBetween(input, pages, Cancelled);
        return Err(Cancelled), pages;
      }
      var turned: Option<Result<Found, Error>>;
      turned, pages, found, seen, cursor := Turn(source, start, input, pages, found, seen, cursor);
      if turned.Some? {
        return turned.value, pages;
      }
    }
    StopsBetween(input, pages, PageBound);
    return Err(PageBound), pages;
  }

  lemma ArriveErrors(input: Input, pages: seq<Found>, page: Found)
    requires input.query.limit > PAGE
    ensures Arrive(input, pages, page).Stopped? ==> Arrive(input, pages, page).error in {PageTooLarge, BadContinuation}
  {
  }

  // ----- What a paged search finds -----

  function Concat(pages: seq<Found>): seq<Item> {
    if pages == [] then [] else Concat(pages[..|pages| - 1]) + pages[|pages| - 1].items
  }

  function Warnings(pages: seq<Found>): seq<Warning> {
    if pages == [] then [] else Warnings(pages[..|pages| - 1]) + pages[|pages| - 1].warnings
  }

  lemma {:induction false} MergedWarnings(pages: seq<Found>, limit: int)
    ensures Merged(pages, limit).warnings == Warnings(pages)
    ensures pages != [] ==> Merged(pages, limit).total == pages[|pages| - 1].total
    decreases |pages|
  {
    if pages != [] {
      MergedWarnings(pages[..|pages| - 1], limit);
    }
  }

  lemma {:induction false} MergedItems(pages: seq<Found>, limit: int)
    ensures Merged(pages, limit).items == Concat(pages) && Merged(pages, limit).next == []
    ensures Merged(pages, limit).unresolved <==> exists page <- pages :: Unresolved(page)
    ensures pages != [] ==> var last := pages[|pages| - 1];
      Merged(pages, limit).more
      <==> (|Concat(pages)| > limit || last.more || last.next != [] || exists page <- pages :: Unresolved(page))
    decreases |pages|
  {
    if pages != [] {
      var init, last := pages[..|pages| - 1], pages[|pages| - 1];
      MergedItems(init, limit);
      assert pages == init + [last];
    }
  }

  /** The items are the first ones of the whole chain, as many as were asked for, and the answer
      says there is no more only if they are the whole chain and every page said so. */
  lemma DoneItems(input: Input, pages: seq<Found>)
    requires input.query.limit > PAGE && After(input, pages).Done?
    ensures var found, all := After(input, pages).found, Concat(pages);
      && pages != []
      && found.items == all[..Min(input.query.limit, |all|)]
      && found.next == []
      && (!found.more <==>
        var last := pages[|pages| - 1];
        |all| <= input.query.limit && last.next == [] && !last.more && forall page <- pages :: !Unresolved(page))
  {
    assert pages == pages[..|pages| - 1] + [pages[|pages| - 1]];
    MergedItems(pages, input.query.limit);
  }

  /** Every call asks for at least one item and at most a page. */
  lemma BudgetPositive(input: Input, pages: seq<Found>)
    requires input.query.limit > PAGE && After(input, pages).More?
    ensures 1 <= RequestAfter(input, pages).budget <= PAGE
  {
    if pages != [] {
      assert pages == pages[..|pages| - 1] + [pages[|pages| - 1]];
    }
  }

  /** A page of this generation, stale or not. */
  predicate OfGeneration(page: Found, generation: Generation) {
    page.generation.Some? && SameGeneration(generation, page.generation.value)
  }

  ghost predicate SharedGeneration(pages: seq<Found>) {
    && pages != [] && pages[0].generation.Some?
    && forall i | 0 <= i < |pages| :: OfGeneration(pages[i], pages[0].generation.value)
  }

  predicate StalePage(page: Found) {
    page.generation.Some? && page.generation.value.stale
  }

  ghost predicate AnyStale(pages: seq<Found>) {
    exists i :: 0 <= i < |pages| && StalePage(pages[i])
  }

  lemma SharedMore(init: seq<Found>, last: Found)
    requires init != []
    ensures SharedGeneration(init + [last])
      <==> (SharedGeneration(init) && OfGeneration(last, init[0].generation.value))
    ensures AnyStale(init + [last]) <==> (AnyStale(init) || StalePage(last))
  {
    var pages := init + [last];
    assert pages[|init|] == last && forall i | 0 <= i < |init| :: pages[i] == init[i];
    if AnyStale(init) {
      var i :| 0 <= i < |init| && StalePage(init[i]);
      assert StalePage(pages[i]);
    }
  }

  lemma MergedGeneration(pages: seq<Found>, limit: int)
    requires pages != []
    ensures Merged(pages, limit).generation ==
      if |pages| == 1 then pages[0].generation
      else MergeGeneration(Merged(pages[..|pages| - 1], limit).generation, pages[|pages| - 1].generation)
  {
  }

  /** A generation is reported exactly when every page shares it, and it is stale exactly when some page is. */
  lemma {:induction false} GenerationShared(pages: seq<Found>, limit: int)
    requires pages != []
    ensures Merged(pages, limit).generation ==
      if SharedGeneration(pages) then Some(pages[0].generation.value.(stale := AnyStale(pages))) else None
    decreases |pages|
  {
    var n := |pages| - 1;
    MergedGeneration(pages, limit);
    if n > 0 {
      GenerationShared(pages[..n], limit);
      SharedMore(pages[..n], pages[n]);
      assert pages == pages[..n] + [pages[n]] && pages[..n][0] == pages[0];
    }
  }

  /** No page names another source than the first one does. */
  ghost predicate OneSource(pages: seq<Found>, first: SourceName) {
    forall i | 0 <= i < |pages| :: pages[i].source == Unnamed || pages[i].source == first
  }

  /** The source is the first page's, unless a later page names another. */
  lemma {:induction false} SourceNamed(pages: seq<Found>, limit: int)
    requires pages != []
    ensures var first := pages[0].source;
      Merged(pages, limit).source == if first == Unnamed || OneSource(pages, first) then first else Mixed
    decreases |pages|
  {
    var n := |pages| - 1;
    var init, last, first := pages[..n], pages[n], pages[0].source;
    if n > 0 {
      SourceNamed(init, limit);
      assert init[0] == pages[0];
      assert OneSource(pages, first)
        <==> (OneSource(init, first) && (last.source == Unnamed || last.source == first)) by {
        assert forall i | 0 <= i < n :: pages[i] == init[i];
      }
      MergedSource(pages, limit);
    }
  }

  lemma MergedSource(pages: seq<Found>, limit: int)
    requires |pages| > 1
    ensures Merged(pages, limit).source ==
      MergeSource(Merged(pages[..|pages| - 1], limit).source, pages[|pages| - 1].source)
  {
  }

  lemma DoneProvenance(input: Input, pages: seq<Found>)
    requires input.query.limit > PAGE && After(input, pages).Done?
    ensures After(input, pages).found.generation == Merged(pages, input.query.limit).generation
    ensures After(input, pages).found.source == Merged(pages, input.query.limit).source
  {
    assert pages == pages[..|pages| - 1] + [pages[|pages| - 1]];
  }

  /** A continuation that is blank or was handed out before. */
  ghost predicate BadNext(before: seq<Found>, next: Bytes) {
    next != [] && (TrimSpace(next) == [] || exists i :: 0 <= i < |before| && before[i].next == next)
  }

  /** A page that is small enough, with a new continuation. */
  ghost predicate Continues(pages: seq<Found>, k: nat)
    requires k < |pages|
  {
    |pages[k].items| <= PAGE && pages[k].next != [] && !BadNext(pages[..k], pages[k].next)
  }

  /** The pages leave items to be asked for. */
  ghost predicate Underway(pages: seq<Found>, limit: int) {
    |Concat(pages)| < limit && forall k: nat | k < |pages| :: Continues(pages, k)
  }

  /** The last page ended the search: all items that were asked for are there, or the source has no more. */
  ghost predicate Complete(pages: seq<Found>, limit: int) {
    pages != [] &&
    var init, last := pages[..|pages| - 1], pages[|pages| - 1];
    && Underway(init, limit)
    && |last.items| <= PAGE && !BadNext(init, last.next)
    && (|Concat(pages)| >= limit || last.next == [])
  }

  lemma UnderwayMore(init: seq<Found>, last: Found, limit: int)
    ensures Underway(init + [last], limit) <==> (
      && |Concat(init)| < limit && Underway(init, limit)
      && |last.items| <= PAGE && last.next != [] && !BadNext(init, last.next) && |Concat(init + [last])| < limit)
  {
    var pages := init + [last];
    assert pages[..|init|] == init;
    forall k: nat | k < |init|
      ensures Continues(pages, k) <==> Continues(init, k)
    {
      assert pages[..k] == init[..k];
    }
    assert Continues(pages, |init|)
      <==> |last.items| <= PAGE && last.next != [] && !BadNext(init, last.next);
  }

  /** How far a search is, by its pages alone. */
  lemma {:induction false} AfterMeans(input: Input, pages: seq<Found>)
    requires input.query.limit > PAGE
    ensures After(input, pages).More? <==> Underway(pages, input.query.limit)
    ensures After(input, pages).Done? <==> Complete(pages, input.query.limit)
    ensures After(input, pages) == Stopped(PageTooLarge) <==> (
      pages != [] && Underway(pages[..|pages| - 1], input.query.limit) && |pages[|pages| - 1].items| > PAGE)
    ensures After(input, pages) == Stopped(BadContinuation) <==> (
      && pages != [] && Underway(pages[..|pages| - 1], input.query.limit) && |pages[|pages| - 1].items| <= PAGE
      && BadNext(pages[..|pages| - 1], pages[|pages| - 1].next))
    decreases |pages|
  {
    if pages != [] {
      var init, last := pages[..|pages| - 1], pages[|pages| - 1];
      assert pages == init + [last];
      AfterMeans(input, init);
      UnderwayMore(init, last, input.query.limit);
      ArriveMeans(input, init, last);
    }
  }

  lemma ArriveMeans(input: Input, init: seq<Found>, last: Found)
    requires input.query.limit > PAGE
    ensures var progress, all := Arrive(input, init, last), Concat(init + [last]);
      var bad, enough := BadNext(init, last.next), |all| >= input.query.limit;
      && (progress == Stopped(PageTooLarge) <==> |last.items| > PAGE)
      && (progress == Stopped(BadContinuation) <==> |last.items| <= PAGE && bad)
      && (progress.Done? <==> |last.items| <= PAGE && !bad && (enough || last.next == []))
      && (progress.More? <==> |last.items| <= PAGE && !bad && !enough && last.next != [])
  {
    CursorsHold(init, last.next);
    MergedItems(init + [last], input.query.limit);
  }

  lemma CursorsHold(pages: seq<Found>, next: Bytes)
    ensures next in Cursors(pages) <==> exists i :: 0 <= i < |pages| && pages[i].next == next
  {
  }

  // ----- Cursors of a paged search -----

  /** A page that keeps a search going brings a new continuation. */
  lemma {:induction false} NextFresh(input: Input, init: seq<Found>, last: Found)
    requires input.query.limit > PAGE && After(input, init + [last]).More?
    ensures After(input, init).More? && !Blank(last.next)
    ensures forall i | 0 <= i < |init| :: init[i].next != last.next
  {
    assert (init + [last])[..|init|] == init;
    assert forall i | 0 <= i < |init| :: init[i].next in Cursors(init);
  }

  /** No continuation is blank, and none repeats. */
  ghost predicate FreshNexts(pages: seq<Found>) {
    && (forall i | 0 <= i < |pages| :: !Blank(pages[i].next))
    && forall i, j | 0 <= i < j < |pages| :: pages[i].next != pages[j].next
  }

  lemma FreshMore(init: seq<Found>, last: Found)
    requires FreshNexts(init) && !Blank(last.next) && forall i | 0 <= i < |init| :: init[i].next != last.next
    ensures FreshNexts(init + [last])
  {
    var pages := init + [last];
    assert pages[|init|] == last && forall i | 0 <= i < |init| :: pages[i] == init[i];
  }

  /** No continuation of a running search is blank, and none repeats. */
  lemma {:induction false} NextsDistinct(input: Input, pages: seq<Found>)
    requires input.query.limit > PAGE && After(input, pages).More?
    ensures FreshNexts(pages)
    decreases |pages|
  {
    if pages != [] {
      var init, last := SplitLast(pages);
      NextFresh(input, init, last);
      NextsDistinct(input, init);
      FreshMore(init, last);
    }
  }

  lemma SplitLast(pages: seq<Found>) returns (init: seq<Found>, last: Found)
    requires pages != []
    ensures pages == init + [last] && |init| == |pages| - 1 && pages[|init|] == last
  {
    init, last := pages[..|pages| - 1], pages[|pages| - 1];
  }

  ghost predicate CallsDistinct(input: Input, pages: seq<Found>) {
    forall i: nat, j: nat | i < j <= |pages| :: CursorAt(input, pages, i) != CursorAt(input, pages, j)
  }

  /** The calls of a running search carry distinct cursors, except that the caller's own cursor may come back. */
  lemma {:induction false} CallsDistinctUnlessReturned(input: Input, pages: seq<Found>)
    requires input.query.limit > PAGE && After(input, pages).More?
    ensures CallsDistinct(input, pages) <==> input.cursor !in Cursors(pages)
    ensures Blank(input.cursor) ==> CallsDistinct(input, pages)
  {
    NextsDistinct(input, pages);
    forall i: nat, j: nat | i < j <= |pages| && input.cursor !in Cursors(pages)
      ensures CursorAt(input, pages, i) != CursorAt(input, pages, j)
    {
      assert pages[j - 1].next in Cursors(pages);
    }
    if input.cursor in Cursors(pages) {
      var k :| 0 <= k < |pages| && pages[k].next == input.cursor;
      assert CursorAt(input, pages, 0) == CursorAt(input, pages, k + 1);
    }
  }

  const OTHER: Bytes := [0x41]
  const ANOTHER: Bytes := [0x42]

  function Pointing(next: Bytes): Found {
    NOTHING.(next := next)
  }

  /** A page without items but with a new continuation keeps a search going. */
  lemma PointingMore(input: Input, before: seq<Found>, next: Bytes) returns (pages: seq<Found>)
    requires input.query.limit > PAGE && After(input, before).More? && Concat(before) == []
    requires !Blank(next) && next !in Cursors(before)
    ensures After(input, pages).More? && Concat(pages) == [] && Cursors(pages) == Cursors(before) + {next}
  {
    pages := before + [Pointing(next)];
    AfterMore(input, before, Pointing(next));
    CursorsMore(before, Pointing(next));
    assert pages[..|pages| - 1] == before;
    MergedItems(pages, input.query.limit);
  }

  lemma LettersNotBlank()
    ensures !Blank(OTHER) && !Blank(ANOTHER)
  {
    assert LeadingSpace(OTHER) == 0 && TrailingSpace(OTHER) == 0;
    assert LeadingSpace(ANOTHER) == 0 && TrailingSpace(ANOTHER) == 0;
  }

  /** The pages of a source that hands the caller's cursor back. */
  lemma ReturningPages(input: Input, between: Bytes) returns (pages: seq<Found>)
    requires input.query.limit > PAGE && !Blank(input.cursor) && !Blank(between) && between != input.cursor
    ensures After(input, pages).More? && input.cursor in Cursors(pages)
  {
    var first := PointingMore(input, [], between);
    pages := PointingMore(input, first, input.cursor);
  }

  /** The loop alone does not rule out that a source hands a non-blank starting cursor back. */
  lemma CursorReturned(input: Input)
    requires input.query.limit > PAGE && !Blank(input.cursor)
    ensures exists pages :: After(input, pages).More? && !CallsDistinct(input, pages)
  {
    LettersNotBlank();
    var pages := ReturningPages(input, if input.cursor == OTHER then ANOTHER else OTHER);
    CallsDistinctUnlessReturned(input, pages);
  }

  /** Of the loop alone: its cursors are distinct for every source exactly when it starts without one,
      which the check of the arguments sees to (LargeSearchStarts). */
  lemma CallsDistinctIff(input: Input)
    requires input.query.limit > PAGE
    ensures (forall pages | After(input, pages).More? :: CallsDistinct(input, pages)) <==> Blank(input.cursor)
  {
    if Blank(input.cursor) {
      forall pages | After(input, pages).More?
        ensures CallsDistinct(input, pages)
      {
        CallsDistinctUnlessReturned(input, pages);
      }
    } else {
      CursorReturned(input);
    }
  }

  /** No two of these calls ask for the same continuation. */
  ghost predicate AskedOnce(calls: seq<Exchange>) {
    forall i, j | 0 <= i < j < |calls| :: calls[i].request.cursor != calls[j].request.cursor
  }

  lemma {:induction false} ExchangeCursors(input: Input, pages: seq<Found>)
    ensures |Exchanges(input, pages)| == |pages|
    ensures forall k: nat | k < |pages| :: Exchanges(input, pages)[k].request.cursor == CursorAt(input, pages, k)
    decreases |pages|
  {
    if pages != [] {
      var init := pages[..|pages| - 1];
      ExchangeCursors(input, init);
      assert forall k: nat | k < |pages| :: CursorAt(input, init, k) == CursorAt(input, pages, k);
    }
  }

  /** The first n calls of a search carry distinct cursors. */
  ghost predicate FirstDistinct(input: Input, pages: seq<Found>, n: nat)
    requires n <= |pages| + 1
  {
    forall i: nat, j: nat | i < j < n :: CursorAt(input, pages, i) != CursorAt(input, pages, j)
  }

  lemma ExchangesAskedOnce(input: Input, pages: seq<Found>)
    requires FirstDistinct(input, pages, |pages|)
    ensures AskedOnce(Exchanges(input, pages))
  {
    ExchangeCursors(input, pages);
  }

  lemma {:induction false} OneMoreAsked(input: Input, pages: seq<Found>, reply: Reply)
    requires FirstDistinct(input, pages, |pages| + 1)
    ensures AskedOnce(Exchanges(input, pages) + [Exchange(RequestAfter(input, pages), reply)])
  {
    ExchangesAskedOnce(input, pages);
    ExchangeCursors(input, pages);
    var calls, last := Exchanges(input, pages), Exchange(RequestAfter(input, pages), reply);
    assert last.request.cursor == CursorAt(input, pages, |pages|);
    assert forall i | 0 <= i < |calls| :: (calls + [last])[i] == calls[i];
  }

  lemma InitDistinct(input: Input, init: seq<Found>, last: Found)
    requires CallsDistinct(input, init)
    ensures FirstDistinct(input, init + [last], |init| + 1)
  {
    assert forall k: nat | k <= |init| :: CursorAt(input, init, k) == CursorAt(input, init + [last], k);
  }

  lemma {:induction false} EndedAskedOnce(input: Input, init: seq<Found>, last: Found)
    requires input.query.limit > PAGE && Blank(input.cursor) && After(input, init).More?
    ensures AskedOnce(Exchanges(input, init + [last]))
  {
    CallsDistinctUnlessReturned(input, init);
    InitDistinct(input, init, last);
    ExchangesAskedOnce(input, init + [last]);
  }

  /** A search that ended did so with its last page. */
  lemma EndsWithLast(input: Input, pages: seq<Found>, result: Result<Found, Error>)
      returns (init: seq<Found>, last: Found)
    requires input.query.limit > PAGE && Explained(input, pages, result) && !After(input, pages).More?
    ensures pages == init + [last] && After(input, init).More?
    ensures Calls(input, pages, result) == Exchanges(input, pages)
  {
    init, last := pages[..|pages| - 1], pages[|pages| - 1];
  }

  /** A paged search that starts without a cursor never asks for the same continuation twice, however it ends. */
  lemma {:induction false} CallsAskedOnce(input: Input, pages: seq<Found>, result: Result<Found, Error>)
    requires input.query.limit > PAGE && Blank(input.cursor) && Explained(input, pages, result)
    ensures AskedOnce(Calls(input, pages, result)) && |Calls(input, pages, result)| <= MAX_PAGES
  {
    ExchangeCursors(input, pages);
    if After(input, pages).More? {
      CallsDistinctUnlessReturned(input, pages);
      ExchangesAskedOnce(input, pages);
      OneMoreAsked(input, pages, Failed);
    } else {
      var init, last := EndsWithLast(input, pages, result);
      EndedAskedOnce(input, init, last);
    }
  }

  // ----- The caller's cursor -----

  /** A cursor as it is handed out: tied to the query, with a checksum over everything in it. */
  datatype Envelope = Envelope(version: int, fingerprint: Query, cursor: Bytes, checksum: (int, Query, Bytes))

  datatype Token = NoToken | Garbled | Token(envelope: Envelope)

  function Encode(cursor: Bytes, query: Query): Token {
    Token(Envelope(1, query, cursor, (1, query, cursor)))
  }

  /** `size` is the length of the encoded envelope. */
  function Decode(token: Token, query: Query, size: Envelope -> nat): Result<Bytes, Error> {
    match token
    case NoToken => Ok([])
    case Garbled => Err(BadCursor)
    case Token(e) =>
      if size(e) > MAX_TOKEN then Err(BadCursor)
      else if e.version != 1 || e.cursor == [] || e.fingerprint != query
        || e.checksum != (e.version, e.fingerprint, e.cursor) then Err(BadCursor)
      else Ok(e.cursor)
  }

  /** A cursor handed out is read back exactly when the query is the same, the source's cursor is not
      empty and the encoding is not oversized; and nothing else is ever read. */
  lemma CursorRoundTrip(cursor: Bytes, query: Query, asked: Query, token: Token, size: Envelope -> nat)
    ensures Decode(Encode(cursor, query), asked, size) == Ok(cursor)
      <==> cursor != [] && asked == query && size(Encode(cursor, query).envelope) <= MAX_TOKEN
    ensures Decode(token, asked, size).Ok? && token != NoToken ==>
      token == Encode(Decode(token, asked, size).value, asked)
  {
  }

  // ----- The whole search -----

  datatype Output = Output(
    items: seq<Item>, returned: nat, limit: int, more: bool, unresolved: bool, total: int, next: Token,
    source: SourceName, generation: Option<Generation>, warnings: seq<Warning>)

  predicate AcceptableItem(item: Item, allowed: set<Kind>) {
    !Blank(item.luid) && (!Blank(item.name) || item.kind == Metric) && item.kind in allowed
  }

  predicate Acceptable(items: seq<Item>, allowed: set<Kind>) {
    && (forall i | 0 <= i < |items| :: AcceptableItem(items[i], allowed))
    && forall i, j | 0 <= i < j < |items| :: KeyOf(items[i]) != KeyOf(items[j])
  }

  function KeyOf(item: Item): (Kind, Bytes) {
    (item.kind, item.luid)
  }

  function Keys(items: seq<Item>): set<(Kind, Bytes)> {
    set i | 0 <= i < |items| :: KeyOf(items[i])
  }

  lemma OneItemMore(items: seq<Item>, item: Item, allowed: set<Kind>)
    ensures Keys(items + [item]) == Keys(items) + {KeyOf(item)}
    ensures Acceptable(items + [item], allowed)
      <==> (Acceptable(items, allowed) && AcceptableItem(item, allowed) && KeyOf(item) !in Keys(items))
  {
    var more := items + [item];
    assert more[|items|] == item && forall i | 0 <= i < |items| :: more[i] == items[i];
    forall key <- Keys(items) + {KeyOf(item)}
      ensures key in Keys(more)
    {
      if key in Keys(items) {
        var i :| 0 <= i < |items| && KeyOf(items[i]) == key;
        assert KeyOf(more[i]) == key;
      } else {
        assert KeyOf(more[|items|]) == key;
      }
    }
    if KeyOf(item) in Keys(items) {
      var i :| 0 <= i < |items| && KeyOf(items[i]) == KeyOf(item);
      assert KeyOf(more[i]) == KeyOf(more[|items|]);
    }
    if Acceptable(more, allowed) {
      assert AcceptableItem(more[|items|], allowed);
    }
  }

  lemma AcceptablePrefix(items: seq<Item>, n: nat, allowed: set<Kind>)
    requires n <= |items|
    ensures Acceptable(items, allowed) ==> Acceptable(items[..n], allowed)
  {
  }

  lemma CheckStep(items: seq<Item>, i: nat, allowed: set<Kind>)
    requires i < |items| && Acceptable(items[..i], allowed)
    ensures Keys(items[..i + 1]) == Keys(items[..i]) + {KeyOf(items[i])}
    ensures if AcceptableItem(items[i], allowed) && KeyOf(items[i]) !in Keys(items[..i]) then
      Acceptable(items[..i + 1], allowed)
      else !Acceptable(items, allowed)
  {
    OneItemMore(items[..i], items[i], allowed);
    assert items[..i] + [items[i]] == items[..i + 1];
    AcceptablePrefix(items, i + 1, allowed);
  }

  method CheckItems(items: seq<Item>, allowed: set<Kind>) returns (ok: bool)
    ensures ok <==> Acceptable(items, allowed)
  {
    var seen: set<(Kind, Bytes)> := {};
    for i := 0 to |items|
      invariant Acceptable(items[..i], allowed)
      invariant seen == Keys(items[..i])
    {
      var item := items[i];
      CheckStep(items, i, allowed);
      if !AcceptableItem(item, allowed) || KeyOf(item) in seen {
        return false;
      }
      seen := seen + {KeyOf(item)};
    }
    assert items[..|items|] == items;
    return true;
  }

  function Normal(query: Query): Query {
    query.(terms := TrimSpace(query.terms), limit := if query.limit == 0 then DEFAULT_LIMIT else query.limit)
  }

  /** What the caller is shown of a search's result. */
  function Presented(query: Query, found: Found): Output {
    Output(
      found.items, |found.items|, query.limit, found.more || found.next != [], found.unresolved, found.total,
      if found.next == [] then NoToken else Encode(found.next, query),
      if query.cache then Cache else if found.source == Unnamed then Live else found.source,
      found.generation,
      (if query.cache then [CacheAbsence] else []) + found.warnings)
  }

  /** The cursor shown with a page leads the same query to the source's continuation, and a page that
      shows one says that there is more. */
  lemma PresentedContinues(query: Query, found: Found, size: Envelope -> nat)
    requires size(Encode(found.next, query).envelope) <= MAX_TOKEN
    ensures Decode(Presented(query, found).next, query, size) == Ok(found.next)
    ensures Presented(query, found).next != NoToken ==> Presented(query, found).more
    ensures !Presented(query, found).more ==> found.next == [] && !found.more
  {
  }

  /** What a selector stands for. */
  function Kinds(selector: Selector): Option<set<Kind>> {
    match selector
    case Every => Some({Datasource, Definition, Flow, Group, Metric, Project, User, Workbook})
    case Content => Some({Datasource, Flow, Project, Workbook})
    case Admin => Some({Group, User})
    case Pulse => Some({Definition, Metric})
    case Only(kind) => if kind.OtherKind? then None else Some({kind})
  }

  const PULSE: set<Kind> := {Definition, Metric}

  /** The kinds that a selector gets where Pulse may be missing. */
  function Searched(selector: Selector, pulse: bool): set<Kind>
    requires Kinds(selector).Some?
  {
    if pulse then Kinds(selector).value else Kinds(selector).value - PULSE
  }

  /** The arguments a search accepts. */
  predicate ValidInput(given: Query, token: Token) {
    && Kinds(given.selector).Some?
    && (TrimSpace(given.terms) != [] || given.selector != Every)
    && 0 <= given.limit <= MAX_LIMIT
    && (given.limit > PAGE ==> token == NoToken)
  }

  /** A search above a hundred items starts without a cursor, so it never repeats a call. */
  lemma LargeSearchStarts(given: Query, token: Token, size: Envelope -> nat)
    requires ValidInput(given, token) && Normal(given).limit > PAGE
    ensures Decode(token, Normal(given), size) == Ok([]) && Blank([])
    ensures forall pages | After(Input(Normal(given), []), pages).More? ::
      CallsDistinct(Input(Normal(given), []), pages)
  {
    CallsDistinctIff(Input(Normal(given), []));
  }

  /** And it never hands a cursor out, so none that is handed out is refused for its limit. */
  lemma LargeSearchEnds(input: Input, pages: seq<Found>)
    requires input.query.limit > PAGE && After(input, pages).Done?
    ensures Presented(input.query, After(input, pages).found).next == NoToken
  {
    DoneItems(input, pages);
  }

  /** The query a cursor is checked against before the search; its terms are still as they were typed. */
  function Typed(given: Query): Query {
    given.(limit := if given.limit == 0 then DEFAULT_LIMIT else given.limit)
  }

  predicate OwnCursor(given: Query, token: Token, size: Envelope -> nat) {
    token == NoToken || Decode(token, Typed(given), size).Ok?
  }

  /** Text without white space at either end. */
  predicate Trimmed(text: Bytes) {
    TrimSpace(text) == text
  }

  /** A cursor gets through both checks exactly if it was handed out for these very arguments, is not
      oversized, and the terms were typed without white space around them. */
  lemma CursorAcceptedIff(given: Query, token: Token, size: Envelope -> nat)
    requires token != NoToken
    ensures OwnCursor(given, token, size) && Decode(token, Normal(given), size).Ok?
      <==> (
        && token.Token? && token.envelope.cursor != []
        && token == Encode(token.envelope.cursor, Normal(given))
        && size(token.envelope) <= MAX_TOKEN && Trimmed(given.terms))
  {
    assert Trimmed(given.terms) <==> Typed(given) == Normal(given);
  }

  // ----- What calls account for -----

  /** The pages that calls brought, in order. */
  ghost function Brought(calls: seq<Exchange>): (pages: seq<Found>)
    ensures |pages| <= |calls|
  {
    if calls == [] then []
    else
      var last := calls[|calls| - 1].reply;
      Brought(calls[..|calls| - 1]) + if last.Answered? then [last.page] else []
  }

  /** Call number k asks for what follows the pages before it: as the caller asked if at most a hundred items are
      wanted, and otherwise for at most a hundred of those still missing, from where the last page ended. */
  ghost predicate AskedNext(input: Input, calls: seq<Exchange>, k: nat)
    requires k < |calls|
  {
    var before := Brought(calls[..k]);
    && |before| == k
    && calls[k].request ==
      if input.query.limit <= PAGE then Request(input.query, input.cursor, input.query.limit, 0)
      else Request(input.query, if k == 0 then input.cursor else before[k - 1].next, PAGE,
        Min(PAGE, input.query.limit - |Concat(before)|))
  }

  ghost predicate AskedInOrder(input: Input, calls: seq<Exchange>) {
    forall k: nat | k < |calls| :: AskedNext(input, calls, k)
  }

  /** The source that the answer names. */
  ghost predicate NamesSource(query: Query, pages: seq<Found>, source: SourceName)
    requires pages != []
  {
    var first := pages[0].source;
    if query.cache then source == Cache
    else if first == Unnamed then source == Live
    else source == if OneSource(pages, first) then first else Mixed
  }

  /** The warnings of the answer: those of the pages, and that the pages of a cache share no generation. */
  ghost predicate Warns(query: Query, pages: seq<Found>, warnings: seq<Warning>) {
    var all := Warnings(pages);
    warnings == (if query.cache then [CacheAbsence] else [])
      + (if query.cache && |pages| > 1 && !SharedGeneration(pages) then [Unshared] + Without(all, Unshared) else all)
  }

  /** Whether something is missing from the answer, and whether the source cannot even continue. */
  ghost predicate TellsRest(query: Query, pages: seq<Found>, out: Output)
    requires pages != []
  {
    var last := pages[|pages| - 1];
    if query.limit <= PAGE then
      && (out.more <==> last.more || last.next != [])
      && (out.unresolved <==> last.unresolved)
      && out.next == if last.next == [] then NoToken else Encode(last.next, query)
    else
      && (out.unresolved <==> exists page <- pages :: page.unresolved || (page.more && page.next == []))
      && (out.more <==> out.unresolved || last.more || last.next != [] || |Concat(pages)| > query.limit)
      && out.next == NoToken
  }

  /** What an answer shows of the pages: their first items, as many as were asked for, and what they say. */
  ghost predicate Shows(query: Query, pages: seq<Found>, out: Output)
    requires pages != []
  {
    && query.limit >= 0 && out.items == Concat(pages)[..Min(query.limit, |Concat(pages)|)]
    && out.returned == |out.items| && out.limit == query.limit && out.total == pages[|pages| - 1].total
    && out.generation == (
      if SharedGeneration(pages) then Some(pages[0].generation.value.(stale := AnyStale(pages))) else None)
    && NamesSource(query, pages, out.source)
    && Warns(query, pages, out.warnings)
    && TellsRest(query, pages, out)
  }

  /** The pages are all that the caller gets to see. */
  ghost predicate Ended(input: Input, pages: seq<Found>) {
    if input.query.limit > PAGE then Complete(pages, input.query.limit)
    else
      |pages| == 1 &&
      var next := pages[0].next;
      next == [] || (TrimSpace(next) != [] && next != input.cursor)
  }

  /** Nothing stopped the search so far. */
  ghost predicate Going(input: Input, pages: seq<Found>) {
    if input.query.limit > PAGE then |pages| < MAX_PAGES && Underway(pages, input.query.limit) else pages == []
  }

  /** The last page's continuation cannot be followed. */
  ghost predicate Misled(input: Input, pages: seq<Found>) {
    pages != [] &&
    var init, last := pages[..|pages| - 1], pages[|pages| - 1];
    if input.query.limit > PAGE then
      Underway(init, input.query.limit) && |last.items| <= PAGE && BadNext(init, last.next)
    else
      |pages| == 1 && last.next != [] && (TrimSpace(last.next) == [] || last.next == input.cursor)
  }

  /** What a search answers, by the calls it made. */
  ghost predicate Answers(input: Input, calls: seq<Exchange>, allowed: set<Kind>, result: Result<Output, Error>) {
    var pages, limit := Brought(calls), input.query.limit;
    var failed := calls != [] && calls[|calls| - 1].reply.Failed?;
    && (failed <==> result == Err(SourceFailed))
    && match result
      case Ok(out) =>
        && Ended(input, pages) && Shows(input.query, pages, out) && Acceptable(out.items, allowed)
        && (limit <= PAGE ==> out.items == pages[0].items)
      case Err(SourceFailed) => Going(input, pages)
      case Err(Cancelled) => limit > PAGE && Going(input, pages)
      case Err(PageBound) => limit > PAGE && |pages| == MAX_PAGES && Underway(pages, limit)
      case Err(PageTooLarge) =>
        && limit > PAGE && pages != []
        && Underway(pages[..|pages| - 1], limit) && |pages[|pages| - 1].items| > PAGE
      case Err(BadContinuation) => Misled(input, pages)
      case Err(TooManyItems) => limit <= PAGE && Ended(input, pages) && |Concat(pages)| > limit
      case Err(BadIdentity) =>
        && Ended(input, pages) && limit >= 0 && (limit <= PAGE ==> |Concat(pages)| <= limit)
        && !Acceptable(Concat(pages)[..Min(limit, |Concat(pages)|)], allowed)
      case Err(_) => false
  }

  lemma {:induction false} ExchangesBring(input: Input, pages: seq<Found>)
    requires input.query.limit > PAGE
    ensures Brought(Exchanges(input, pages)) == pages && AskedInOrder(input, Exchanges(input, pages))
    decreases |pages|
  {
    if pages != [] {
      var init, last := pages[..|pages| - 1], pages[|pages| - 1];
      var before := Exchanges(input, init);
      ExchangesBring(input, init);
      ExchangeCursors(input, init);
      assert pages == init + [last];
      OneMoreCall(input, before, init, Answered(last));
    }
  }

  lemma {:induction false} OneMoreCall(input: Input, before: seq<Exchange>, pages: seq<Found>, reply: Reply)
    requires input.query.limit > PAGE && Brought(before) == pages && AskedInOrder(input, before)
    requires |before| == |pages|
    ensures var calls := before + [Exchange(RequestAfter(input, pages), reply)];
      && AskedInOrder(input, calls)
      && Brought(calls) == pages + if reply.Answered? then [reply.page] else []
  {
    var calls := before + [Exchange(RequestAfter(input, pages), reply)];
    assert calls[..|before|] == before;
    MergedItems(pages, input.query.limit);
    forall k: nat | k < |calls|
      ensures AskedNext(input, calls, k)
    {
      if k < |before| {
        assert AskedNext(input, before, k);
        assert calls[..k] == before[..k];
      }
    }
  }

  /** The calls of a large search are asked in order, and bring its pages. */
  lemma CallsInOrder(input: Input, pages: seq<Found>, searched: Result<Found, Error>)
    requires input.query.limit > PAGE
    ensures var calls := Calls(input, pages, searched);
      && AskedInOrder(input, calls) && Brought(calls) == pages
      && (calls != [] && calls[|calls| - 1].reply.Failed? <==> searched == Err(SourceFailed))
  {
    ExchangesBring(input, pages);
    ExchangeCursors(input, pages);
    if searched == Err(SourceFailed) {
      OneMoreCall(input, Exchanges(input, pages), pages, Failed);
    }
  }

  /** What a large search found is what its pages say. */
  lemma {:induction false} LargeShows(input: Input, pages: seq<Found>, found: Found)
    requires input.query.limit > PAGE && After(input, pages) == Done(found)
    ensures pages != [] && Shows(input.query, pages, Presented(input.query, found))
  {
    var limit := input.query.limit;
    DoneItems(input, pages);
    assert pages == pages[..|pages| - 1] + [pages[|pages| - 1]];
    DoneProvenance(input, pages);
    GenerationShared(pages, limit);
    SourceNamed(pages, limit);
    MergedItems(pages, limit);
    MergedWarnings(pages, limit);
  }

  /** What a large search answers. */
  lemma {:induction false} LargeAnswers(
    input: Input, pages: seq<Found>, searched: Result<Found, Error>, allowed: set<Kind>,
    result: Result<Output, Error>)
    requires input.query.limit > PAGE && Explained(input, pages, searched)
    requires match searched
      case Err(e) => result == Err(e)
      case Ok(found) =>
        result == if Acceptable(found.items, allowed) then Ok(Presented(input.query, found)) else Err(BadIdentity)
    ensures AskedInOrder(input, Calls(input, pages, searched))
    ensures Answers(input, Calls(input, pages, searched), allowed, result)
  {
    CallsInOrder(input, pages, searched);
    AfterMeans(input, pages);
    if searched.Ok? {
      LargeShows(input, pages, searched.value);
      DoneItems(input, pages);
    } else if pages != [] {
      ArriveErrors(input, pages[..|pages| - 1], pages[|pages| - 1]);
    }
  }

  lemma SmallShows(input: Input, page: Found)
    requires |page.items| <= input.query.limit <= PAGE
    ensures Shows(input.query, [page], Presented(input.query, page)) && Concat([page]) == page.items
  {
    OnePage(page);
    assert page.generation.Some? ==> OfGeneration([page][0], page.generation.value);
    assert SharedGeneration([page]) <==> page.generation.Some?;
    assert AnyStale([page]) <==> StalePage([page][0]);
  }

  /** What a small search answers. */
  lemma {:induction false} SmallAnswers(input: Input, reply: Reply, allowed: set<Kind>, result: Result<Output, Error>)
    requires input.query.limit <= PAGE
    requires match Single(input, reply)
      case Err(e) => result == Err(e)
      case Ok(page) =>
        result ==
          if |page.items| > input.query.limit then Err(TooManyItems)
          else if Acceptable(page.items, allowed) then Ok(Presented(input.query, page)) else Err(BadIdentity)
    ensures var calls := [Exchange(Request(input.query, input.cursor, input.query.limit, 0), reply)];
      AskedInOrder(input, calls) && Answers(input, calls, allowed, result)
  {
    OneCallBrings(input, reply);
    if reply.Answered? {
      OnePage(reply.page);
      if |reply.page.items| <= input.query.limit {
        SmallShows(input, reply.page);
        assert reply.page.items[..|reply.page.items|] == reply.page.items;
      }
    }
  }

  lemma OnePage(page: Found)
    ensures Concat([page]) == page.items && Warnings([page]) == page.warnings
  {
    assert [page][..0] == [];
  }

  lemma {:induction false} OneCallBrings(input: Input, reply: Reply)
    requires input.query.limit <= PAGE
    ensures var calls := [Exchange(Request(input.query, input.cursor, input.query.limit, 0), reply)];
      AskedInOrder(input, calls) && Brought(calls) == if reply.Answered? then [reply.page] else []
  {
    var calls := [Exchange(Request(input.query, input.cursor, input.query.limit, 0), reply)];
    assert calls[..0] == [];
    assert AskedNext(input, calls, 0);
  }

  /** One search by a caller. */
  method Execute(source: Source, given: Query, token: Token, allowed: set<Kind>, size: Envelope -> nat)
      returns (result: Result<Output, Error>, ghost calls: seq<Exchange>)
    modifies source
    ensures source.log == old(source.log) + calls && |calls| <= MAX_PAGES
    ensures token == NoToken || Normal(given).limit <= PAGE ==> AskedOnce(calls)
    ensures result == Err(BadCursor) <==> Decode(token, Normal(given), size).Err?
    ensures result == Err(BadCursor) ==> calls == []
    ensures Accounted(given, token, allowed, size, calls, result)
    ensures Normal(given).limit > PAGE ==> Heeded(source.ended, |calls|, result == Err(Cancelled))
  {
    calls := [];
    var query := Normal(given);
    var decoded := Decode(token, query, size);
    if decoded.Err? {
      return Err(BadCursor), calls;
    }
    var input := Input(query, decoded.value);
    var searched: Result<Found, Error>;
    if query.limit <= PAGE {
      var reply: Reply;
      searched, reply := SearchOnce(source, input);
      calls := [Exchange(Request(query, input.cursor, query.limit, 0), reply)];
      result := Finish(query, searched, allowed);
      SmallAnswers(input, reply, allowed, result);
    } else {
      var pages: seq<Found>;
      searched, pages := SearchMany(source, input);
      calls := Calls(input, pages, searched);
      result := Finish(query, searched, allowed);
      FoundLarge(input, pages, searched);
      LargeAnswers(input, pages, searched, allowed, result);
    }
  }

  /** The calls of a search whose cursor is read are asked in order, and explain its answer. */
  ghost predicate Accounted(
    given: Query, token: Token, allowed: set<Kind>, size: Envelope -> nat, calls: seq<Exchange>,
    result: Result<Output, Error>)
  {
    Decode(token, Normal(given), size).Ok? ==>
      var input := Input(Normal(given), Decode(token, Normal(given), size).value);
      AskedInOrder(input, calls) && Answers(input, calls, allowed, result)
  }

  /** The checks of what was found. */
  method Finish(query: Query, searched: Result<Found, Error>, allowed: set<Kind>)
      returns (result: Result<Output, Error>)
    ensures result == match searched
      case Err(e) => Err(e)
      case Ok(found) =>
        if |found.items| > query.limit then Err(TooManyItems)
        else if Acceptable(found.items, allowed) then Ok(Presented(query, found)) else Err(BadIdentity)
  {
    if searched.Err? {
      return Err(searched.error);
    }
    var found := searched.value;
    if |found.items| > query.limit {
      return Err(TooManyItems);
    }
    var acceptable := CheckItems(found.items, allowed);
    if !acceptable {
      return Err(BadIdentity);
    }
    return Ok(Presented(query, found));
  }

  lemma {:induction false} FoundLarge(input: Input, pages: seq<Found>, searched: Result<Found, Error>)
    requires input.query.limit > PAGE && Explained(input, pages, searched)
    ensures Blank(input.cursor) ==> AskedOnce(Calls(input, pages, searched))
    ensures |Calls(input, pages, searched)| == CallCount(pages, searched) <= MAX_PAGES
    ensures searched.Ok? ==> |searched.value.items| <= input.query.limit
  {
    ExchangeCursors(input, pages);
    if Blank(input.cursor) {
      CallsAskedOnce(input, pages, searched);
    }
    if searched.Ok? {
      DoneItems(input, pages);
    }
  }

  /** The search names Pulse, and the place searched has none. */
  predicate Absent(given: Query, token: Token, pulse: bool, size: Envelope -> nat) {
    && ValidInput(given, token) && OwnCursor(given, token, size)
    && !pulse && given.selector != Every && Kinds(given.selector).value * PULSE != {}
  }

  /** Why a search is refused before any call: its arguments first, then whose cursor it is, then where it runs. */
  function RefusedFirst(given: Query, token: Token, pulse: bool, size: Envelope -> nat): (refusal: Option<Error>)
    ensures refusal == Some(BadArguments) <==> !ValidInput(given, token)
    ensures refusal == Some(BadCursor) <==> ValidInput(given, token) && !OwnCursor(given, token, size)
    ensures refusal == Some(NotOnThisServer) <==> Absent(given, token, pulse, size)
    ensures refusal.Some? ==> refusal.value in {BadArguments, BadCursor, NotOnThisServer}
  {
    if !ValidInput(given, token) then Some(BadArguments)
    else if !OwnCursor(given, token, size) then Some(BadCursor)
    else if !pulse && given.selector != Every && Kinds(given.selector).value * PULSE != {} then Some(NotOnThisServer)
    else None
  }

  /** The search command. `pulse` says whether the place searched has definitions and metrics. */
  method Search(source: Source, given: Query, token: Token, pulse: bool, size: Envelope -> nat)
      returns (result: Result<Output, Error>, ghost calls: seq<Exchange>)
    modifies source
    ensures source.log == old(source.log) + calls && |calls| <= MAX_PAGES && AskedOnce(calls)
    ensures var refusal := RefusedFirst(given, token, pulse, size);
      if refusal.Some? then result == Err(refusal.value) && calls == []
      else
        && (result == Err(BadCursor) <==> Decode(token, Normal(given), size).Err?)
        && (result == Err(BadCursor) ==> calls == [])
        && Accounted(given, token, Searched(given.selector, pulse), size, calls, result)
        && (given.limit > PAGE ==> Heeded(source.ended, |calls|, result == Err(Cancelled)))
  {
    var refusal := RefusedFirst(given, token, pulse, size);
    if refusal.Some? {
      return Err(refusal.value), [];
    }
    result, calls := Execute(source, given, token, Searched(given.selector, pulse), size);
  }

  /** At most as many items as were asked for, each of an allowed kind and none twice, and no cursor above a page. */
  ghost predicate Bounded(given: Query, allowed: set<Kind>, out: Output) {
    && Acceptable(out.items, allowed) && out.returned == |out.items| <= Normal(given).limit
    && (given.limit > PAGE ==> out.next == NoToken)
  }

  /** A search that is accounted for shows no more than was asked for, and its errors are those of the calls. */
  lemma AccountedMeans(
    given: Query, token: Token, allowed: set<Kind>, size: Envelope -> nat, calls: seq<Exchange>,
    result: Result<Output, Error>)
    requires Accounted(given, token, allowed, size, calls, result)
    ensures Decode(token, Normal(given), size).Ok? ==>
      && !(result.Err? && result.error in {BadArguments, BadCursor, NotOnThisServer})
      && (result.Ok? ==> Bounded(given, allowed, result.value))
  {
  }
}
