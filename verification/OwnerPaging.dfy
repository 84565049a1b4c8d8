/** Listing projects by owner (actions/project/list.go): a complete inventory is
    collected page by page (internal/paging/collect.go), filtered, and cut into
    windows whose offset never overflows. The filter fingerprint is its content. */
module OwnerPaging {
  import opened Common

  const DEFAULT_LIMIT := 25
  const MAX_LIMIT := 10000
  const VERSION := 1
  const MAX_SNAPSHOT := 1024
  const SCAN_SIZE := 100
  const SCAN_PAGES := 100
  const OWNER: Bytes := [0x6F, 0x77, 0x6E, 0x65, 0x72, 0x5F, 0x6C, 0x75, 0x69, 0x64]

  datatype Project = Project(luid: Bytes, owner: Bytes, details: Bytes)

  datatype Filter = Filter(name: Bytes, parent: Bytes, owner: Bytes, topLevel: bool)

  /** A continuation cursor; a filter of None is an empty fingerprint. */
  datatype Cursor = Cursor(version: int, page: int, size: int, filter: Option<Filter>, snapshot: Bytes)
  datatype CursorText = NoCursor | Garbled | Readable(cursor: Cursor)

  datatype Input = Input(filter: Filter, limit: int, cursor: CursorText, all: bool, cache: bool)

  datatype Selection = Selection(page: int, size: int, snapshot: Bytes)

  datatype Error =
    | BadLimit | BadCursor | LimitChanged | FilterChanged | AllCombined | CacheRefused | ReadFailed | Inconsistent

  datatype Output = Output(projects: seq<Project>, total: nat, limit: int, next: CursorText)

  // ----- Cursors -----

  function PageSelection(cursor: CursorText, requested: int, filter: Filter): Result<Selection, Error> {
    match cursor
    case NoCursor =>
      var size := if requested == 0 then DEFAULT_LIMIT else requested;
      if size < 1 || size > MAX_LIMIT then Err(BadLimit) else Ok(Selection(1, size, []))
    case Garbled => Err(BadCursor)
    case Readable(c) =>
      if c.version != VERSION || c.page < 2 || c.size < 1 || c.size > MAX_LIMIT || c.filter.None?
        || |c.snapshot| > MAX_SNAPSHOT
      then Err(BadCursor)
      else if requested != 0 && requested != c.size then Err(LimitChanged)
      else if c.filter != Some(filter) then Err(FilterChanged)
      else Ok(Selection(c.page, c.size, c.snapshot))
  }

  function EncodeCursor(page: int, size: int, filter: Filter, snapshot: Bytes): CursorText {
    Readable(Cursor(VERSION, page, size, Some(filter), snapshot))
  }

  /** A cursor is accepted exactly with the filter it was made for and with its own size or none. */
  lemma CursorRoundTrip(page: int, size: int, made: Filter, snapshot: Bytes, requested: int, asked: Filter)
    requires page >= 2 && 1 <= size <= MAX_LIMIT && |snapshot| <= MAX_SNAPSHOT
    ensures PageSelection(EncodeCursor(page, size, made, snapshot), requested, asked) ==
      Ok(Selection(page, size, snapshot))
      <==> asked == made && (requested == 0 || requested == size)
  {
  }

  /** Whatever is selected is a positive page of a bounded size. */
  lemma SelectionBounded(cursor: CursorText, requested: int, filter: Filter)
    requires PageSelection(cursor, requested, filter).Ok?
    ensures var s := PageSelection(cursor, requested, filter).value;
      s.page >= 1 && 1 <= s.size <= MAX_LIMIT
  {
  }

  /** What is selected: the first page with the limit that is asked for, or a cursor's own page. Nothing else is. */
  lemma SelectionIs(cursor: CursorText, requested: int, filter: Filter, s: Selection)
    ensures PageSelection(cursor, requested, filter) == Ok(s) <==> (
      || (cursor == NoCursor && s == Selection(1, if requested == 0 then DEFAULT_LIMIT else requested, [])
          && 1 <= s.size <= MAX_LIMIT)
      || (cursor == EncodeCursor(s.page, s.size, filter, s.snapshot) && s.page >= 2 && 1 <= s.size <= MAX_LIMIT
          && |s.snapshot| <= MAX_SNAPSHOT && (requested == 0 || requested == s.size)))
  {
  }

  // ----- The window -----

  /** Where page number `page` starts, computed without a product above n. */
  function Start(page: int, size: int, n: nat): int
    requires page >= 1 && size >= 1
  {
    if page <= n / size + 1 then Min((page - 1) * size, n) else n
  }

  function End(page: int, size: int, n: nat): int
    requires page >= 1 && size >= 1
  {
    Min(Start(page, size, n) + size, n)
  }

  lemma ProductMonotone(a: int, b: int, size: int)
    requires a <= b && size >= 1
    ensures a * size <= b * size
  {
  }

  /** The guarded start is the plain one, and the product that is computed never exceeds n. */
  lemma StartIsMin(page: int, size: int, n: nat)
    requires page >= 1 && size >= 1
    ensures Start(page, size, n) == Min((page - 1) * size, n)
    ensures page <= n / size + 1 ==> 0 <= (page - 1) * size <= n
    ensures 0 <= Start(page, size, n) <= End(page, size, n) <= n
    ensures End(page, size, n) == Min(page * size, n)
  {
    var q := n / size;
    assert n == q * size + n % size;
    if page <= q + 1 {
      ProductMonotone(page - 1, q, size);
      ProductMonotone(0, page - 1, size);
    } else {
      ProductMonotone(q + 1, page - 1, size);
      assert (q + 1) * size == q * size + size;
    }
    assert page * size == (page - 1) * size + size;
  }

  function Owned(items: seq<Project>, owner: Bytes): (owned: seq<Project>)
    ensures forall p :: p in owned <==> p in items && p.owner == owner
  {
    if items == [] then []
    else
      var last := items[|items| - 1];
      Owned(items[..|items| - 1], owner) + if last.owner == owner then [last] else []
  }

  /** These are the places of the owner's projects in the inventory. */
  ghost predicate PlacesOf(items: seq<Project>, at: seq<nat>, owner: Bytes) {
    forall k: nat | k < |items| :: k in at <==> items[k].owner == owner
  }

  lemma PlacesMore(items: seq<Project>, at: seq<nat>, part: seq<Project>, owner: Bytes)
    requires items != [] && PlacesOf(items[..|items| - 1], at, owner) && Picks(items[..|items| - 1], at, part)
    ensures PlacesOf(items, at + if items[|items| - 1].owner == owner then [|items| - 1] else [], owner)
  {
    var n := |items| - 1;
    assert forall k: nat | k < n :: items[..n][k] == items[k];
    assert n !in at;
  }

  /** The owner's projects are exactly those entries of the inventory, each as often as it is there and in its order. */
  lemma {:induction false} OwnedInOrder(items: seq<Project>, owner: Bytes) returns (at: seq<nat>)
    ensures Picks(items, at, Owned(items, owner)) && PlacesOf(items, at, owner)
    decreases |items|
  {
    if items == [] {
      return [];
    }
    var n := |items| - 1;
    at := OwnedInOrder(items[..n], owner);
    PlacesMore(items, at, Owned(items[..n], owner), owner);
    PicksMore(items, at, Owned(items[..n], owner));
    at := at + if items[n].owner == owner then [n] else [];
  }

  /** One window of the owner's projects. */
  function Page(owned: seq<Project>, filter: Filter, selection: Selection): Output
    requires selection.page >= 1 && selection.size >= 1
  {
    StartIsMin(selection.page, selection.size, |owned|);
    var start, end := Start(selection.page, selection.size, |owned|), End(selection.page, selection.size, |owned|);
    var next := if end < |owned| then EncodeCursor(selection.page + 1, selection.size, filter, OWNER) else NoCursor;
    Output(owned[start..end], |owned|, selection.size, next)
  }

  /** The window of page number `page` of this size, and a cursor for the next one exactly if something is left. */
  ghost predicate ShowsWindow(owned: seq<Project>, filter: Filter, page: int, size: int, output: Output)
    requires page >= 1 && size >= 1
  {
    var n := |owned|;
    ProductMonotone(0, page - 1, size);
    assert page * size == (page - 1) * size + size;
    && output.projects == owned[Min((page - 1) * size, n)..Min(page * size, n)]
    && output.total == n && output.limit == size
    && output.next ==
      if page * size < n then Readable(Cursor(VERSION, page + 1, size, Some(filter), OWNER)) else NoCursor
  }

  lemma PageShowsWindow(owned: seq<Project>, filter: Filter, selection: Selection)
    requires selection.page >= 1 && selection.size >= 1
    ensures ShowsWindow(owned, filter, selection.page, selection.size, Page(owned, filter, selection))
  {
    StartIsMin(selection.page, selection.size, |owned|);
  }

  // ----- Collecting the inventory -----

  datatype Reply = Reply(number: int, size: int, total: int, items: seq<Project>, token: Bytes)

  /** One read of a page; a failed one has no reply. */
  datatype Read = Read(number: int, size: int, token: Bytes, reply: Option<Reply>)

  class Reader {
    /** Every read made, with its reply. */
    ghost var log: seq<Read>

    constructor ()
      ensures log == []
    {
      log := [];
    }

    /** One page of the site's projects, whatever the site answers. */
    method ListProjects(number: int, size: int, token: Bytes) returns (reply: Option<Reply>)
      modifies this
      ensures log == old(log) + [Read(number, size, token, reply)]
    {
      reply := *;
      log := log + [Read(number, size, token, reply)];
    }
  }

  function Concat(replies: seq<Reply>): seq<Project> {
    if replies == [] then [] else Concat(replies[..|replies| - 1]) + replies[|replies| - 1].items
  }

  /** Projects with distinct, nonempty identifiers. */
  ghost predicate Identified(items: seq<Project>) {
    && (forall i | 0 <= i < |items| :: items[i].luid != [])
    && forall i, j | 0 <= i < j < |items| :: items[i].luid != items[j].luid
  }

  /** Page number k + 1 of an inventory of this total. */
  predicate PageOf(reply: Reply, k: nat, total: int) {
    reply.number == k + 1 && reply.size == SCAN_SIZE && |reply.items| <= SCAN_SIZE && reply.total == total
  }

  /** The replies are pages 1, 2, … of an inventory that declares one total; the first `full` are full. */
  ghost predicate Consistent(replies: seq<Reply>, total: int, full: nat) {
    forall k: nat | k < |replies| :: PageOf(replies[k], k, total) && (k < full ==> |replies[k].items| == SCAN_SIZE)
  }

  function Ids(items: seq<Project>): set<Bytes> {
    set i | 0 <= i < |items| :: items[i].luid
  }

  lemma OneItemMore(items: seq<Project>, item: Project)
    ensures Ids(items + [item]) == Ids(items) + {item.luid}
    ensures Identified(items + [item]) <==> (Identified(items) && item.luid != [] && item.luid !in Ids(items))
  {
    var more := items + [item];
    assert more[|items|] == item && forall i | 0 <= i < |items| :: more[i] == items[i];
    forall id <- Ids(items) + {item.luid}
      ensures id in Ids(more)
    {
      if id in Ids(items) {
        var i :| 0 <= i < |items| && items[i].luid == id;
        assert more[i].luid == id;
      } else {
        assert more[|items|].luid == id;
      }
    }
    if item.luid in Ids(items) {
      var i :| 0 <= i < |items| && items[i].luid == item.luid;
      assert more[i].luid == more[|items|].luid;
    }
  }

  lemma IdentifiedPrefix(items: seq<Project>, n: nat)
    requires n <= |items|
    ensures Identified(items) ==> Identified(items[..n])
  {
  }

  /** Taking in one page's items. */
  method TakeItems(items: seq<Project>, before: seq<Project>, seenBefore: set<Bytes>)
      returns (ok: bool, result: seq<Project>, seen: set<Bytes>)
    requires Identified(before) && seenBefore == Ids(before)
    ensures ok <==> Identified(before + items)
    ensures ok ==> result == before + items && seen == Ids(result)
  {
    result, seen := before, seenBefore;
    for i := 0 to |items|
      invariant result == before + items[..i] && Identified(result) && seen == Ids(result)
    {
      var id := items[i].luid;
      OneItemMore(result, items[i]);
      assert before + items[..i + 1] == result + [items[i]];
      if id == [] || id in seen {
        assert (before + items)[..|before| + i + 1] == before + items[..i + 1];
        IdentifiedPrefix(before + items, |before| + i + 1);
        return false, result, seen;
      }
      result, seen := result + [items[i]], seen + {id};
    }
    assert items[..|items|] == items;
    ok := true;
  }

  // ----- What the pages must be -----

  /** The token that page number k + 1 is asked for with. */
  function TokenAt(replies: seq<Reply>, k: nat): Bytes
    requires k <= |replies|
  {
    if k == 0 then [] else replies[k - 1].token
  }

  /** The reads that brought these replies. */
  ghost function ReadsOf(replies: seq<Reply>): (asked: seq<Read>)
    ensures |asked| == |replies|
  {
    seq(|replies|, k requires 0 <= k < |replies| =>
      Read(k + 1, SCAN_SIZE, TokenAt(replies, k), Some(replies[k])))
  }

  /** Reply k is page k + 1 of an inventory that declares one total, and no identifier is empty or repeated so far. */
  ghost predicate Fits(replies: seq<Reply>, k: nat)
    requires k < |replies|
  {
    && PageOf(replies[k], k, replies[0].total)
    && |Concat(replies[..k + 1])| <= replies[0].total
    && Identified(Concat(replies[..k + 1]))
  }

  /** And it is full, is not the last one, and repeats no token. */
  ghost predicate Continues(replies: seq<Reply>, k: nat)
    requires k < |replies|
  {
    && Fits(replies, k) && |replies[k].items| == SCAN_SIZE && |Concat(replies[..k + 1])| < replies[0].total
    && (replies[k].token != [] ==> forall j | 0 <= j < k :: replies[j].token != replies[k].token)
  }

  ghost predicate Going(replies: seq<Reply>) {
    forall k: nat | k < |replies| :: Continues(replies, k)
  }

  /** The last reply ends an inventory that is as large as it declares. */
  ghost predicate Complete(replies: seq<Reply>) {
    && replies != [] && Going(replies[..|replies| - 1]) && Fits(replies, |replies| - 1)
    && |Concat(replies)| == replies[0].total && replies[|replies| - 1].token == []
  }

  /** A scan: the replies it received, and whether the read after them failed. */
  datatype Scan = Scan(replies: seq<Reply>, failed: bool)

  ghost function ScanReads(scan: Scan): seq<Read> {
    ReadsOf(scan.replies)
    + if scan.failed then [Read(|scan.replies| + 1, SCAN_SIZE, TokenAt(scan.replies, |scan.replies|), None)] else []
  }

  /** A scan gives the inventory exactly if its pages are complete, and goes on as long as they continue. */
  ghost predicate Scanned(scan: Scan, items: Option<seq<Project>>) {
    var n := |scan.replies|;
    && (items.Some? <==> !scan.failed && Complete(scan.replies))
    && (items.Some? ==> items.value == Concat(scan.replies) && Identified(items.value))
    && (if scan.failed then n < SCAN_PAGES && Going(scan.replies)
        else n > 0 && Going(scan.replies[..n - 1]) && (Going(scan.replies) ==> n == SCAN_PAGES) && n <= SCAN_PAGES)
  }

  lemma ConcatMore(replies: seq<Reply>, page: Reply)
    ensures Concat(replies + [page]) == Concat(replies) + page.items
  {
    assert (replies + [page])[..|replies|] == replies;
  }

  lemma {:induction false} FullPages(replies: seq<Reply>)
    requires Going(replies)
    ensures |Concat(replies)| == |replies| * SCAN_SIZE
    ensures replies != [] ==> |Concat(replies)| < replies[0].total
    decreases |replies|
  {
    if replies != [] {
      var n := |replies| - 1;
      assert Continues(replies, n) && replies[..n + 1] == replies;
      GoingPrefix(replies, n);
      FullPages(replies[..n]);
    }
  }

  lemma GoingPrefix(replies: seq<Reply>, n: nat)
    requires Going(replies) && n <= |replies|
    ensures Going(replies[..n])
  {
    forall k: nat | k < n
      ensures Continues(replies[..n], k)
    {
      assert Continues(replies, k) && replies[..n][..k + 1] == replies[..k + 1];
    }
  }

  /** What one more reply does to a scan. */
  lemma GoingMore(replies: seq<Reply>, page: Reply)
    requires Going(replies)
    ensures Going(replies + [page]) <==> Continues(replies + [page], |replies|)
    ensures Complete(replies + [page]) <==> (
      && Fits(replies + [page], |replies|) && page.token == []
      && |Concat(replies + [page])| == (replies + [page])[0].total)
  {
    var more := replies + [page];
    assert more[..|replies|] == replies;
    forall k: nat | k < |replies|
      ensures Continues(more, k)
    {
      assert Continues(replies, k) && more[..k + 1] == replies[..k + 1];
    }
  }

  /** Whether a reply stands, by what the collector knows: the number asked for, the total if any, and what it has. */
  ghost predicate Stands(page: Reply, number: int, total: int, before: seq<Project>) {
    && page.number == number && page.size == SCAN_SIZE && page.total >= 0 && |page.items| <= SCAN_SIZE
    && (number - 1) * SCAN_SIZE + |page.items| <= page.total
    && (total >= 0 ==> total == page.total)
    && Identified(before + page.items)
  }

  lemma StandsIsFits(replies: seq<Reply>, page: Reply, total: int)
    requires Going(replies) && total == if replies == [] then -1 else replies[0].total
    ensures Stands(page, |replies| + 1, total, Concat(replies)) <==> Fits(replies + [page], |replies|)
  {
    var more := replies + [page];
    FullPages(replies);
    ConcatMore(replies, page);
    assert more[..|replies| + 1] == more;
    assert more[0] == if replies == [] then page else replies[0];
  }

  /** Reading one page: it must be the page asked for, within the declared total, with new identifiers. */
  method ScanPage(reader: Reader, number: int, token: Bytes, total: int, before: seq<Project>, seenBefore: set<Bytes>)
      returns (page: Option<Reply>, result: seq<Project>, seen: set<Bytes>, ghost reply: Option<Reply>)
    requires Identified(before) && seenBefore == Ids(before)
    modifies reader
    ensures reader.log == old(reader.log) + [Read(number, SCAN_SIZE, token, reply)]
    ensures page == if reply.Some? && Stands(reply.value, number, total, before) then reply else None
    ensures page.Some? ==> result == before + page.value.items && seen == Ids(result)
  {
    result, seen := before, seenBefore;
    page := reader.ListProjects(number, SCAN_SIZE, token);
    reply := page;
    if page.None? {
      return;
    }
    var got := page.value;
    if got.number != number || got.size != SCAN_SIZE || got.total < 0 || |got.items| > SCAN_SIZE
      || (number - 1) * SCAN_SIZE + |got.items| > got.total {
      return None, result, seen, reply;
    }
    if total >= 0 && total != got.total {
      return None, result, seen, reply;
    }
    var ok: bool;
    ok, result, seen := TakeItems(got.items, before, seenBefore);
    if !ok {
      return None, result, seen, reply;
    }
  }

  lemma ReadsMore(replies: seq<Reply>, page: Reply)
    ensures ReadsOf(replies + [page])
      == ReadsOf(replies) + [Read(|replies| + 1, SCAN_SIZE, TokenAt(replies, |replies|), Some(page))]
  {
    var more := replies + [page];
    assert forall k: nat | k <= |replies| :: TokenAt(more, k) == TokenAt(replies, k);
  }

  function Tokens(replies: seq<Reply>): set<Bytes> {
    set k | 0 <= k < |replies| && replies[k].token != [] :: replies[k].token
  }

  lemma TokensMore(replies: seq<Reply>, page: Reply)
    ensures Tokens(replies + [page]) == Tokens(replies) + if page.token != [] then {page.token} else {}
    ensures page.token in Tokens(replies)
      <==> page.token != [] && exists j :: 0 <= j < |replies| && replies[j].token == page.token
  {
    var more := replies + [page];
    assert more[|replies|] == page && forall k | 0 <= k < |replies| :: more[k] == replies[k];
  }

  /** What the collector holds after some pages that continue. */
  ghost predicate Holding(replies: seq<Reply>, items: seq<Project>, seen: set<Bytes>, tokens: set<Bytes>, total: int) {
    && Going(replies) && items == Concat(replies) && seen == Ids(items) && Identified(items)
    && tokens == Tokens(replies) && total == if replies == [] then -1 else replies[0].total
  }

  lemma HeldIdentified(replies: seq<Reply>, page: Reply)
    requires Fits(replies + [page], |replies|)
    ensures Identified(Concat(replies) + page.items)
    ensures page.total == (replies + [page])[0].total && |Concat(replies) + page.items| <= page.total
  {
    ConcatMore(replies, page);
    assert (replies + [page])[..|replies| + 1] == replies + [page];
  }

  /** What a reply that does not stand does to a scan. */
  lemma ReplyStops(
    replies: seq<Reply>, items: seq<Project>, seen: set<Bytes>, tokens: set<Bytes>, total: int, page: Reply)
    requires Holding(replies, items, seen, tokens, total) && !Stands(page, |replies| + 1, total, items)
    ensures !Going(replies + [page]) && !Complete(replies + [page])
  {
    GoingMore(replies, page);
    StandsIsFits(replies, page, total);
  }

  /** What a reply that stands does to a scan: it ends it, stops it, or keeps it going. */
  lemma ReplyGoesOn(
    replies: seq<Reply>, items: seq<Project>, seen: set<Bytes>, tokens: set<Bytes>, total: int, page: Reply)
    requires Holding(replies, items, seen, tokens, total) && Stands(page, |replies| + 1, total, items)
    ensures var more, result := replies + [page], items + page.items;
      var full := |page.items| == SCAN_SIZE && page.token !in tokens;
      && result == Concat(more) && Identified(result)
      && (|result| == page.total ==> !Going(more) && (Complete(more) <==> page.token == []))
      && (|result| != page.total && !full ==> !Going(more) && !Complete(more))
      && (|result| != page.total && full ==>
        Holding(more, result, Ids(result), tokens + if page.token != [] then {page.token} else {}, page.total))
  {
    var more := replies + [page];
    GoingMore(replies, page);
    StandsIsFits(replies, page, total);
    HeldIdentified(replies, page);
    ConcatMore(replies, page);
    TokensMore(replies, page);
    assert more[..|replies| + 1] == more;
  }

  /** The complete inventory: every declared project once, in the order the pages gave them. */
  method Collect(reader: Reader) returns (items: Option<seq<Project>>, ghost scan: Scan)
    modifies reader
    ensures reader.log == old(reader.log) + ScanReads(scan) && Scanned(scan, items)
  {
    ghost var start := reader.log;
    ghost var replies: seq<Reply> := [];
    var result: seq<Project> := [];
    var seen: set<Bytes> := {};
    var tokens: set<Bytes> := {};
    var total, number, token := -1, 1, [];
    while number <= SCAN_PAGES
      invariant |replies| == number - 1 <= SCAN_PAGES && token == TokenAt(replies, |replies|)
      invariant Holding(replies, result, seen, tokens, total) && reader.log == start + ReadsOf(replies)
    {
      var scanned: Option<Reply>;
      ghost var reply: Option<Reply>;
      ghost var before, seenBefore := result, seen;
      scanned, result, seen, reply := ScanPage(reader, number, token, total, result, seen);
      scan := Scan(replies, true);
      if reply.Some? {
        ReadsMore(replies, reply.value);
        scan := Scan(replies + [reply.value], false);
        assert scan.replies[..|replies|] == replies;
      }
      if scanned.None? {
        if reply.Some? {
          ReplyStops(replies, before, seenBefore, tokens, total, reply.value);
        }
        return None, scan;
      }
      var page := scanned.value;
      ReplyGoesOn(replies, before, seenBefore, tokens, total, page);
      total := page.total;
      if |result| == total {
        return if page.token != [] then None else Some(result), scan;
      }
      if |page.items| != SCAN_SIZE || page.token in tokens {
        return None, scan;
      }
      if page.token != [] {
        tokens := tokens + {page.token};
      }
      replies := scan.replies;
      number, token := number + 1, page.token;
    }
    GoingPrefix(replies, |replies| - 1);
    FullPages(replies);
    scan := Scan(replies, false);
    return None, scan;
  }

  // ----- Listing by owner -----

  method FilterOwned(items: seq<Project>, owner: Bytes) returns (owned: seq<Project>)
    ensures owned == Owned(items, owner)
  {
    owned := [];
    for i := 0 to |items|
      invariant owned == Owned(items[..i], owner)
    {
      assert items[..i + 1][..i] == items[..i];
      if items[i].owner == owner {
        owned := owned + [items[i]];
      }
    }
    assert items[..|items|] == items;
  }

  method CutWindow(owned: seq<Project>, filter: Filter, selection: Selection) returns (output: Output)
    requires selection.page >= 1 && selection.size >= 1
    ensures output == Page(owned, filter, selection)
  {
    StartIsMin(selection.page, selection.size, |owned|);
    var start: int := |owned|;
    if selection.page <= |owned| / selection.size + 1 {
      start := Min((selection.page - 1) * selection.size, |owned|);
    }
    var end := Min(start + selection.size, |owned|);
    var next := NoCursor;
    if end < |owned| {
      next := EncodeCursor(selection.page + 1, selection.size, filter, OWNER);
    }
    output := Output(owned[start..end], |owned|, selection.size, next);
  }

  /** What the owner inventory answers, once it is collected. */
  ghost predicate OwnerTold(
    result: Result<Output, Error>, input: Input, selection: Selection, inventory: Option<seq<Project>>)
    requires !input.all ==> selection.page >= 1 && selection.size >= 1
  {
    && (inventory.None? ==> result == Err(ReadFailed))
    && (inventory.Some? ==>
      var owned := Owned(inventory.value, input.filter.owner);
      && result.Ok?
      && (input.all ==> result.value == Output(owned, |owned|, MAX_LIMIT, NoCursor))
      && (!input.all ==> ShowsWindow(owned, input.filter, selection.page, selection.size, result.value)))
  }

  const NOT_SCANNED := Scan([], false)

  /** The owner inventory: refused on the cache, and otherwise collected, filtered and cut. */
  method ListByOwner(reader: Reader, input: Input, selection: Selection)
      returns (result: Result<Output, Error>, ghost inventory: Option<seq<Project>>, ghost scan: Scan)
    requires !input.all ==> selection.page >= 1 && selection.size >= 1
    modifies reader
    ensures reader.log == old(reader.log) + ScanReads(scan)
    ensures if input.cache then result == Err(CacheRefused) && scan == NOT_SCANNED
      else Scanned(scan, inventory) && OwnerTold(result, input, selection, inventory)
  {
    inventory, scan := None, NOT_SCANNED;
    if input.cache {
      return Err(CacheRefused), inventory, scan;
    }
    var collected: Option<seq<Project>>;
    collected, scan := Collect(reader);
    inventory := collected;
    if collected.None? {
      return Err(ReadFailed), inventory, scan;
    }
    var owned := FilterOwned(collected.value, input.filter.owner);
    if input.all {
      return Ok(Output(owned, |owned|, MAX_LIMIT, NoCursor)), inventory, scan;
    }
    PageShowsWindow(owned, input.filter, selection);
    var output := CutWindow(owned, input.filter, selection);
    return Ok(output), inventory, scan;
  }

  // ----- Walking the cursors -----

  /** What one call answers while the inventory stays the same. */
  function Answer(owned: seq<Project>, filter: Filter, cursor: CursorText, requested: int): Result<Output, Error> {
    match PageSelection(cursor, requested, filter)
    case Err(e) => Err(e)
    case Ok(selection) =>
      SelectionBounded(cursor, requested, filter);
      Ok(Page(owned, filter, selection))
  }

  /** A call follows the cursor that the one before returned, with the first call's limit or none. */
  ghost predicate Follows(owned: seq<Project>, filter: Filter, size: int, before: Output, after: Output) {
    && before.next != NoCursor
    && (Answer(owned, filter, before.next, 0) == Ok(after) || Answer(owned, filter, before.next, size) == Ok(after))
  }

  ghost predicate Walk(owned: seq<Project>, filter: Filter, limit: int, pages: seq<Output>) {
    && pages != []
    && Answer(owned, filter, NoCursor, limit) == Ok(pages[0])
    && forall j, k | 0 <= j < |pages| && k == j + 1 < |pages| ::
      Follows(owned, filter, pages[0].limit, pages[j], pages[k])
  }

  function Shown(pages: seq<Output>): seq<Project> {
    if pages == [] then [] else Shown(pages[..|pages| - 1]) + pages[|pages| - 1].projects
  }

  /** How many projects the first pages reach. */
  function Reached(pages: nat, size: int, n: nat): (r: nat)
    requires size >= 1
    ensures r <= n
  {
    ProductMonotone(0, pages, size);
    Min(pages * size, n)
  }

  lemma ReachedGrows(pages: nat, size: int, n: nat)
    requires size >= 1
    ensures Reached(pages, size, n) <= Reached(pages + 1, size, n)
    ensures Reached(pages, size, n) < n ==> pages < n
    ensures Reached(0, size, n) == 0
  {
    ProductMonotone(pages, pages + 1, size);
    if pages > 0 {
      assert pages * size >= pages by {
        assert pages * size == pages + pages * (size - 1);
        ProductMonotone(0, pages, size);
        assert pages * (size - 1) >= 0;
      }
    }
  }

  /** Page number k of some size, as the window between what k - 1 and k pages reach. */
  lemma PageReaches(owned: seq<Project>, filter: Filter, k: nat, size: int, snapshot: Bytes)
    requires k >= 1 && size >= 1
    ensures var page := Page(owned, filter, Selection(k, size, snapshot));
      && Reached(k - 1, size, |owned|) <= Reached(k, size, |owned|)
      && page.projects == owned[Reached(k - 1, size, |owned|)..Reached(k, size, |owned|)]
      && page.limit == size
      && page.next ==
        if Reached(k, size, |owned|) < |owned| then EncodeCursor(k + 1, size, filter, OWNER) else NoCursor
  {
    StartIsMin(k, size, |owned|);
    ReachedGrows(k - 1, size, |owned|);
  }

  /** The k-th page of a walk is page number k. */
  lemma {:induction false} WalkPages(owned: seq<Project>, filter: Filter, limit: int, pages: seq<Output>, k: nat)
    requires Walk(owned, filter, limit, pages) && k < |pages|
    ensures 1 <= pages[0].limit <= MAX_LIMIT
    ensures pages[k] == Page(owned, filter, Selection(k + 1, pages[0].limit, if k == 0 then [] else OWNER))
    ensures k > 0 ==> Reached(k, pages[0].limit, |owned|) < |owned|
    decreases k
  {
    var size := pages[0].limit;
    SelectionBounded(NoCursor, limit, filter);
    if k > 0 {
      WalkPages(owned, filter, limit, pages, k - 1);
      assert Follows(owned, filter, size, pages[k - 1], pages[k]);
      PageReaches(owned, filter, k, size, if k == 1 then [] else OWNER);
      CursorRoundTrip(k + 1, size, filter, OWNER, 0, filter);
      CursorRoundTrip(k + 1, size, filter, OWNER, size, filter);
    }
  }

  lemma ShownStep(pages: seq<Output>, n: nat)
    requires 0 < n <= |pages|
    ensures Shown(pages[..n]) == Shown(pages[..n - 1]) + pages[n - 1].projects
  {
    assert pages[..n][..n - 1] == pages[..n - 1];
  }

  lemma {:induction false} ShownReaches(
    owned: seq<Project>, filter: Filter, limit: int, pages: seq<Output>, size: int, n: nat)
    requires Walk(owned, filter, limit, pages) && n <= |pages| && size == pages[0].limit >= 1
    ensures Shown(pages[..n]) == owned[..Reached(n, size, |owned|)]
    decreases n
  {
    if n == 0 {
      ReachedGrows(0, size, |owned|);
    } else {
      ShownReaches(owned, filter, limit, pages, size, n - 1);
      ShownStep(pages, n);
      PageOfWalk(owned, filter, limit, pages, size, n);
      var from, to := Reached(n - 1, size, |owned|), Reached(n, size, |owned|);
      assert owned[..from] + owned[from..to] == owned[..to];
    }
  }

  lemma PageOfWalk(owned: seq<Project>, filter: Filter, limit: int, pages: seq<Output>, size: int, n: nat)
    requires Walk(owned, filter, limit, pages) && 0 < n <= |pages| && size == pages[0].limit >= 1
    ensures Reached(n - 1, size, |owned|) <= Reached(n, size, |owned|)
    ensures pages[n - 1].projects == owned[Reached(n - 1, size, |owned|)..Reached(n, size, |owned|)]
    ensures pages[n - 1].next == NoCursor <==> Reached(n, size, |owned|) == |owned|
    ensures n > 1 ==> Reached(n - 1, size, |owned|) < |owned|
  {
    WalkPages(owned, filter, limit, pages, n - 1);
    PageReaches(owned, filter, n, size, if n == 1 then [] else OWNER);
  }

  /** A walk shows the owner's projects once, in order, as far as it has come; it may go on exactly
      while some are left, and it has no more pages than there are projects. */
  lemma {:induction false} WalkShowsAll(owned: seq<Project>, filter: Filter, limit: int, pages: seq<Output>)
    requires Walk(owned, filter, limit, pages)
    ensures Shown(pages) <= owned
    ensures pages[|pages| - 1].next == NoCursor <==> Shown(pages) == owned
    ensures |pages| == 1 || |pages| <= |owned|
  {
    var n, size := |pages|, pages[0].limit;
    WalkPages(owned, filter, limit, pages, 0);
    ShownReaches(owned, filter, limit, pages, size, n);
    PageOfWalk(owned, filter, limit, pages, size, n);
    ReachedGrows(n - 1, size, |owned|);
    assert pages[..n] == pages;
  }

  // ----- Dispatch -----

  predicate HexDigit(b: byte) {
    0x30 <= b <= 0x39 || 0x41 <= b <= 0x46 || 0x61 <= b <= 0x66
  }

  /** Eight, four, four, four and twelve hexadecimal digits with dashes between. */
  predicate MayBeOwner(text: Bytes) {
    |text| == 36 && forall i | 0 <= i < 36 ::
      if i == 8 || i == 13 || i == 18 || i == 23 then text[i] == 0x2D else HexDigit(text[i])
  }

  /** What the name filter found: a page, or all of it. */
  datatype Named = Named(projects: seq<Project>, total: int)

  datatype Listing = Refused(error: Error) | ByName(named: Named) | ByOwner(output: Output)

  /** The cursor came from the owner inventory. */
  predicate FromOwner(input: Input) {
    !input.all && input.cursor.Readable? && input.cursor.cursor.snapshot == OWNER
  }

  /** The name filter found nothing. */
  predicate FoundNone(input: Input, named: Named) {
    if input.all then named.projects == [] else named.total == 0
  }

  /** Whether the owner inventory is used. */
  predicate UsesOwner(input: Input, named: Option<Named>) {
    MayBeOwner(input.filter.owner) && (FromOwner(input) || (named.Some? && FoundNone(input, named.value)))
  }

  /** Why a list call is refused before anything is read, if it is. */
  function Selected(input: Input): Result<Selection, Error> {
    if !input.all then PageSelection(input.cursor, input.limit, input.filter)
    else if input.limit != 0 || input.cursor != NoCursor then Err(AllCombined)
    else Ok(Selection(0, 0, []))
  }

  /** What a list call answers. */
  ghost predicate Told(
    listing: Listing, input: Input, named: Option<Named>, selection: Selection, inventory: Option<seq<Project>>,
    scan: Scan)
    requires !input.all ==> selection.page >= 1 && selection.size >= 1
  {
    if !UsesOwner(input, named) then
      listing == (if named.Some? then ByName(named.value) else Refused(ReadFailed)) && scan == NOT_SCANNED
    else if input.cache then listing == Refused(CacheRefused) && scan == NOT_SCANNED
    else
      && Scanned(scan, inventory) && !listing.ByName?
      && OwnerTold(if listing.ByOwner? then Ok(listing.output) else Err(listing.error), input, selection, inventory)
  }

  lemma SelectedBounded(input: Input)
    requires Selected(input).Ok? && !input.all
    ensures Selected(input).value.page >= 1 && Selected(input).value.size >= 1
    ensures Selected(input).value.snapshot == OWNER <==> FromOwner(input)
  {
    SelectionBounded(input.cursor, input.limit, input.filter);
    SelectionIs(input.cursor, input.limit, input.filter, Selected(input).value);
  }

  /** One list call. The owner inventory is used exactly when the selector looks like an identifier and
      either the cursor came from it or the name filter finds nothing. `named` is what the name
      filter would answer. */
  method Execute(reader: Reader, input: Input, named: Option<Named>)
      returns (listing: Listing, ghost inventory: Option<seq<Project>>, ghost scan: Scan)
    modifies reader
    ensures reader.log == old(reader.log) + ScanReads(scan)
    ensures input.all ==> (listing == Refused(AllCombined) <==> input.limit != 0 || input.cursor != NoCursor)
    ensures Selected(input).Err? ==> listing == Refused(Selected(input).error) && scan == NOT_SCANNED
    ensures Selected(input).Ok? && !input.all ==> Selected(input).value.page >= 1 && Selected(input).value.size >= 1
    ensures Selected(input).Ok? ==> Told(listing, input, named, Selected(input).value, inventory, scan)
  {
    inventory, scan := None, NOT_SCANNED;
    var result: Result<Output, Error>;
    if input.all {
      if input.limit != 0 || input.cursor != NoCursor {
        return Refused(AllCombined), inventory, scan;
      }
      if named.None? {
        return Refused(ReadFailed), inventory, scan;
      }
      if named.value.projects == [] && MayBeOwner(input.filter.owner) {
        result, inventory, scan := ListByOwner(reader, input, Selection(0, 0, []));
        return if result.Ok? then ByOwner(result.value) else Refused(result.error), inventory, scan;
      }
      return ByName(named.value), inventory, scan;
    }
    var selected := PageSelection(input.cursor, input.limit, input.filter);
    if selected.Err? {
      return Refused(selected.error), inventory, scan;
    }
    SelectedBounded(input);
    if selected.value.snapshot == OWNER && MayBeOwner(input.filter.owner) {
      result, inventory, scan := ListByOwner(reader, input, selected.value);
      return if result.Ok? then ByOwner(result.value) else Refused(result.error), inventory, scan;
    }
    if named.None? {
      return Refused(ReadFailed), inventory, scan;
    }
    if named.value.total == 0 && MayBeOwner(input.filter.owner) {
      result, inventory, scan := ListByOwner(reader, input, selected.value);
      return if result.Ok? then ByOwner(result.value) else Refused(result.error), inventory, scan;
    }
    return ByName(named.value), inventory, scan;
  }
}
