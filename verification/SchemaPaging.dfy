/** Paging through a workbook schema (actions/workbook/schema.go): fields are
    selected, sorted, tied to the observed schema by a fingerprint, cut into a
    window and regrouped by datasource. The fingerprint is its content: the hash
    and the cursor text are taken as injective. */
module SchemaPaging {
  import opened Common
  import opened ByteText
  import opened TextOrder

  const MAX_FIELDS := 10000
  const DEFAULT_LIMIT := 20

  datatype Role = AnyRole | Measure | Dimension | Date | Excluded | UnknownRole

  datatype Field = Field(table: Bytes, caption: Bytes, id: Bytes, details: Bytes)
  datatype Datasource = Datasource(metadataId: Bytes, name: Bytes, complete: bool, details: Bytes)

  /** One read of the workbook's schema; `failed` when the reader also reported an error. */
  datatype Observed = Observed(
    luid: Bytes, metadataId: Bytes, complete: bool, datasources: seq<Datasource>, fields: seq<seq<Field>>, failed: bool)

  datatype Request = Request(
    workbook: Bytes, datasource: Bytes, query: Bytes, role: Role, fieldIds: seq<Bytes>, descriptions: bool, tags: bool)

  /** A selected field and the number of its datasource. */
  datatype Entry = Entry(group: nat, field: Field)

  datatype Fingerprint = Fingerprint(request: Request, all: bool, datasources: seq<Datasource>, selected: seq<Entry>)

  datatype Cursor = Cursor(offset: nat, fingerprint: Fingerprint)

  /** A cursor argument: absent, undecodable, or decoded with perhaps an empty fingerprint. */
  datatype CursorText = NoCursor | Unreadable | Readable(offset: int, fingerprint: Option<Fingerprint>)

  datatype Input = Input(request: Request, all: bool, limit: int, cursor: CursorText)

  datatype Group = Group(group: nat, fields: seq<Field>)
  datatype Page = Page(returned: nat, total: nat, totalComplete: bool, limit: nat, next: Option<Cursor>)
  datatype Output = Output(groups: seq<Group>, page: Page, complete: bool)

  datatype Error =
    | InvalidInput | ReadFailed | IdentityIncomplete | DatasourceCount | FieldCount | CursorMismatch | TooMany

  /** A partial answer carries its output and an error. */
  datatype Outcome = Rejected(error: Error) | Partial(out: Output) | Listed(out: Output)

  /** Whether a field matches the query and role filters. */
  type Filter = (Field, Bytes, Role) -> bool

  /** How a field is shown. */
  type Projection = (Field, bool, bool) -> Field

  // ----- Validation -----

  predicate ValidCursor(cursor: CursorText) {
    match cursor
    case NoCursor => true
    case Unreadable => false
    case Readable(offset, fingerprint) => offset >= 0 && fingerprint.Some?
  }

  predicate ValidInput(input: Input) {
    && TrimSpace(input.request.workbook) != []
    && TrimSpace(input.request.workbook) == input.request.workbook
    && 0 <= input.limit <= MAX_FIELDS
    && (input.all ==> input.limit == 0 && input.cursor.NoCursor?)
    && !input.request.role.UnknownRole?
    && |input.request.fieldIds| <= MAX_FIELDS
    && (forall id <- input.request.fieldIds :: TrimSpace(id) != [])
    && ValidCursor(input.cursor)
  }

  predicate Grouped(seen: Observed) {
    |seen.fields| == |seen.datasources|
  }

  predicate Identified(seen: Observed, request: Request) {
    seen.luid == request.workbook && seen.metadataId != [] && Grouped(seen)
  }

  // ----- Selection -----

  predicate InDatasource(ds: Datasource, request: Request) {
    request.datasource == [] || ds.name == request.datasource
  }

  predicate Chosen(field: Field, request: Request, fits: Filter) {
    fits(field, TrimSpace(request.query), request.role) && (request.fieldIds == [] || field.id in request.fieldIds)
  }

  /** The chosen fields of one datasource, in its order. */
  function Pick(group: nat, fields: seq<Field>, request: Request, fits: Filter): (entries: seq<Entry>)
    ensures forall e <- entries :: e.group == group && Chosen(e.field, request, fits)
  {
    if fields == [] then []
    else
      var last := fields[|fields| - 1];
      Pick(group, fields[..|fields| - 1], request, fits) + if Chosen(last, request, fits) then [Entry(group, last)]
        else []
  }

  /** The chosen fields of the first n datasources. */
  function Selected(seen: Observed, request: Request, fits: Filter, n: nat): (entries: seq<Entry>)
    requires Grouped(seen) && n <= |seen.fields|
    ensures forall e <- entries :: e.group < n
  {
    if n == 0 then []
    else
      var here := if InDatasource(seen.datasources[n - 1], request) then Pick(n - 1, seen.fields[n - 1], request, fits)
        else [];
      Selected(seen, request, fits, n - 1) + here
  }

  /** How often a request is to be shown a field of a datasource: as often as that datasource lists it if its
      name, the filters and the identifiers let it through, and never otherwise. */
  ghost function Copies(seen: Observed, request: Request, fits: Filter, e: Entry): nat {
    if
      && e.group < |seen.fields| && e.group < |seen.datasources|
      && (request.datasource == [] || seen.datasources[e.group].name == request.datasource)
      && fits(e.field, TrimSpace(request.query), request.role)
      && (request.fieldIds == [] || exists k :: 0 <= k < |request.fieldIds| && request.fieldIds[k] == e.field.id)
    then multiset(seen.fields[e.group])[e.field]
    else 0
  }

  ghost predicate SelectsExactly(seen: Observed, request: Request, fits: Filter, entries: seq<Entry>) {
    forall e: Entry :: multiset(entries)[e] == Copies(seen, request, fits, e)
  }

  lemma {:induction false} PickCounts(group: nat, fields: seq<Field>, request: Request, fits: Filter, e: Entry)
    ensures multiset(Pick(group, fields, request, fits))[e]
      == if e.group == group && Chosen(e.field, request, fits) then multiset(fields)[e.field] else 0
    decreases |fields|
  {
    if fields != [] {
      var init, last := fields[..|fields| - 1], fields[|fields| - 1];
      assert fields == init + [last];
      PickCounts(group, init, request, fits, e);
    }
  }

  lemma {:induction false} SelectedCounts(seen: Observed, request: Request, fits: Filter, n: nat, e: Entry)
    requires Grouped(seen) && n <= |seen.fields|
    ensures multiset(Selected(seen, request, fits, n))[e]
      == if e.group < n then Offered(seen, request, fits, e) else 0
    decreases n
  {
    if n > 0 {
      var before := Selected(seen, request, fits, n - 1);
      var here := Pick(n - 1, seen.fields[n - 1], request, fits);
      SelectedCounts(seen, request, fits, n - 1, e);
      PickCounts(n - 1, seen.fields[n - 1], request, fits, e);
      assert multiset(before + here) == multiset(before) + multiset(here);
      assert Selected(seen, request, fits, n)
        == before + if InDatasource(seen.datasources[n - 1], request) then here else [];
    }
  }

  ghost function Offered(seen: Observed, request: Request, fits: Filter, e: Entry): nat
    requires Grouped(seen) && e.group < |seen.fields|
  {
    if InDatasource(seen.datasources[e.group], request) && Chosen(e.field, request, fits)
    then multiset(seen.fields[e.group])[e.field]
    else 0
  }

  lemma SelectedExactly(seen: Observed, request: Request, fits: Filter)
    requires Grouped(seen)
    ensures SelectsExactly(seen, request, fits, Selected(seen, request, fits, |seen.fields|))
  {
    forall e: Entry
      ensures multiset(Selected(seen, request, fits, |seen.fields|))[e] == Copies(seen, request, fits, e)
    {
      SelectedCounts(seen, request, fits, |seen.fields|, e);
    }
  }

  function MatchingDatasources(seen: Observed, request: Request, n: nat): nat
    requires n <= |seen.datasources|
  {
    if n == 0 then 0
    else MatchingDatasources(seen, request, n - 1) + if InDatasource(seen.datasources[n - 1], request) then 1 else 0
  }

  function Hits(entries: seq<Entry>, id: Bytes): nat {
    if entries == [] then 0
    else Hits(entries[..|entries| - 1], id) + if entries[|entries| - 1].field.id == id then 1 else 0
  }

  predicate InventoryComplete(seen: Observed) {
    seen.complete && !seen.failed && forall ds <- seen.datasources :: ds.complete
  }

  predicate OutputComplete(seen: Observed, request: Request) {
    seen.complete && forall ds <- seen.datasources :: InDatasource(ds, request) ==> ds.complete
  }

  predicate SelectionIncomplete(seen: Observed, request: Request) {
    !InventoryComplete(seen) && (request.datasource != [] || request.fieldIds != [])
  }

  // ----- Order -----

  /** Dictionary order on lists of texts. */
  predicate KeyBefore(a: seq<Bytes>, b: seq<Bytes>) {
    a == [] || (b != [] && if a[0] == b[0] then KeyBefore(a[1..], b[1..]) else Before(a[0], b[0]))
  }

  lemma {:induction false} KeyTotal(a: seq<Bytes>, b: seq<Bytes>)
    ensures KeyBefore(a, b) || KeyBefore(b, a)
    decreases |a|
  {
    if a != [] && b != [] {
      BeforeTotal(a[0], b[0]);
      KeyTotal(a[1..], b[1..]);
    }
  }

  lemma {:induction false} KeyTransitive(a: seq<Bytes>, b: seq<Bytes>, c: seq<Bytes>)
    requires KeyBefore(a, b) && KeyBefore(b, c)
    ensures KeyBefore(a, c)
    decreases |a|
  {
    if a != [] {
      if a[0] == b[0] && b[0] == c[0] {
        KeyTransitive(a[1..], b[1..], c[1..]);
      } else if a[0] != b[0] && b[0] != c[0] {
        BeforeTransitive(a[0], b[0], c[0]);
        if a[0] == c[0] {
          BeforeAntisymmetric(a[0], b[0]);
        }
      }
    }
  }

  function Key(datasources: seq<Datasource>, e: Entry): (key: seq<Bytes>)
    requires e.group < |datasources|
    ensures |key| == 4
  {
    [datasources[e.group].metadataId, e.field.table, e.field.caption, e.field.id]
  }

  /** The order of a listing: by the datasource's metadata identifier, then by table, caption and field identifier. */
  lemma KeyMeans(datasources: seq<Datasource>, a: Entry, b: Entry)
    requires a.group < |datasources| && b.group < |datasources|
    ensures var x, y := datasources[a.group].metadataId, datasources[b.group].metadataId;
      KeyBefore(Key(datasources, a), Key(datasources, b)) <==>
        if x != y then Before(x, y)
        else if a.field.table != b.field.table then Before(a.field.table, b.field.table)
        else if a.field.caption != b.field.caption then Before(a.field.caption, b.field.caption)
        else a.field.id == b.field.id || Before(a.field.id, b.field.id)
  {
    var k, l := Key(datasources, a), Key(datasources, b);
    assert KeyBefore(k, l) == if k[0] == l[0] then KeyBefore(k[1..], l[1..]) else Before(k[0], l[0]);
    assert KeyBefore(k[1..], l[1..]) == if k[1] == l[1] then KeyBefore(k[2..], l[2..]) else Before(k[1], l[1]) by {
      assert k[1..][1..] == k[2..] && l[1..][1..] == l[2..];
    }
    assert KeyBefore(k[2..], l[2..]) == if k[2] == l[2] then KeyBefore(k[3..], l[3..]) else Before(k[2], l[2]) by {
      assert k[2..][1..] == k[3..] && l[2..][1..] == l[3..];
    }
    assert KeyBefore(k[3..], l[3..]) == if k[3] == l[3] then true else Before(k[3], l[3]) by {
      assert k[3..][1..] == [] && l[3..][1..] == [];
    }
  }

  ghost predicate Ordered(datasources: seq<Datasource>, entries: seq<Entry>) {
    && (forall e <- entries :: e.group < |datasources|)
    && forall i, j | 0 <= i < j < |entries| :: KeyBefore(Key(datasources, entries[i]), Key(datasources, entries[j]))
  }

  /** Exactly the fields that are asked for, sorted; fields with equal keys may come in any order. */
  ghost predicate SortedSelection(seen: Observed, request: Request, fits: Filter, sorted: seq<Entry>) {
    Ordered(seen.datasources, sorted) && SelectsExactly(seen, request, fits, sorted)
  }

  method SortEntries(datasources: seq<Datasource>, entries: seq<Entry>) returns (sorted: seq<Entry>)
    requires forall e <- entries :: e.group < |datasources|
    ensures Ordered(datasources, sorted) && multiset(sorted) == multiset(entries)
  {
    sorted := [];
    for i := 0 to |entries|
      invariant Ordered(datasources, sorted) && multiset(sorted) == multiset(entries[..i])
    {
      assert entries[..i + 1] == entries[..i] + [entries[i]];
      sorted := InsertEntry(datasources, sorted, entries[i]);
    }
    assert entries[..|entries|] == entries;
  }

  method InsertEntry(datasources: seq<Datasource>, sorted: seq<Entry>, e: Entry) returns (r: seq<Entry>)
    requires Ordered(datasources, sorted) && e.group < |datasources|
    ensures Ordered(datasources, r) && multiset(r) == multiset(sorted) + multiset{e}
  {
    var i := |sorted|;
    while i > 0 && !KeyBefore(Key(datasources, sorted[i - 1]), Key(datasources, e))
      invariant 0 <= i <= |sorted|
      invariant forall j | i <= j < |sorted| :: KeyBefore(Key(datasources, e), Key(datasources, sorted[j]))
    {
      KeyTotal(Key(datasources, sorted[i - 1]), Key(datasources, e));
      i := i - 1;
    }
    PrefixBefore(datasources, sorted, i, e);
    InsertedOrdered(datasources, sorted, i, e);
    r := sorted[..i] + [e] + sorted[i..];
  }

  lemma PrefixBefore(datasources: seq<Datasource>, sorted: seq<Entry>, i: nat, e: Entry)
    requires Ordered(datasources, sorted) && e.group < |datasources| && i <= |sorted|
    requires i > 0 ==> KeyBefore(Key(datasources, sorted[i - 1]), Key(datasources, e))
    ensures forall j | 0 <= j < i :: KeyBefore(Key(datasources, sorted[j]), Key(datasources, e))
  {
    forall j | 0 <= j < i
      ensures KeyBefore(Key(datasources, sorted[j]), Key(datasources, e))
    {
      if j < i - 1 {
        KeyTransitive(Key(datasources, sorted[j]), Key(datasources, sorted[i - 1]), Key(datasources, e));
      }
    }
  }

  ghost predicate Pairwise(entries: seq<Entry>, order: (Entry, Entry) -> bool) {
    forall i, j | 0 <= i < j < |entries| :: order(entries[i], entries[j])
  }

  /** An entry inserted after those before it and before those after it keeps a list in order. */
  lemma InsertedPairwise(sorted: seq<Entry>, i: nat, e: Entry, order: (Entry, Entry) -> bool)
    requires Pairwise(sorted, order) && i <= |sorted|
    requires forall j | 0 <= j < i :: order(sorted[j], e)
    requires forall j | i <= j < |sorted| :: order(e, sorted[j])
    ensures Pairwise(sorted[..i] + [e] + sorted[i..], order)
  {
  }

  predicate EntryBefore(datasources: seq<Datasource>, a: Entry, b: Entry) {
    && a.group < |datasources| && b.group < |datasources|
    && KeyBefore(Key(datasources, a), Key(datasources, b))
  }

  lemma OrderedPairwise(datasources: seq<Datasource>, entries: seq<Entry>)
    requires forall e <- entries :: e.group < |datasources|
    ensures Ordered(datasources, entries) <==> Pairwise(entries, (a, b) => EntryBefore(datasources, a, b))
  {
  }

  lemma InsertedMembers(sorted: seq<Entry>, i: nat, e: Entry)
    requires i <= |sorted|
    ensures var r := sorted[..i] + [e] + sorted[i..];
      multiset(r) == multiset(sorted) + multiset{e} && forall x <- r :: x == e || x in sorted
  {
    assert sorted == sorted[..i] + sorted[i..];
  }

  lemma InsertedOrdered(datasources: seq<Datasource>, sorted: seq<Entry>, i: nat, e: Entry)
    requires Ordered(datasources, sorted) && e.group < |datasources| && i <= |sorted|
    requires forall j | 0 <= j < i :: KeyBefore(Key(datasources, sorted[j]), Key(datasources, e))
    requires forall j | i <= j < |sorted| :: KeyBefore(Key(datasources, e), Key(datasources, sorted[j]))
    ensures var r := sorted[..i] + [e] + sorted[i..];
      Ordered(datasources, r) && multiset(r) == multiset(sorted) + multiset{e}
  {
    InsertedMembers(sorted, i, e);
    OrderedPairwise(datasources, sorted);
    InsertedPairwise(sorted, i, e, (a, b) => EntryBefore(datasources, a, b));
    OrderedPairwise(datasources, sorted[..i] + [e] + sorted[i..]);
  }

  // ----- Grouping -----

  /** Consecutive entries of one datasource become one group. */
  function Regroup(window: seq<Entry>, request: Request, project: Projection): seq<Group> {
    if window == [] then []
    else
      var groups := Regroup(window[..|window| - 1], request, project);
      Extend(groups, window[|window| - 1], request, project)
  }

  function Extend(groups: seq<Group>, e: Entry, request: Request, project: Projection): seq<Group> {
    var shown := project(e.field, request.descriptions, request.tags);
    if groups != [] && groups[|groups| - 1].group == e.group then
      groups[..|groups| - 1] + [Group(e.group, groups[|groups| - 1].fields + [shown])]
    else
      groups + [Group(e.group, [shown])]
  }

  function Shown(entries: seq<Entry>, request: Request, project: Projection): (shown: seq<Entry>)
    ensures |shown| == |entries|
  {
    seq(|entries|, i requires 0 <= i < |entries| =>
      Entry(entries[i].group, project(entries[i].field, request.descriptions, request.tags)))
  }

  /** The entries of a group, in order. */
  function Entries(g: Group): (entries: seq<Entry>)
    ensures |entries| == |g.fields|
  {
    seq(|g.fields|, i requires 0 <= i < |g.fields| => Entry(g.group, g.fields[i]))
  }

  function Flatten(groups: seq<Group>): seq<Entry> {
    if groups == [] then [] else Flatten(groups[..|groups| - 1]) + Entries(groups[|groups| - 1])
  }

  lemma ExtendFlattens(groups: seq<Group>, e: Entry, request: Request, project: Projection)
    ensures Flatten(Extend(groups, e, request, project)) == Flatten(groups) + Shown([e], request, project)
  {
    var shown := project(e.field, request.descriptions, request.tags);
    var extended := Extend(groups, e, request, project);
    var init, last := extended[..|extended| - 1], extended[|extended| - 1];
    if groups != [] && groups[|groups| - 1].group == e.group {
      assert init == groups[..|groups| - 1];
      assert Entries(last) == Entries(groups[|groups| - 1]) + [Entry(e.group, shown)];
    } else {
      assert init == groups;
      assert Entries(last) == [Entry(e.group, shown)];
    }
    assert Shown([e], request, project) == [Entry(e.group, shown)];
  }

  /** Flattening the groups gives back the window. */
  lemma {:induction false} FlattenRegroup(window: seq<Entry>, request: Request, project: Projection)
    ensures Flatten(Regroup(window, request, project)) == Shown(window, request, project)
    decreases |window|
  {
    if window != [] {
      var init, e := window[..|window| - 1], window[|window| - 1];
      FlattenRegroup(init, request, project);
      ExtendFlattens(Regroup(init, request, project), e, request, project);
      ShownLast(window, request, project);
    }
  }

  lemma ShownLast(window: seq<Entry>, request: Request, project: Projection)
    requires window != []
    ensures Shown(window, request, project)
      == Shown(window[..|window| - 1], request, project) + Shown([window[|window| - 1]], request, project)
  {
  }

  ghost predicate DistinctMetadata(datasources: seq<Datasource>) {
    forall i, j | 0 <= i < j < |datasources| :: datasources[i].metadataId != datasources[j].metadataId
  }

  ghost predicate GroupsOnce(groups: seq<Group>) {
    forall i, j | 0 <= i < j < |groups| :: groups[i].group != groups[j].group
  }

  /** An earlier entry of the last entry's datasource means the one before the last is of it too. */
  lemma SameGroupBetween(datasources: seq<Datasource>, window: seq<Entry>, k: nat)
    requires Ordered(datasources, window) && DistinctMetadata(datasources) && k < |window| - 1
    ensures window[k].group == window[|window| - 1].group ==> window[|window| - 2].group == window[|window| - 1].group
  {
    var n := |window|;
    if window[k].group == window[n - 1].group && k < n - 2 {
      var a, b := datasources[window[k].group].metadataId, datasources[window[n - 2].group].metadataId;
      assert KeyBefore(Key(datasources, window[k]), Key(datasources, window[n - 2]));
      assert KeyBefore(Key(datasources, window[n - 2]), Key(datasources, window[n - 1]));
      if a != b {
        BeforeAntisymmetric(a, b);
      }
    }
  }

  lemma {:induction false} GroupsFromWindow(window: seq<Entry>, request: Request, project: Projection)
    ensures var groups := Regroup(window, request, project);
      && (forall i | 0 <= i < |groups| :: exists k :: 0 <= k < |window| && window[k].group == groups[i].group)
      && (groups == [] <==> window == [])
      && (groups != [] ==> groups[|groups| - 1].group == window[|window| - 1].group)
    decreases |window|
  {
    if window != [] {
      var init, last := window[..|window| - 1], |window| - 1;
      GroupsFromWindow(init, request, project);
      var before, groups := Regroup(init, request, project), Regroup(window, request, project);
      forall i | 0 <= i < |groups|
        ensures exists k :: 0 <= k < |window| && window[k].group == groups[i].group
      {
        if i < |before| && groups[i].group == before[i].group {
          var k :| 0 <= k < |init| && init[k].group == before[i].group;
          assert window[k].group == groups[i].group;
        } else {
          assert window[last].group == groups[i].group;
        }
      }
    }
  }

  /** Extending groups splits no datasource if only the last group can be of the entry's. */
  lemma ExtendOnce(groups: seq<Group>, e: Entry, request: Request, project: Projection)
    requires GroupsOnce(groups)
    requires forall i | 0 <= i < |groups| && groups[i].group == e.group :: groups[|groups| - 1].group == e.group
    ensures GroupsOnce(Extend(groups, e, request, project))
  {
    var extended := Extend(groups, e, request, project);
    if groups != [] && groups[|groups| - 1].group == e.group {
      assert |extended| == |groups|;
      assert forall i | 0 <= i < |extended| :: extended[i].group == groups[i].group;
    } else {
      assert forall i | 0 <= i < |groups| :: groups[i].group != e.group && extended[i] == groups[i];
    }
  }

  /** No entry before the last but one is of the last entry's datasource unless that one is. */
  ghost predicate EndsTogether(window: seq<Entry>)
    requires window != []
  {
    var last := window[|window| - 1].group;
    forall k | 0 <= k < |window| - 1 && window[k].group == last :: window[|window| - 2].group == last
  }

  lemma OrderedEndsTogether(datasources: seq<Datasource>, window: seq<Entry>)
    requires Ordered(datasources, window) && DistinctMetadata(datasources) && window != []
    ensures EndsTogether(window)
  {
    forall k | 0 <= k < |window| - 1 && window[k].group == window[|window| - 1].group
      ensures window[|window| - 2].group == window[|window| - 1].group
    {
      SameGroupBetween(datasources, window, k);
    }
  }

  /** If any group is of the last entry's datasource, the last group is. */
  lemma LastGroupOnly(window: seq<Entry>, groups: seq<Group>, request: Request, project: Projection)
    requires window != [] && EndsTogether(window)
    requires groups == Regroup(window[..|window| - 1], request, project)
    ensures forall i | 0 <= i < |groups| && groups[i].group == window[|window| - 1].group ::
      groups[|groups| - 1].group == window[|window| - 1].group
  {
    var init, e := window[..|window| - 1], window[|window| - 1];
    GroupsFromWindow(init, request, project);
    forall i | 0 <= i < |groups| && groups[i].group == e.group
      ensures groups[|groups| - 1].group == e.group
    {
      var k :| 0 <= k < |init| && init[k].group == groups[i].group;
      assert window[k].group == e.group;
    }
  }

  /** When the metadata identifiers are distinct, no datasource appears in two groups of a page. */
  lemma {:induction false} RegroupOnce(
    datasources: seq<Datasource>, window: seq<Entry>, request: Request, project: Projection)
    requires Ordered(datasources, window) && DistinctMetadata(datasources)
    ensures GroupsOnce(Regroup(window, request, project))
    decreases |window|
  {
    if window != [] {
      var init, e := window[..|window| - 1], window[|window| - 1];
      PrefixOrdered(datasources, window, |window| - 1);
      RegroupOnce(datasources, init, request, project);
      var groups := Regroup(init, request, project);
      OrderedEndsTogether(datasources, window);
      LastGroupOnly(window, groups, request, project);
      ExtendOnce(groups, e, request, project);
    }
  }

  lemma PrefixOrdered(datasources: seq<Datasource>, entries: seq<Entry>, n: nat)
    requires Ordered(datasources, entries) && n <= |entries|
    ensures Ordered(datasources, entries[..n])
  {
    SliceOrdered(datasources, entries, 0, n);
    assert entries[0..n] == entries[..n];
  }

  // ----- The answer -----

  function FingerprintOf(seen: Observed, input: Input, ids: seq<Bytes>, sorted: seq<Entry>): Fingerprint {
    Fingerprint(
      input.request.(query := TrimSpace(input.request.query), fieldIds := ids), input.all, seen.datasources, sorted)
  }

  function Limit(input: Input): (limit: int)
    ensures ValidInput(input) ==> 1 <= limit <= MAX_FIELDS
  {
    if input.all then MAX_FIELDS else if input.limit == 0 then DEFAULT_LIMIT else input.limit
  }

  function Offset(input: Input): int {
    if input.cursor.Readable? then input.cursor.offset else 0
  }

  function End(input: Input, sorted: seq<Entry>): int {
    Min(Offset(input) + Limit(input), |sorted|)
  }

  predicate BadDatasource(seen: Observed, request: Request) {
    var matching := MatchingDatasources(seen, request, |seen.datasources|);
    request.datasource != [] && (matching > 1 || (matching == 0 && InventoryComplete(seen)))
  }

  predicate BadFields(seen: Observed, request: Request, entries: seq<Entry>) {
    exists id <- request.fieldIds :: Hits(entries, id) > 1 || (Hits(entries, id) == 0 && InventoryComplete(seen))
  }

  /** Why a call is refused before anything is sorted. */
  function Refusal(seen: Observed, input: Input, fits: Filter): (refusal: Option<Error>)
    ensures refusal.None? ==> ValidInput(input) && Grouped(seen)
  {
    if !ValidInput(input) then Some(InvalidInput)
    else if !Identified(seen, input.request) then Some(if seen.failed then ReadFailed else IdentityIncomplete)
    else if BadDatasource(seen, input.request) then Some(DatasourceCount)
    else if BadFields(seen, input.request, Selected(seen, input.request, fits, |seen.fields|)) then Some(FieldCount)
    else None
  }

  // ----- What is refused -----

  ghost predicate Named(seen: Observed, name: Bytes, k: nat) {
    k < |seen.datasources| && seen.datasources[k].name == name
  }

  /** Exactly one datasource has the name, or none has and the inventory may miss one. */
  ghost predicate DatasourceSettled(seen: Observed, name: Bytes) {
    || (exists k: nat :: Named(seen, name, k) && forall j: nat :: Named(seen, name, j) ==> j == k)
    || (!InventoryComplete(seen) && forall j: nat :: !Named(seen, name, j))
  }

  /** Exactly one field is selected for the identifier, or none is and the inventory may miss one. */
  ghost predicate FieldSettled(seen: Observed, request: Request, fits: Filter, id: Bytes) {
    || (exists e: Entry :: e.field.id == id && Copies(seen, request, fits, e) == 1
          && forall o: Entry :: o.field.id == id && o != e ==> Copies(seen, request, fits, o) == 0)
    || (!InventoryComplete(seen) && forall o: Entry :: o.field.id == id ==> Copies(seen, request, fits, o) == 0)
  }

  lemma {:induction false} HitsMeaning(entries: seq<Entry>, id: Bytes) returns (first: Option<Entry>)
    ensures Hits(entries, id) == 0 <==> first.None?
    ensures first.None? ==> forall e: Entry :: e.field.id == id ==> multiset(entries)[e] == 0
    ensures first.Some? ==> first.value.field.id == id && multiset(entries)[first.value] > 0
    ensures first.Some? ==> (Hits(entries, id) == 1 <==> (
      && multiset(entries)[first.value] == 1
      && forall o: Entry :: o.field.id == id && o != first.value ==> multiset(entries)[o] == 0))
    decreases |entries|
  {
    if entries == [] {
      return None;
    }
    var init, last := entries[..|entries| - 1], entries[|entries| - 1];
    assert entries == init + [last];
    first := HitsMeaning(init, id);
    if first.None? && last.field.id == id {
      first := Some(last);
    }
  }

  lemma {:induction false} MatchingMeaning(seen: Observed, request: Request, n: nat) returns (first: nat)
    requires n <= |seen.datasources| && request.datasource != []
    ensures MatchingDatasources(seen, request, n) == 0 <==> forall j: nat | j < n :: !Named(seen, request.datasource, j)
    ensures MatchingDatasources(seen, request, n) > 0 ==> first < n && Named(seen, request.datasource, first)
    ensures MatchingDatasources(seen, request, n) == 1 <==> (
      && first < n && Named(seen, request.datasource, first)
      && forall j: nat | j < n && Named(seen, request.datasource, j) :: j == first)
    decreases n
  {
    if n == 0 {
      return 0;
    }
    first := MatchingMeaning(seen, request, n - 1);
    assert Named(seen, request.datasource, n - 1) <==> InDatasource(seen.datasources[n - 1], request);
    if MatchingDatasources(seen, request, n - 1) == 0 {
      first := n - 1;
    }
  }

  lemma BadDatasourceIff(seen: Observed, request: Request)
    ensures BadDatasource(seen, request) <==> request.datasource != [] && !DatasourceSettled(seen, request.datasource)
  {
    if request.datasource != [] {
      var first := MatchingMeaning(seen, request, |seen.datasources|);
      var matching := MatchingDatasources(seen, request, |seen.datasources|);
      if matching == 0 {
        assert forall j: nat :: !Named(seen, request.datasource, j);
      }
    }
  }

  lemma FieldSettledIff(seen: Observed, request: Request, fits: Filter, entries: seq<Entry>, id: Bytes)
    requires SelectsExactly(seen, request, fits, entries)
    ensures FieldSettled(seen, request, fits, id)
      <==> Hits(entries, id) == 1 || (Hits(entries, id) == 0 && !InventoryComplete(seen))
  {
    var first := HitsMeaning(entries, id);
  }

  /** A call is refused before sorting exactly if its input is invalid, the workbook is another or its fields are
      not grouped, the named datasource is not settled, or else some identifier is not. */
  lemma RefusedIff(seen: Observed, input: Input, fits: Filter)
    ensures var refusal, request := Refusal(seen, input, fits), input.request;
      var identified := seen.luid == request.workbook && seen.metadataId != [] && |seen.fields| == |seen.datasources|;
      var datasource := request.datasource == [] || DatasourceSettled(seen, request.datasource);
      var fields := forall id <- request.fieldIds :: FieldSettled(seen, request, fits, id);
      && (refusal == Some(InvalidInput) <==> !ValidInput(input))
      && (refusal == Some(ReadFailed) <==> ValidInput(input) && !identified && seen.failed)
      && (refusal == Some(IdentityIncomplete) <==> ValidInput(input) && !identified && !seen.failed)
      && (refusal == Some(DatasourceCount) <==> ValidInput(input) && identified && !datasource)
      && (refusal == Some(FieldCount) <==> ValidInput(input) && identified && datasource && !fields)
      && (refusal == None <==> ValidInput(input) && identified && datasource && fields)
  {
    var request := input.request;
    BadDatasourceIff(seen, request);
    if Grouped(seen) {
      var entries := Selected(seen, request, fits, |seen.fields|);
      SelectedExactly(seen, request, fits);
      forall id <- request.fieldIds
        ensures FieldSettled(seen, request, fits, id)
          <==> Hits(entries, id) == 1 || (Hits(entries, id) == 0 && !InventoryComplete(seen))
      {
        FieldSettledIff(seen, request, fits, entries, id);
      }
    }
  }

  predicate Mismatch(input: Input, fingerprint: Fingerprint, total: nat) {
    input.cursor.Readable? && (input.cursor.fingerprint != Some(fingerprint) || input.cursor.offset > total)
  }

  /** What one call answers, once the selection and the field identifiers are sorted. */
  function Answer(
    seen: Observed, input: Input, fits: Filter, project: Projection, ids: seq<Bytes>, sorted: seq<Entry>): Outcome
  {
    var refusal := Refusal(seen, input, fits);
    if refusal.Some? then Rejected(refusal.value) else Windowed(seen, input, project, ids, sorted)
  }

  /** The window of a call that was not refused. */
  function Windowed(seen: Observed, input: Input, project: Projection, ids: seq<Bytes>, sorted: seq<Entry>): Outcome
    requires ValidInput(input)
  {
    var fingerprint := FingerprintOf(seen, input, ids, sorted);
    if Mismatch(input, fingerprint, |sorted|) then Rejected(CursorMismatch)
    else if input.all && |sorted| > MAX_FIELDS then Rejected(TooMany)
    else
      var incomplete := seen.failed || SelectionIncomplete(seen, input.request);
      var window := sorted[Offset(input)..End(input, sorted)];
      var page := PageOf(input, fingerprint, |window|, |sorted|, OutputComplete(seen, input.request) && !seen.failed);
      var groups := Regroup(window, input.request, project);
      if incomplete then Partial(Output(groups, page, false))
      else Listed(Output(groups, page, OutputComplete(seen, input.request)))
  }

  /** What a page of `returned` items says of itself. */
  function PageOf(input: Input, fingerprint: Fingerprint, returned: nat, total: nat, totalComplete: bool): Page
    requires ValidInput(input)
  {
    var end := Offset(input) + returned;
    var next := if end < total then Some(Cursor(end, fingerprint)) else None;
    Page(returned, total, totalComplete, Limit(input), next)
  }

  // ----- The call -----

  /** The matching ones of the first n datasources are complete, as is the list of them. */
  ghost predicate CompleteSoFar(seen: Observed, request: Request, n: nat)
    requires n <= |seen.datasources|
  {
    && seen.complete
    && forall k | 0 <= k < n :: InDatasource(seen.datasources[k], request) ==> seen.datasources[k].complete
  }

  lemma CompleteAll(seen: Observed, request: Request)
    ensures CompleteSoFar(seen, request, |seen.datasources|) <==> OutputComplete(seen, request)
  {
  }

  function ZeroCounts(ids: seq<Bytes>): (counts: map<Bytes, nat>)
    ensures Counted(counts, ids, [])
  {
    map id <- ids :: 0
  }

  /** One pass over the datasources. */
  method Select(seen: Observed, request: Request, fits: Filter)
      returns (selected: seq<Entry>, groupMatches: nat, counts: map<Bytes, nat>, complete: bool)
    requires Grouped(seen)
    ensures selected == Selected(seen, request, fits, |seen.fields|) && SelectsExactly(seen, request, fits, selected)
    ensures groupMatches == MatchingDatasources(seen, request, |seen.datasources|)
    ensures Counted(counts, request.fieldIds, selected)
    ensures complete == OutputComplete(seen, request)
  {
    selected, groupMatches, complete := [], 0, seen.complete;
    counts := ZeroCounts(request.fieldIds);
    for g := 0 to |seen.datasources|
      invariant selected == Selected(seen, request, fits, g)
      invariant groupMatches == MatchingDatasources(seen, request, g)
      invariant Counted(counts, request.fieldIds, selected)
      invariant complete <==> CompleteSoFar(seen, request, g)
    {
      var ds := seen.datasources[g];
      if InDatasource(ds, request) {
        groupMatches := groupMatches + 1;
        complete := complete && ds.complete;
        selected, counts := SelectFields(g, seen.fields[g], request, fits, selected, counts);
      }
    }
    CompleteAll(seen, request);
    SelectedExactly(seen, request, fits);
  }

  /** How often each identifier that was asked for was selected. */
  ghost predicate Counted(counts: map<Bytes, nat>, ids: seq<Bytes>, selected: seq<Entry>) {
    && (forall id :: id in counts <==> id in ids)
    && forall id <- counts.Keys :: counts[id] == Hits(selected, id)
  }

  function CountOne(counts: map<Bytes, nat>, id: Bytes): map<Bytes, nat> {
    if id in counts then counts[id := counts[id] + 1] else counts
  }

  lemma CountedMore(counts: map<Bytes, nat>, ids: seq<Bytes>, selected: seq<Entry>, e: Entry)
    requires Counted(counts, ids, selected)
    ensures Counted(CountOne(counts, e.field.id), ids, selected + [e])
  {
    assert (selected + [e])[..|selected|] == selected;
  }

  /** One field of a datasource. */
  method SelectField(
    g: nat, f: Field, request: Request, fits: Filter, before: seq<Entry>, countsBefore: map<Bytes, nat>)
      returns (selected: seq<Entry>, counts: map<Bytes, nat>)
    requires Counted(countsBefore, request.fieldIds, before)
    ensures selected == before + if Chosen(f, request, fits) then [Entry(g, f)] else []
    ensures Counted(counts, request.fieldIds, selected)
  {
    selected, counts := before, countsBefore;
    if !fits(f, TrimSpace(request.query), request.role) {
      return;
    }
    if |request.fieldIds| > 0 {
      if f.id !in counts {
        return;
      }
      counts := counts[f.id := counts[f.id] + 1];
    }
    assert counts == CountOne(countsBefore, f.id);
    CountedMore(countsBefore, request.fieldIds, before, Entry(g, f));
    selected := selected + [Entry(g, f)];
  }

  /** The pass over one datasource's fields. */
  method SelectFields(
    g: nat, fields: seq<Field>, request: Request, fits: Filter, before: seq<Entry>, countsBefore: map<Bytes, nat>)
      returns (selected: seq<Entry>, counts: map<Bytes, nat>)
    requires Counted(countsBefore, request.fieldIds, before)
    ensures selected == before + Pick(g, fields, request, fits)
    ensures Counted(counts, request.fieldIds, selected)
  {
    selected, counts := before, countsBefore;
    for i := 0 to |fields|
      invariant selected == before + Pick(g, fields[..i], request, fits)
      invariant Counted(counts, request.fieldIds, selected)
    {
      assert fields[..i + 1][..i] == fields[..i];
      selected, counts := SelectField(g, fields[i], request, fits, selected, counts);
    }
    assert fields[..|fields|] == fields;
  }

  function LastGroup(groups: seq<Group>): int {
    if groups == [] then -1 else groups[|groups| - 1].group
  }

  /** Adding one entry to the groups; a new group is opened unless the entry is of the last one's datasource. */
  method AppendItem(before: seq<Group>, lastGroup: int, item: Entry, request: Request, project: Projection)
      returns (groups: seq<Group>)
    requires lastGroup == LastGroup(before)
    ensures groups == Extend(before, item, request, project) && LastGroup(groups) == item.group
  {
    groups := before;
    if item.group != lastGroup {
      groups := groups + [Group(item.group, [])];
    }
    var f := project(item.field, request.descriptions, request.tags);
    var last := |groups| - 1;
    assert [] + [f] == [f];
    groups := groups[last := Group(groups[last].group, groups[last].fields + [f])];
  }

  /** The regrouping loop. */
  method GroupWindow(window: seq<Entry>, request: Request, project: Projection) returns (groups: seq<Group>)
    ensures groups == Regroup(window, request, project)
  {
    groups := [];
    var lastGroup: int := -1;
    for i := 0 to |window|
      invariant groups == Regroup(window[..i], request, project)
      invariant lastGroup == LastGroup(groups)
    {
      assert window[..i + 1][..i] == window[..i];
      groups := AppendItem(groups, lastGroup, window[i], request, project);
      lastGroup := window[i].group;
    }
    assert window[..|window|] == window;
  }

  /** The checks before sorting. */
  method Check(seen: Observed, input: Input, fits: Filter)
      returns (refusal: Option<Error>, selected: seq<Entry>, complete: bool)
    ensures refusal == Refusal(seen, input, fits)
    ensures refusal.None? ==>
      && selected == Selected(seen, input.request, fits, |seen.fields|)
      && SelectsExactly(seen, input.request, fits, selected)
      && complete == OutputComplete(seen, input.request)
  {
    if !ValidInput(input) {
      return Some(InvalidInput), [], false;
    }
    if !Identified(seen, input.request) {
      return Some(if seen.failed then ReadFailed else IdentityIncomplete), [], false;
    }
    var request := input.request;
    var inventoryComplete := InventoryComplete(seen);
    var groupMatches: nat, counts: map<Bytes, nat>;
    selected, groupMatches, counts, complete := Select(seen, request, fits);
    if request.datasource != [] && (groupMatches > 1 || (groupMatches == 0 && inventoryComplete)) {
      return Some(DatasourceCount), [], false;
    }
    if exists id <- counts.Keys :: counts[id] > 1 || (counts[id] == 0 && inventoryComplete) {
      return Some(FieldCount), [], false;
    }
    refusal := None;
  }

  /** The window, once everything is sorted. */
  method Respond(
    seen: Observed, input: Input, project: Projection, ids: seq<Bytes>, sorted: seq<Entry>, complete: bool)
      returns (outcome: Outcome)
    requires ValidInput(input) && complete == OutputComplete(seen, input.request)
    ensures outcome == Windowed(seen, input, project, ids, sorted)
  {
    var fingerprint := FingerprintOf(seen, input, ids, sorted);
    if Mismatch(input, fingerprint, |sorted|) {
      return Rejected(CursorMismatch);
    }
    if input.all && |sorted| > Limit(input) {
      return Rejected(TooMany);
    }
    var incomplete := seen.failed || SelectionIncomplete(seen, input.request);
    var window := sorted[Offset(input)..End(input, sorted)];
    var page := Page(|window|, |sorted|, complete && !seen.failed, Limit(input), None);
    if Offset(input) + |window| < |sorted| {
      page := page.(next := Some(Cursor(Offset(input) + |window|, fingerprint)));
    }
    var groups := GroupWindow(window, input.request, project);
    return if incomplete then Partial(Output(groups, page, false)) else Listed(Output(groups, page, complete));
  }

  /** One call. The sorts are free to order equal keys as they like. */
  method Schema(seen: Observed, input: Input, fits: Filter, project: Projection)
      returns (outcome: Outcome, ids: seq<Bytes>, sorted: seq<Entry>)
    ensures Refusal(seen, input, fits).None? ==> SortedSelection(seen, input.request, fits, sorted)
    ensures Refusal(seen, input, fits).None? ==> Sorted(ids) && multiset(ids) == multiset(input.request.fieldIds)
    ensures outcome == Answer(seen, input, fits, project, ids, sorted)
  {
    var refusal, selected, complete := Check(seen, input, fits);
    if refusal.Some? {
      return Rejected(refusal.value), [], [];
    }
    sorted := SortEntries(seen.datasources, selected);
    ids := Sort(input.request.fieldIds);
    outcome := Respond(seen, input, project, ids, sorted, complete);
  }

  // ----- Following cursors -----

  /** One call of a walk: what was seen, what was asked, and how the sorts came out. */
  datatype Step = Step(seen: Observed, input: Input, ids: seq<Bytes>, sorted: seq<Entry>)

  function AnswerOf(step: Step, fits: Filter, project: Projection): Outcome {
    Answer(step.seen, step.input, fits, project, step.ids, step.sorted)
  }

  function NextOf(step: Step, fits: Filter, project: Projection): Option<Cursor> {
    var answer := AnswerOf(step, fits, project);
    if answer.Rejected? then None else answer.out.page.next
  }

  /** Each call follows the cursor the call before it returned, and none is refused. Limits and
      what the remote shows may change from call to call. */
  ghost predicate Walk(steps: seq<Step>, fits: Filter, project: Projection) {
    && steps != []
    && steps[0].input.cursor.NoCursor?
    && (forall i | 0 <= i < |steps| :: !AnswerOf(steps[i], fits, project).Rejected?)
    && forall i | 0 < i < |steps| :: Linked(steps, i, fits, project)
  }

  ghost predicate Linked(steps: seq<Step>, i: nat, fits: Filter, project: Projection)
    requires 0 < i < |steps|
  {
    Follows(steps[i - 1], steps[i], fits, project)
  }

  ghost predicate Follows(before: Step, after: Step, fits: Filter, project: Projection) {
    var next := NextOf(before, fits, project);
    next.Some? && after.input.cursor == Readable(next.value.offset, Some(next.value.fingerprint))
  }

  /** The window of the sorted selection that a step shows. */
  function Window(step: Step): seq<Entry> {
    var offset, end := Offset(step.input), End(step.input, step.sorted);
    if 0 <= offset <= end then step.sorted[offset..end] else []
  }

  function Windows(steps: seq<Step>): seq<Entry> {
    if steps == [] then [] else Windows(steps[..|steps| - 1]) + Window(steps[|steps| - 1])
  }

  /** A later step that is not refused saw the same request, datasources and sorted selection. */
  lemma StepSameSelection(before: Step, after: Step, fits: Filter, project: Projection)
    requires !AnswerOf(before, fits, project).Rejected? && !AnswerOf(after, fits, project).Rejected?
    requires Follows(before, after, fits, project)
    ensures after.sorted == before.sorted && after.seen.datasources == before.seen.datasources
      && after.ids == before.ids
    ensures after.input.request.(query := [], fieldIds := []) == before.input.request.(query := [], fieldIds := [])
    ensures TrimSpace(after.input.request.query) == TrimSpace(before.input.request.query)
    ensures Offset(after.input) == End(before.input, before.sorted) < |before.sorted|
  {
    assert after.input.cursor.fingerprint == Some(FingerprintOf(after.seen, after.input, after.ids, after.sorted));
    var a, b :=
      FingerprintOf(after.seen, after.input, after.ids, after.sorted),
      FingerprintOf(before.seen, before.input, before.ids, before.sorted);
    assert a == b;
    assert a.request.(query := [], fieldIds := []) == after.input.request.(query := [], fieldIds := []);
    assert b.request.(query := [], fieldIds := []) == before.input.request.(query := [], fieldIds := []);
  }

  /** A step that is not refused shows a proper window, and offers a cursor unless it reached the end. */
  lemma StepWindow(step: Step, fits: Filter, project: Projection)
    requires !AnswerOf(step, fits, project).Rejected?
    ensures 0 <= Offset(step.input) <= End(step.input, step.sorted) <= |step.sorted|
    ensures Offset(step.input) < |step.sorted| ==> Offset(step.input) < End(step.input, step.sorted)
    ensures NextOf(step, fits, project).None? <==> End(step.input, step.sorted) == |step.sorted|
  {
    assert Refusal(step.seen, step.input, fits).None?;
    assert !Mismatch(step.input, FingerprintOf(step.seen, step.input, step.ids, step.sorted), |step.sorted|);
  }

  /** A step's window starts where the one before it ended. */
  ghost predicate TileAt(steps: seq<Step>, sorted: seq<Entry>, i: nat)
    requires i < |steps|
  {
    && steps[i].sorted == sorted
    && 0 <= Offset(steps[i].input) <= End(steps[i].input, sorted) <= |sorted|
    && (sorted != [] ==> Offset(steps[i].input) < End(steps[i].input, sorted))
    && Offset(steps[i].input) == if i == 0 then 0 else End(steps[i - 1].input, sorted)
  }

  /** The steps show neighbouring windows of one list, from its start. */
  ghost predicate Tiled(steps: seq<Step>, sorted: seq<Entry>) {
    forall i: nat | i < |steps| :: TileAt(steps, sorted, i)
  }

  lemma TilePrefix(steps: seq<Step>, sorted: seq<Entry>, n: nat, i: nat)
    requires i < n <= |steps|
    ensures TileAt(steps[..n], sorted, i) <==> TileAt(steps, sorted, i)
  {
    assert steps[..n][i] == steps[i] && (i > 0 ==> steps[..n][i - 1] == steps[i - 1]);
  }

  lemma WalkPrefix(steps: seq<Step>, n: nat, fits: Filter, project: Projection)
    requires Walk(steps, fits, project) && 0 < n <= |steps|
    ensures Walk(steps[..n], fits, project)
  {
    forall i | 0 <= i < n
      ensures !AnswerOf(steps[..n][i], fits, project).Rejected?
    {
      assert steps[..n][i] == steps[i];
    }
    forall i | 0 < i < n
      ensures Linked(steps[..n], i, fits, project)
    {
      assert Linked(steps, i, fits, project);
    }
  }

  /** One more step of a walk. */
  lemma TileStep(steps: seq<Step>, n: nat, fits: Filter, project: Projection)
    requires 0 < n < |steps| && Follows(steps[n - 1], steps[n], fits, project)
    requires !AnswerOf(steps[n - 1], fits, project).Rejected? && !AnswerOf(steps[n], fits, project).Rejected?
    ensures TileAt(steps, steps[n - 1].sorted, n)
    ensures steps[n].seen.datasources == steps[n - 1].seen.datasources
  {
    StepSameSelection(steps[n - 1], steps[n], fits, project);
    StepWindow(steps[n], fits, project);
  }

  lemma TiledMore(steps: seq<Step>, sorted: seq<Entry>, n: nat)
    requires |steps| == n + 1 && Tiled(steps[..n], sorted) && TileAt(steps, sorted, n)
    ensures Tiled(steps, sorted)
  {
    forall i: nat | i < |steps|
      ensures TileAt(steps, sorted, i)
    {
      if i < n {
        assert TileAt(steps[..n], sorted, i);
        TilePrefix(steps, sorted, n, i);
      }
    }
  }

  lemma {:induction false} WalkTiled(steps: seq<Step>, fits: Filter, project: Projection)
    requires Walk(steps, fits, project)
    ensures Tiled(steps, steps[0].sorted)
    decreases |steps|
  {
    var n := |steps| - 1;
    if n == 0 {
      StepWindow(steps[0], fits, project);
    } else {
      WalkPrefix(steps, n, fits, project);
      WalkTiled(steps[..n], fits, project);
      assert TileAt(steps[..n], steps[0].sorted, n - 1);
      assert Linked(steps, n, fits, project);
      TileStep(steps, n, fits, project);
      TiledMore(steps, steps[0].sorted, n);
    }
  }

  ghost predicate SameAsBefore(steps: seq<Step>, i: nat)
    requires 0 < i < |steps|
  {
    steps[i].seen.datasources == steps[i - 1].seen.datasources
  }

  lemma {:induction false} SameAsFirst(steps: seq<Step>, i: nat)
    requires i < |steps| && forall j | 0 < j < |steps| :: SameAsBefore(steps, j)
    ensures steps[i].seen.datasources == steps[0].seen.datasources
  {
    if i > 0 {
      SameAsFirst(steps, i - 1);
      assert SameAsBefore(steps, i);
    }
  }

  /** Every step of a walk saw the datasources that the first one saw. */
  lemma WalkDatasources(steps: seq<Step>, fits: Filter, project: Projection, i: nat)
    requires Walk(steps, fits, project) && i < |steps|
    ensures steps[i].seen.datasources == steps[0].seen.datasources
  {
    forall j | 0 < j < |steps|
      ensures SameAsBefore(steps, j)
    {
      NeighbourDatasources(steps, fits, project, j);
    }
    SameAsFirst(steps, i);
  }

  lemma NeighbourDatasources(steps: seq<Step>, fits: Filter, project: Projection, i: nat)
    requires Walk(steps, fits, project) && 0 < i < |steps|
    ensures steps[i].seen.datasources == steps[i - 1].seen.datasources
  {
    assert Linked(steps, i, fits, project);
    StepSameSelection(steps[i - 1], steps[i], fits, project);
  }

  lemma TiledPrefix(steps: seq<Step>, sorted: seq<Entry>, n: nat)
    requires Tiled(steps, sorted) && n <= |steps|
    ensures Tiled(steps[..n], sorted)
  {
    forall i: nat | i < n
      ensures TileAt(steps[..n], sorted, i)
    {
      assert TileAt(steps, sorted, i);
      TilePrefix(steps, sorted, n, i);
    }
  }

  /** The window of a tile is the next part of the list. */
  lemma TileShows(steps: seq<Step>, sorted: seq<Entry>, n: nat)
    requires n < |steps| && TileAt(steps, sorted, n)
    ensures var offset, end := Offset(steps[n].input), End(steps[n].input, sorted);
      0 <= offset <= end <= |sorted| && sorted[..offset] + Window(steps[n]) == sorted[..end]
  {
    var offset, end := Offset(steps[n].input), End(steps[n].input, sorted);
    assert Window(steps[n]) == sorted[offset..end];
    assert sorted[..offset] + sorted[offset..end] == sorted[..end];
  }

  /** The steps before the last, and what the last one adds. */
  lemma TiledInit(steps: seq<Step>, sorted: seq<Entry>) returns (init: seq<Step>)
    requires Tiled(steps, sorted) && |steps| > 1
    ensures Tiled(init, sorted) && |init| == |steps| - 1 && init[|init| - 1] == steps[|steps| - 2]
    ensures Windows(steps) == Windows(init) + Window(steps[|steps| - 1])
  {
    init := steps[..|steps| - 1];
    TiledPrefix(steps, sorted, |steps| - 1);
  }

  lemma OneWindow(steps: seq<Step>)
    requires |steps| == 1
    ensures Windows(steps) == Window(steps[0])
  {
    assert Windows(steps[..0]) == [];
  }

  lemma {:induction false} TiledWindows(steps: seq<Step>, sorted: seq<Entry>)
    requires Tiled(steps, sorted) && steps != []
    ensures var end := End(steps[|steps| - 1].input, sorted);
      0 <= end <= |sorted| && Windows(steps) == sorted[..end] && (sorted != [] ==> |steps| <= end)
    decreases |steps|
  {
    var n := |steps| - 1;
    assert TileAt(steps, sorted, n);
    TileShows(steps, sorted, n);
    if n > 0 {
      var init := TiledInit(steps, sorted);
      TiledWindows(init, sorted);
    } else {
      OneWindow(steps);
    }
  }

  /** All steps of a walk sort the same selection of the same datasources. */
  lemma WalkSame(steps: seq<Step>, fits: Filter, project: Projection, i: nat)
    requires Walk(steps, fits, project) && i < |steps|
    ensures steps[i].sorted == steps[0].sorted && steps[i].seen.datasources == steps[0].seen.datasources
  {
    WalkTiled(steps, fits, project);
    assert TileAt(steps, steps[0].sorted, i);
    WalkDatasources(steps, fits, project, i);
  }

  /** The windows of a walk tile that selection once, in order; they are the whole
      of it exactly when the last step offers no cursor. */
  lemma WalkTiles(steps: seq<Step>, fits: Filter, project: Projection)
    requires Walk(steps, fits, project)
    ensures Windows(steps) <= steps[0].sorted
    ensures NextOf(steps[|steps| - 1], fits, project).None? <==> Windows(steps) == steps[0].sorted
    ensures var seen, request := steps[0].seen, steps[0].input.request;
      SortedSelection(seen, request, fits, steps[0].sorted) ==> (
        && (forall e: Entry :: multiset(Windows(steps))[e] <= Copies(seen, request, fits, e))
        && (NextOf(steps[|steps| - 1], fits, project).None? <==> SelectsExactly(seen, request, fits, Windows(steps))))
  {
    WalkTiled(steps, fits, project);
    TiledWindows(steps, steps[0].sorted);
    LastOffers(steps, fits, project);
    WholePrefix(steps[0].sorted, End(steps[|steps| - 1].input, steps[0].sorted));
    if SortedSelection(steps[0].seen, steps[0].input.request, fits, steps[0].sorted) {
      PrefixSelects(steps[0].seen, steps[0].input.request, fits, Windows(steps), steps[0].sorted);
    }
  }

  /** A prefix of a selection holds no entry too often, and every entry as often only if it is all of it. */
  lemma PrefixSelects(seen: Observed, request: Request, fits: Filter, prefix: seq<Entry>, list: seq<Entry>)
    requires prefix <= list && SelectsExactly(seen, request, fits, list)
    ensures forall e: Entry :: multiset(prefix)[e] <= Copies(seen, request, fits, e)
    ensures prefix == list <==> SelectsExactly(seen, request, fits, prefix)
  {
    var rest := list[|prefix|..];
    assert list == prefix + rest;
    if rest != [] {
      assert multiset(list)[rest[0]] == multiset(prefix)[rest[0]] + multiset(rest)[rest[0]];
    }
  }

  /** The last step of a walk offers no cursor exactly if it reached the end. */
  lemma LastOffers(steps: seq<Step>, fits: Filter, project: Projection)
    requires Walk(steps, fits, project)
    ensures NextOf(steps[|steps| - 1], fits, project).None?
      <==> End(steps[|steps| - 1].input, steps[0].sorted) == |steps[0].sorted|
  {
    WalkSame(steps, fits, project, |steps| - 1);
    StepWindow(steps[|steps| - 1], fits, project);
  }

  lemma WholePrefix(sorted: seq<Entry>, end: int)
    requires 0 <= end <= |sorted|
    ensures sorted[..end] <= sorted && (sorted[..end] == sorted <==> end == |sorted|)
  {
  }

  /** Every step of a walk makes progress, so a walk has no more steps than there are fields. */
  lemma WalkEnds(steps: seq<Step>, fits: Filter, project: Projection)
    requires Walk(steps, fits, project)
    ensures |steps| <= |steps[0].sorted| || |steps| == 1
  {
    if |steps| > 1 {
      assert Linked(steps, 1, fits, project);
      StepWindow(steps[0], fits, project);
      WalkTiled(steps, fits, project);
      TiledWindows(steps, steps[0].sorted);
    }
  }

  /** While the remote shows the same, a returned cursor is accepted with any limit. */
  lemma QuietFollowAccepted(before: Step, after: Step, fits: Filter, project: Projection)
    requires !AnswerOf(before, fits, project).Rejected? && Follows(before, after, fits, project)
    requires after.seen == before.seen && after.sorted == before.sorted && after.ids == before.ids
    requires after.input.request == before.input.request && !after.input.all && 0 <= after.input.limit <= MAX_FIELDS
    ensures !AnswerOf(after, fits, project).Rejected?
  {
    StepWindow(before, fits, project);
    assert !before.input.all;
    assert Refusal(after.seen, after.input, fits).None?;
  }

  /** What a page shows is its window, and no datasource is split over two of its groups
      when the metadata identifiers are distinct. */
  lemma PageShowsWindow(step: Step, fits: Filter, project: Projection)
    requires !AnswerOf(step, fits, project).Rejected?
    requires SortedSelection(step.seen, step.input.request, fits, step.sorted)
    ensures var out := AnswerOf(step, fits, project).out;
      && Flatten(out.groups) == Shown(Window(step), step.input.request, project)
      && out.page.returned == |Window(step)|
      && (DistinctMetadata(step.seen.datasources) ==> GroupsOnce(out.groups))
  {
    var window, request := Window(step), step.input.request;
    StepWindow(step, fits, project);
    AnswerGroups(step, fits, project);
    FlattenRegroup(window, request, project);
    if DistinctMetadata(step.seen.datasources) {
      SliceOrdered(step.seen.datasources, step.sorted, Offset(step.input), End(step.input, step.sorted));
      RegroupOnce(step.seen.datasources, window, request, project);
    }
  }

  /** An answer without an error comes from a complete inventory if selectors were used, and one that
      says it is complete saw every matching datasource completely. */
  lemma AnswerComplete(step: Step, fits: Filter, project: Projection)
    requires !AnswerOf(step, fits, project).Rejected?
    ensures var answer, seen, request := AnswerOf(step, fits, project), step.seen, step.input.request;
      && (answer.Listed?
        <==> !seen.failed && (InventoryComplete(seen) || (request.datasource == [] && request.fieldIds == [])))
      && (answer.out.complete <==> (
        && answer.Listed? && seen.complete
        && forall ds <- seen.datasources :: request.datasource == [] || ds.name == request.datasource ==> ds.complete))
      && answer.out.page.total == |step.sorted|
      && (answer.out.complete ==> answer.out.page.totalComplete)
  {
  }

  /** What a cursor is tied to: the request with its query trimmed and its identifiers sorted, the datasources as they
      were seen, and the sorted selection. */
  ghost predicate TiedTo(fingerprint: Fingerprint, step: Step) {
    && fingerprint.request
      == step.input.request.(query := TrimSpace(step.input.request.query), fieldIds := step.ids)
    && fingerprint.all == step.input.all && fingerprint.datasources == step.seen.datasources
    && fingerprint.selected == step.sorted
  }

  /** A call that is not refused at first is refused for its cursor exactly if that is tied to something else or starts
      beyond the end, and for its size exactly if all of more than ten thousand fields were asked for. */
  lemma WindowRefusedIff(step: Step, fits: Filter, project: Projection)
    requires Refusal(step.seen, step.input, fits).None?
    ensures var answer, cursor := AnswerOf(step, fits, project), step.input.cursor;
      var foreign := cursor.Readable? && (!TiedTo(cursor.fingerprint.value, step) || cursor.offset > |step.sorted|);
      && (answer == Rejected(CursorMismatch) <==> foreign)
      && (answer == Rejected(TooMany) <==> !foreign && step.input.all && |step.sorted| > 10000)
      && (answer.Rejected? ==> answer.error in {CursorMismatch, TooMany})
  {
  }

  /** A page starts where its cursor says, shows as many fields as were asked for or are left, and returns a cursor to
      the rest exactly if there is one. */
  lemma PageSize(step: Step, fits: Filter, project: Projection)
    requires !AnswerOf(step, fits, project).Rejected?
    ensures var page := AnswerOf(step, fits, project).out.page;
      var offset := if step.input.cursor.Readable? then step.input.cursor.offset else 0;
      && page.limit == (if step.input.all then 10000 else if step.input.limit == 0 then 20 else step.input.limit)
      && page.returned == Min(page.limit, |step.sorted| - offset) && page.total == |step.sorted|
      && Window(step) == step.sorted[offset..offset + page.returned]
      && (page.next.Some? <==> offset + page.returned < |step.sorted|)
      && (page.next.Some? ==>
        page.next.value.offset == offset + page.returned && TiedTo(page.next.value.fingerprint, step))
  {
    StepWindow(step, fits, project);
  }

  lemma AnswerGroups(step: Step, fits: Filter, project: Projection)
    requires !AnswerOf(step, fits, project).Rejected?
    ensures var out := AnswerOf(step, fits, project).out;
      out.groups == Regroup(Window(step), step.input.request, project) && out.page.returned == |Window(step)|
  {
    StepWindow(step, fits, project);
  }

  lemma SliceOrdered(datasources: seq<Datasource>, sorted: seq<Entry>, from: nat, to: nat)
    requires Ordered(datasources, sorted) && from <= to <= |sorted|
    ensures Ordered(datasources, sorted[from..to])
  {
    var slice := sorted[from..to];
    forall e <- slice
      ensures e.group < |datasources|
    {
      assert e in sorted;
    }
    forall i, j | 0 <= i < j < |slice|
      ensures KeyBefore(Key(datasources, slice[i]), Key(datasources, slice[j]))
    {
      assert slice[i] == sorted[from + i] && slice[j] == sorted[from + j];
    }
  }
}
