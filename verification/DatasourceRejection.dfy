/** What a publish suggests when the site rejects it for a missing data source
    (actions/workbook/publish_datasources.go), over the exact lookups of
    internal/resources/datasource/adapter.go and internal/tableau/datasource/client.go. */
module DatasourceRejection {
  import opened Common
  import opened ByteText
  import opened TextOrder
  import opened DatasourceBindings

  const COMMA: byte := 0x2C
  const NUL: byte := 0
  const MAX_VALUES := 25
  const MAX_CANDIDATES := 5
  const NOT_FOUND := Ascii("400011")
  const CDATA_END := Ascii("]]>")

  /** One data source as a site lists it. */
  datatype Datasource = Datasource(
    luid: Bytes, name: Bytes, url: Bytes, project: Bytes, projectName: Bytes, other: Bytes)

  /** The first page of a list, and how many items there are in all. */
  datatype Listed = Listed(items: seq<Datasource>, total: int)

  /** Two names are the same but for case if they fold alike. */
  type Fold = Bytes -> Bytes

  // ----- Exact lookups -----

  /** The values of one request, and its reply. */
  datatype Lookup = Lookup(values: seq<Bytes>, reply: Option<Listed>)

  class Site {
    /** Every request made, with its reply. */
    ghost var log: seq<Lookup>

    constructor ()
      ensures log == []
    {
      log := [];
    }

    method List(values: seq<Bytes>) returns (reply: Option<Listed>)
      modifies this
      ensures log == old(log) + [Lookup(values, reply)]
    {
      reply := *;
      log := log + [Lookup(values, reply)];
    }
  }

  /** What a filter can carry, after trimming. */
  predicate Filterable(value: Bytes) {
    TrimSpace(value) != [] && COMMA !in TrimSpace(value)
  }

  predicate Identified(item: Datasource) {
    item.luid != [] && item.name != [] && item.project != [] && item.projectName != []
  }

  /** One request; it is not sent if a value cannot be carried. */
  method ListExact(site: Site, values: seq<Bytes>) returns (page: Option<Listed>, ghost sent: Option<Listed>)
    modifies site
    ensures (exists value <- values :: !Filterable(value)) ==> page == None && site.log == old(site.log)
    ensures (forall value <- values :: Filterable(value)) ==> site.log == old(site.log) + [Lookup(Trims(values), sent)]
    ensures (forall value <- values :: Filterable(value)) ==>
      page == if sent.Some? && forall item <- sent.value.items :: Identified(item) then sent else None
  {
    var carried: seq<Bytes> := [];
    sent := None;
    for i := 0 to |values|
      invariant forall k | 0 <= k < i :: Filterable(values[k])
      invariant carried == Trims(values[..i])
    {
      var value := TrimSpace(values[i]);
      if value == [] || COMMA in value {
        assert !Filterable(values[i]);
        return None, None;
      }
      assert values[..i + 1] == values[..i] + [values[i]];
      carried := carried + [value];
    }
    assert values[..|values|] == values;
    page := site.List(carried);
    sent := page;
    if page.Some? && exists i :: 0 <= i < |page.value.items| && !Identified(page.value.items[i]) {
      page := None;
    }
  }

  function Trims(values: seq<Bytes>): (trimmed: seq<Bytes>)
    ensures |trimmed| == |values| && forall i | 0 <= i < |values| :: trimmed[i] == TrimSpace(values[i])
  {
    seq(|values|, i requires 0 <= i < |values| => TrimSpace(values[i]))
  }

  /** The distinct values in dictionary order. */
  method SortedDistinct(values: seq<Bytes>) returns (distinct: seq<Bytes>)
    ensures Sorted(distinct) && NoDuplicates(distinct) && Elements(distinct) == Elements(values)
  {
    var sorted := Sort(values);
    distinct := [];
    for i := 0 to |sorted|
      invariant Sorted(distinct) && NoDuplicates(distinct) && Elements(distinct) == Elements(sorted[..i])
      invariant i > 0 ==> distinct != [] && distinct[|distinct| - 1] == sorted[i - 1]
    {
      ElementsMore(sorted[..i], sorted[i]);
      ElementsMore(distinct, sorted[i]);
      assert sorted[..i + 1] == sorted[..i] + [sorted[i]];
      if i == 0 || sorted[i] != sorted[i - 1] {
        AppendDistinct(sorted, i, distinct);
        distinct := distinct + [sorted[i]];
      }
    }
    assert sorted[..|sorted|] == sorted;
    SameElements(sorted, values);
  }

  lemma ElementsMore(texts: seq<Bytes>, text: Bytes)
    ensures Elements(texts + [text]) == Elements(texts) + {text}
  {
  }

  lemma SameElements(a: seq<Bytes>, b: seq<Bytes>)
    requires multiset(a) == multiset(b)
    ensures Elements(a) == Elements(b)
  {
    forall text: Bytes
      ensures text in a <==> text in b
    {
      assert text in a <==> text in multiset(a);
      assert text in b <==> text in multiset(b);
    }
  }

  lemma AppendDistinct(sorted: seq<Bytes>, i: nat, distinct: seq<Bytes>)
    requires Sorted(sorted) && i < |sorted| && (i > 0 ==> sorted[i] != sorted[i - 1])
    requires Sorted(distinct) && NoDuplicates(distinct) && Elements(distinct) == Elements(sorted[..i])
    ensures Sorted(distinct + [sorted[i]]) && NoDuplicates(distinct + [sorted[i]])
  {
    forall k | 0 <= k < |distinct|
      ensures Before(distinct[k], sorted[i]) && distinct[k] != sorted[i]
    {
      assert distinct[k] in Elements(distinct);
      var j :| 0 <= j < i && sorted[..i][j] == distinct[k];
      if sorted[j] == sorted[i] {
        assert Before(sorted[i - 1], sorted[i]);
        assert j < i - 1 ==> Before(sorted[j], sorted[i - 1]);
        BeforeAntisymmetric(sorted[i - 1], sorted[i]);
      }
    }
  }

  /** All that a list of lookups brought. */
  ghost function Gathered(lookups: seq<Lookup>): seq<Datasource> {
    if lookups == [] then []
    else
      var reply := lookups[|lookups| - 1].reply;
      Gathered(lookups[..|lookups| - 1]) + if reply.Some? then reply.value.items else []
  }

  /** No two records of one identifier differ. */
  ghost predicate Agree(items: seq<Datasource>) {
    forall a, b :: a in items && b in items && a.luid == b.luid ==> a == b
  }

  /** A reply that is the whole list, with complete identities. */
  ghost predicate Whole(reply: Option<Listed>) {
    reply.Some? && reply.value.total == |reply.value.items| && forall item <- reply.value.items :: Identified(item)
  }

  /** Every value can be carried, and every lookup brought a whole list that agrees with the others. */
  ghost predicate Answered(values: seq<Bytes>, lookups: seq<Lookup>) {
    && (forall value <- values :: Filterable(value))
    && (forall k | 0 <= k < |lookups| :: Whole(lookups[k].reply))
    && Agree(Gathered(lookups))
  }

  ghost predicate Carried(lookups: seq<Lookup>, value: Bytes) {
    exists k :: 0 <= k < |lookups| && TrimSpace(value) in lookups[k].values
  }

  ghost predicate Covers(values: seq<Bytes>, lookups: seq<Lookup>) {
    forall value <- values :: Carried(lookups, value)
  }

  /** Each lookup asks for at most twenty-five of these values, and for nothing else. */
  ghost predicate Asks(values: seq<Bytes>, lookups: seq<Lookup>) {
    forall k | 0 <= k < |lookups| :: AsksFor(values, lookups[k])
  }

  ghost predicate AsksFor(values: seq<Bytes>, lookup: Lookup) {
    0 < |lookup.values| <= MAX_VALUES
    && forall asked <- lookup.values :: exists value <- values :: asked == TrimSpace(value)
  }

  /** What was gathered, each data source once. */
  ghost predicate Gathers(found: seq<Datasource>, items: seq<Datasource>) {
    && (forall item :: item in found <==> item in items)
    && forall i, j | 0 <= i < j < |found| :: found[i].luid != found[j].luid
  }

  /** What a lookup of these values comes to: it finds what its requests brought exactly if each of them was
      answered. */
  ghost predicate Looked(values: seq<Bytes>, lookups: seq<Lookup>, found: Option<seq<Datasource>>) {
    && Asks(values, lookups)
    && (found.Some? <==> Answered(values, lookups))
    && (found.Some? ==> Covers(values, lookups) && Gathers(found.value, Gathered(lookups)))
  }

  /** The items so far, each under its identifier. */
  ghost predicate Recorded(items: seq<Datasource>, seen: map<Bytes, Datasource>) {
    && (forall i | 0 <= i < |items| :: items[i].luid in seen && seen[items[i].luid] == items[i])
    && (forall i, j | 0 <= i < j < |items| :: items[i].luid != items[j].luid)
    && forall luid <- seen.Keys :: seen[luid] in items && seen[luid].luid == luid
  }

  lemma RecordedMore(items: seq<Datasource>, seen: map<Bytes, Datasource>, item: Datasource)
    requires Recorded(items, seen) && item.luid !in seen
    ensures Recorded(items + [item], seen[item.luid := item])
  {
    var more := items + [item];
    assert more[|items|] == item && forall i | 0 <= i < |items| :: more[i] == items[i];
  }

  /** What is recorded is what was gathered. */
  ghost predicate Same(items: seq<Datasource>, gathered: seq<Datasource>) {
    forall item :: item in items <==> item in gathered
  }

  /** One more record agrees with those before it exactly if the recorded one of its identifier is the same. */
  lemma AgreeMore(items: seq<Datasource>, seen: map<Bytes, Datasource>, gathered: seq<Datasource>, item: Datasource)
    requires Recorded(items, seen) && Same(items, gathered) && Agree(gathered)
    ensures Agree(gathered + [item]) <==> (item.luid in seen ==> seen[item.luid] == item)
    ensures item.luid in seen && seen[item.luid] == item ==> Same(items, gathered + [item])
    ensures Same(items + [item], gathered + [item])
  {
    if item.luid in seen && seen[item.luid] != item {
      assert seen[item.luid] in gathered + [item] && item in gathered + [item];
    }
    if item.luid !in seen {
      assert forall other <- gathered :: other in items && other.luid in seen;
    }
  }

  lemma AgreePrefix(a: seq<Datasource>, b: seq<Datasource>)
    requires Agree(a + b)
    ensures Agree(a)
  {
    assert forall item <- a :: item in a + b;
  }

  /** Recording one page; items that repeat an identifier must agree. */
  method RecordPage(
    page: seq<Datasource>, before: seq<Datasource>, known: map<Bytes, Datasource>, ghost gathered: seq<Datasource>)
      returns (ok: bool, items: seq<Datasource>, seen: map<Bytes, Datasource>)
    requires Recorded(before, known) && Same(before, gathered) && Agree(gathered)
    ensures ok <==> Agree(gathered + page)
    ensures ok ==> Recorded(items, seen) && Same(items, gathered + page)
  {
    items, seen := before, known;
    assert gathered + page[..0] == gathered;
    for i := 0 to |page|
      invariant Recorded(items, seen) && Same(items, gathered + page[..i]) && Agree(gathered + page[..i])
    {
      var item := page[i];
      assert gathered + page[..i + 1] == gathered + page[..i] + [item];
      AgreeMore(items, seen, gathered + page[..i], item);
      if item.luid in seen {
        if seen[item.luid] != item {
          assert gathered + page == gathered + page[..i + 1] + page[i + 1..];
          if Agree(gathered + page) {
            AgreePrefix(gathered + page[..i + 1], page[i + 1..]);
          }
          return false, items, seen;
        }
      } else {
        RecordedMore(items, seen, item);
        items, seen := items + [item], seen[item.luid := item];
      }
    }
    assert page[..|page|] == page;
    ok := true;
  }

  /** How far a lookup is. */
  ghost predicate Scanned(
    distinct: seq<Bytes>, done: nat, lookups: seq<Lookup>, items: seq<Datasource>, seen: map<Bytes, Datasource>)
  {
    && done <= |distinct| && Asks(distinct, lookups)
    && Answered(distinct[..done], lookups) && Covers(distinct[..done], lookups)
    && Recorded(items, seen) && Same(items, Gathered(lookups))
  }

  lemma GatheredMore(lookups: seq<Lookup>, lookup: Lookup)
    ensures Gathered(lookups + [lookup])
      == Gathered(lookups) + if lookup.reply.Some? then lookup.reply.value.items else []
  {
    assert (lookups + [lookup])[..|lookups|] == lookups;
  }

  /** One more request of a lookup asks for values of it. */
  lemma AsksMore(distinct: seq<Bytes>, from: nat, to: nat, lookups: seq<Lookup>, lookup: Lookup)
    requires from < to <= |distinct| && to - from <= MAX_VALUES && lookup.values == Trims(distinct[from..to])
    requires Asks(distinct, lookups) && Covers(distinct[..from], lookups)
    ensures Asks(distinct, lookups + [lookup]) && Covers(distinct[..to], lookups + [lookup])
  {
    var more, batch := lookups + [lookup], distinct[from..to];
    assert more[|lookups|] == lookup && forall k | 0 <= k < |lookups| :: more[k] == lookups[k];
    forall asked <- lookup.values
      ensures exists value <- distinct :: asked == TrimSpace(value)
    {
      var i :| 0 <= i < |batch| && lookup.values[i] == asked;
      assert batch[i] in distinct;
    }
    assert distinct[..to] == distinct[..from] + batch;
    forall value <- distinct[..to]
      ensures Carried(more, value)
    {
      if value in batch {
        var i :| 0 <= i < |batch| && batch[i] == value;
        assert more[|lookups|].values[i] == TrimSpace(value);
      } else {
        var k :| 0 <= k < |lookups| && TrimSpace(value) in lookups[k].values;
        assert TrimSpace(value) in more[k].values;
      }
    }
  }

  /** A list of values whose part cannot be carried, or whose lookups are not whole, is not answered. */
  lemma AnsweredMore(values: seq<Bytes>, to: nat, lookups: seq<Lookup>, lookup: Lookup, from: nat)
    requires from <= to <= |values| && Answered(values[..from], lookups)
    requires forall value <- values[from..to] :: Filterable(value)
    ensures Whole(lookup.reply) && Agree(Gathered(lookups + [lookup])) ==> Answered(values[..to], lookups + [lookup])
    ensures !(Whole(lookup.reply) && Agree(Gathered(lookups + [lookup]))) ==> !Answered(values, lookups + [lookup])
  {
    var more := lookups + [lookup];
    assert more[|lookups|] == lookup && forall k | 0 <= k < |lookups| :: more[k] == lookups[k];
    assert values[..to] == values[..from] + values[from..to];
  }

  /** One batch of a lookup. */
  method FindBatch(
    site: Site, ghost start: seq<Lookup>, ghost lookups: seq<Lookup>, distinct: seq<Bytes>, done: nat,
    items: seq<Datasource>, seen: map<Bytes, Datasource>)
      returns (ok: bool, done': nat, items': seq<Datasource>, seen': map<Bytes, Datasource>,
        ghost lookups': seq<Lookup>)
    requires done < |distinct| && Scanned(distinct, done, lookups, items, seen) && site.log == start + lookups
    modifies site
    ensures site.log == start + lookups' && Asks(distinct, lookups')
    ensures ok ==> done < done' && Scanned(distinct, done', lookups', items', seen')
    ensures !ok ==> !Answered(distinct, lookups')
  {
    var to := Min(done + MAX_VALUES, |distinct|);
    var batch := distinct[done..to];
    ok, done', items', seen', lookups' := false, to, items, seen, lookups;
    ghost var sent: Option<Listed>;
    var page: Option<Listed>;
    page, sent := ListExact(site, batch);
    if exists value <- batch :: !Filterable(value) {
      assert forall value <- batch :: value in distinct;
      return;
    }
    lookups' := lookups + [Lookup(Trims(batch), sent)];
    GatheredMore(lookups, Lookup(Trims(batch), sent));
    AsksMore(distinct, done, to, lookups, Lookup(Trims(batch), sent));
    AnsweredMore(distinct, to, lookups, Lookup(Trims(batch), sent), done);
    if page.None? || page.value.total != |page.value.items| {
      return;
    }
    ok, items', seen' := RecordPage(page.value.items, items, seen, Gathered(lookups));
  }

  lemma SameValues(distinct: seq<Bytes>, values: seq<Bytes>, lookups: seq<Lookup>)
    requires Elements(distinct) == Elements(values)
    ensures Asks(distinct, lookups) ==> Asks(values, lookups)
    ensures Answered(distinct, lookups) <==> Answered(values, lookups)
    ensures Covers(distinct, lookups) ==> Covers(values, lookups)
  {
    assert forall value :: value in distinct <==> value in Elements(distinct);
    assert forall value :: value in values <==> value in Elements(values);
  }

  /** A lookup in batches: what it finds is what the site answered to them. */
  method FindExact(site: Site, values: seq<Bytes>)
      returns (found: Option<seq<Datasource>>, ghost lookups: seq<Lookup>)
    modifies site
    ensures site.log == old(site.log) + lookups && Looked(values, lookups, found)
  {
    ghost var start := site.log;
    lookups := [];
    var distinct := SortedDistinct(values);
    var items: seq<Datasource>, seen: map<Bytes, Datasource> := [], map[];
    var done := 0;
    while done < |distinct|
      invariant Scanned(distinct, done, lookups, items, seen) && site.log == start + lookups
      decreases |distinct| - done
    {
      var ok;
      ok, done, items, seen, lookups := FindBatch(site, start, lookups, distinct, done, items, seen);
      if !ok {
        SameValues(distinct, values, lookups);
        return None, lookups;
      }
    }
    assert distinct[..|distinct|] == distinct;
    SameValues(distinct, values, lookups);
    found := Some(items);
  }

  // ----- Candidates -----

  /** The data sources with a reference's name, in the order they were found. */
  function Matching(candidates: seq<Datasource>, caption: Bytes, fold: Fold): (matches: seq<Datasource>)
    ensures forall item <- matches :: item in candidates && caption != [] && fold(item.name) == fold(caption)
  {
    if candidates == [] then []
    else
      var init, last := candidates[..|candidates| - 1], candidates[|candidates| - 1];
      Matching(init, caption, fold) + if caption != [] && fold(last.name) == fold(caption) then [last] else []
  }

  function SortKey(item: Datasource): Bytes {
    item.url + [NUL] + item.luid
  }

  predicate ByKey(a: Datasource, b: Datasource) {
    Before(SortKey(a), SortKey(b))
  }

  type Order = (Datasource, Datasource) -> bool

  ghost predicate Linear(order: Order) {
    && (forall a, b :: order(a, b) || order(b, a))
    && forall a, b, c :: order(a, b) && order(b, c) ==> order(a, c)
  }

  lemma ByKeyLinear()
    ensures Linear(ByKey)
  {
    forall a, b
      ensures ByKey(a, b) || ByKey(b, a)
    {
      BeforeTotal(SortKey(a), SortKey(b));
    }
    forall a, b, c | ByKey(a, b) && ByKey(b, c)
      ensures ByKey(a, c)
    {
      BeforeTransitive(SortKey(a), SortKey(b), SortKey(c));
    }
  }

  ghost predicate InOrder(items: seq<Datasource>, order: Order) {
    forall i, j | 0 <= i < j < |items| :: order(items[i], items[j])
  }

  /** The first five, in the order of content URL and identifier, of the candidates that have the reference's name,
      and how many more there are. */
  ghost predicate Chosen(
    shown: seq<Datasource>, more: nat, candidates: seq<Datasource>, caption: Bytes, fold: Fold)
  {
    exists sorted :: RanksNamed(sorted, candidates, caption, fold)
      && shown == sorted[..Min(MAX_CANDIDATES, |sorted|)] && more == |sorted| - |shown|
  }

  /** All candidates of a name, each as often as it was found, in order. */
  ghost predicate RanksNamed(sorted: seq<Datasource>, candidates: seq<Datasource>, caption: Bytes, fold: Fold) {
    && InOrder(sorted, ByKey)
    && (forall item: Datasource | caption != [] && fold(item.name) == fold(caption) ::
      multiset(sorted)[item] == multiset(candidates)[item])
    && forall item: Datasource | !(caption != [] && fold(item.name) == fold(caption)) :: multiset(sorted)[item] == 0
  }

  ghost predicate Ranked(sorted: seq<Datasource>, matches: seq<Datasource>) {
    InOrder(sorted, ByKey) && multiset(sorted) == multiset(matches)
  }

  lemma {:induction false} MatchingCounts(candidates: seq<Datasource>, caption: Bytes, fold: Fold, item: Datasource)
    ensures multiset(Matching(candidates, caption, fold))[item] ==
      if caption != [] && fold(item.name) == fold(caption) then multiset(candidates)[item] else 0
    decreases |candidates|
  {
    if candidates != [] {
      var init, last := candidates[..|candidates| - 1], candidates[|candidates| - 1];
      assert candidates == init + [last];
      MatchingCounts(init, caption, fold, item);
    }
  }

  lemma RankedNamed(sorted: seq<Datasource>, candidates: seq<Datasource>, caption: Bytes, fold: Fold)
    requires Ranked(sorted, Matching(candidates, caption, fold))
    ensures RanksNamed(sorted, candidates, caption, fold)
  {
    forall item
      ensures multiset(sorted)[item] ==
        if caption != [] && fold(item.name) == fold(caption) then multiset(candidates)[item] else 0
    {
      MatchingCounts(candidates, caption, fold, item);
    }
  }

  method InsertMatch(sorted: seq<Datasource>, item: Datasource, order: Order) returns (r: seq<Datasource>)
    requires Linear(order) && InOrder(sorted, order)
    ensures InOrder(r, order) && multiset(r) == multiset(sorted) + multiset{item}
  {
    var i := |sorted|;
    while i > 0 && !order(sorted[i - 1], item)
      invariant 0 <= i <= |sorted|
      invariant forall j | i <= j < |sorted| :: order(item, sorted[j])
    {
      i := i - 1;
    }
    InsertedInOrder(sorted, i, item, order);
    r := sorted[..i] + [item] + sorted[i..];
    assert sorted == sorted[..i] + sorted[i..];
  }

  lemma InsertedInOrder(sorted: seq<Datasource>, i: nat, item: Datasource, order: Order)
    requires Linear(order) && InOrder(sorted, order) && i <= |sorted|
    requires i > 0 ==> order(sorted[i - 1], item)
    requires forall j | i <= j < |sorted| :: order(item, sorted[j])
    ensures InOrder(sorted[..i] + [item] + sorted[i..], order)
  {
    assert forall j | 0 <= j < i :: order(sorted[j], item);
  }

  /** Finding, ranking and cutting the candidates of one reference. */
  method Choose(candidates: seq<Datasource>, caption: Bytes, fold: Fold) returns (shown: seq<Datasource>, more: nat)
    ensures Chosen(shown, more, candidates, caption, fold)
  {
    var sorted: seq<Datasource> := [];
    ByKeyLinear();
    for i := 0 to |candidates|
      invariant Ranked(sorted, Matching(candidates[..i], caption, fold))
    {
      assert candidates[..i + 1][..i] == candidates[..i];
      if caption != [] && fold(candidates[i].name) == fold(caption) {
        sorted := InsertMatch(sorted, candidates[i], ByKey);
      }
    }
    assert candidates[..|candidates|] == candidates;
    RankedNamed(sorted, candidates, caption, fold);
    shown := sorted[..Min(MAX_CANDIDATES, |sorted|)];
    more := |sorted| - |shown|;
  }

  // ----- Explaining a rejection -----

  /** What is said about one reference. */
  datatype Advice = CommaInName | SearchFailed | Candidates(shown: seq<Datasource>, more: nat)

  datatype Line = Line(reference: Reference, advice: Advice)

  /** A rejection that is passed on, with or without a note, or one explained by missing references. */
  datatype Explained = PassedOn | Unchecked | Missing(lines: seq<Line>)

  predicate OnSite(items: seq<Datasource>, url: Bytes) {
    exists i :: 0 <= i < |items| && items[i].url == url
  }

  /** The references whose content URL is on no data source that was found. */
  function Lacking(references: seq<Reference>, present: seq<Datasource>): (missing: seq<Reference>)
    ensures forall r :: r in missing <==> r in references && !OnSite(present, r.url)
  {
    if references == [] then []
    else
      var init, last := references[..|references| - 1], references[|references| - 1];
      assert references == init + [last];
      Lacking(init, present) + if OnSite(present, last.url) then [] else [last]
  }

  /** The places of the references that are on no data source. */
  ghost predicate PlacesLacking(references: seq<Reference>, present: seq<Datasource>, at: seq<nat>) {
    forall k: nat | k < |references| ::
      k in at <==> forall i | 0 <= i < |present| :: present[i].url != references[k].url
  }

  lemma PlacesMore(references: seq<Reference>, present: seq<Datasource>, at: seq<nat>, part: seq<Reference>)
    requires references != [] && PlacesLacking(references[..|references| - 1], present, at)
    requires Picks(references[..|references| - 1], at, part)
    ensures PlacesLacking(references, present,
      at + if OnSite(present, references[|references| - 1].url) then [] else [|references| - 1])
  {
    var n := |references| - 1;
    assert forall k: nat | k < n :: references[..n][k] == references[k];
    assert n !in at;
  }

  /** Those that are missing are listed each once, in their order. */
  lemma {:induction false} LackingInOrder(references: seq<Reference>, present: seq<Datasource>) returns (at: seq<nat>)
    ensures Picks(references, at, Lacking(references, present)) && PlacesLacking(references, present, at)
    decreases |references|
  {
    if references == [] {
      return [];
    }
    var n := |references| - 1;
    at := LackingInOrder(references[..n], present);
    PlacesMore(references, present, at, Lacking(references[..n], present));
    PicksMore(references, at, Lacking(references[..n], present));
    at := at + if OnSite(present, references[n].url) then [] else [n];
  }

  predicate SearchableByName(caption: Bytes) {
    caption != [] && COMMA !in caption
  }

  /** What is said of a reference, given what a search by name found, if it worked. */
  ghost predicate Advised(line: Line, candidates: Option<seq<Datasource>>, fold: Fold) {
    var caption := line.reference.caption;
    if COMMA in caption then line.advice == CommaInName
    else if candidates.None? && caption != [] then line.advice == SearchFailed
    else
      && line.advice.Candidates?
      && Chosen(
        line.advice.shown, line.advice.more, if candidates.Some? then candidates.value else [], caption, fold)
  }

  method AdviseOne(reference: Reference, candidates: Option<seq<Datasource>>, fold: Fold) returns (line: Line)
    ensures line.reference == reference && Advised(line, candidates, fold)
  {
    if COMMA in reference.caption {
      return Line(reference, CommaInName);
    }
    if candidates.None? && reference.caption != [] {
      return Line(reference, SearchFailed);
    }
    var found := if candidates.Some? then candidates.value else [];
    var shown, more := Choose(found, reference.caption, fold);
    return Line(reference, Candidates(shown, more));
  }

  /** A line for each missing reference, in order, and each of them as it should be. */
  ghost predicate Lines(lines: seq<Line>, missing: seq<Reference>, stands: Line -> bool) {
    |lines| == |missing| && forall k | 0 <= k < |lines| :: lines[k].reference == missing[k] && stands(lines[k])
  }

  lemma OneLineMore(lines: seq<Line>, missing: seq<Reference>, i: nat, line: Line, stands: Line -> bool)
    requires i < |missing| && Lines(lines, missing[..i], stands)
    requires line.reference == missing[i] && stands(line)
    ensures Lines(lines + [line], missing[..i + 1], stands)
  {
    assert forall k | 0 <= k < i :: (lines + [line])[k] == lines[k] && missing[..i + 1][k] == missing[..i][k];
  }

  method Advise(missing: seq<Reference>, candidates: Option<seq<Datasource>>, fold: Fold) returns (lines: seq<Line>)
    ensures Lines(lines, missing, line => Advised(line, candidates, fold))
  {
    lines := [];
    ghost var stands := line => Advised(line, candidates, fold);
    for i := 0 to |missing|
      invariant Lines(lines, missing[..i], stands)
    {
      var line := AdviseOne(missing[i], candidates, fold);
      OneLineMore(lines, missing, i, line, stands);
      lines := lines + [line];
    }
    assert missing[..|missing|] == missing;
  }

  /** The names that are searched for: those of the missing references that a filter can carry. */
  ghost predicate Searches(names: seq<Bytes>, missing: seq<Reference>) {
    forall name: Bytes :: name in names <==>
      name != [] && COMMA !in name && exists k :: 0 <= k < |missing| && missing[k].caption == name
  }

  lemma SearchesMore(names: seq<Bytes>, missing: seq<Reference>, reference: Reference)
    requires Searches(names, missing)
    ensures var caption := reference.caption;
      Searches(names + if caption != [] && COMMA !in caption then [caption] else [], missing + [reference])
  {
    var more := missing + [reference];
    assert more[|missing|] == reference && forall k | 0 <= k < |missing| :: more[k] == missing[k];
  }

  method SplitMissing(references: seq<Reference>, present: seq<Datasource>)
      returns (missing: seq<Reference>, names: seq<Bytes>)
    ensures missing == Lacking(references, present) && Searches(names, missing)
  {
    missing, names := [], [];
    for i := 0 to |references|
      invariant missing == Lacking(references[..i], present) && Searches(names, missing)
    {
      assert references[..i + 1][..i] == references[..i];
      if !OnSite(present, references[i].url) {
        SearchesMore(names, missing, references[i]);
        missing := missing + [references[i]];
        if SearchableByName(references[i].caption) {
          names := names + [references[i].caption];
        }
      }
    }
    assert references[..|references|] == references;
  }

  function UrlsOf(references: seq<Reference>): (urls: seq<Bytes>)
    ensures |urls| == |references| && forall i | 0 <= i < |urls| :: urls[i] == references[i].url
  {
    seq(|references|, i requires 0 <= i < |references| => references[i].url)
  }

  /** What the lookups of a rejection were, and what they found: first the unmapped content URLs, and then the names of
      those that are missing. */
  datatype Found = Found(
    first: seq<Lookup>, present: Option<seq<Datasource>>, names: seq<Bytes>, second: seq<Lookup>,
    candidates: Option<seq<Datasource>>)

  const NOT_LOOKED := Found([], None, [], [], Some([]))

  /** What is said when the unmapped references were looked up. */
  ghost predicate Told(result: Explained, left: seq<Reference>, found: Found, fold: Fold) {
    && Looked(UrlsOf(left), found.first, found.present) && Looked(found.names, found.second, found.candidates)
    && (found.present.None? <==> result == Unchecked)
    && (found.present.Some? ==>
      var missing := Lacking(left, found.present.value);
      && (missing == [] <==> result == PassedOn)
      && Searches(found.names, missing)
      && (result.Missing? ==> Lines(result.lines, missing, line => Advised(line, found.candidates, fold))))
    && (!result.Missing? ==> found.second == [])
  }

  lemma NothingLooked()
    ensures Looked([], [], Some([]))
  {
  }

  /** Explaining a rejection. References are reported as missing only after a lookup of every unmapped
      content URL, so each of those can be carried by a filter; exactly the unmapped ones that were not
      found are reported, each with the candidates that a lookup of the names found. */
  method Explain(site: Site, fold: Fold, refs: seq<Reference>, bindings: seq<Binding>, code: Option<Bytes>)
      returns (result: Explained, ghost found: Found)
    modifies site
    ensures site.log == old(site.log) + found.first + found.second
    ensures var left := Unmapped(refs, bindings);
      if code != Some(NOT_FOUND) || left == [] then result == PassedOn && found == NOT_LOOKED
      else Told(result, left, found, fold)
  {
    var references := UnmappedDatasourceReferences(refs, bindings);
    found := NOT_LOOKED;
    NothingLooked();
    if code != Some(NOT_FOUND) || |references| == 0 {
      return PassedOn, found;
    }
    var present: Option<seq<Datasource>>;
    ghost var first;
    present, first := FindExact(site, UrlsOf(references));
    found := found.(first := first, present := present);
    if present.None? {
      return Unchecked, found;
    }
    var missing, names := SplitMissing(references, present.value);
    if |missing| == 0 {
      return PassedOn, found;
    }
    var candidates: Option<seq<Datasource>> := Some([]);
    ghost var second: seq<Lookup> := [];
    if |names| != 0 {
      candidates, second := FindExact(site, names);
    }
    found := found.(names := names, second := second, candidates := candidates);
    var lines := Advise(missing, candidates, fold);
    result := Missing(lines);
  }

  /** A line suggests at most five data sources, each with an identifier, and none without a caption. */
  ghost predicate Suggests(line: Line) {
    line.advice.Candidates? ==>
      && |line.advice.shown| <= MAX_CANDIDATES
      && (line.reference.caption == [] ==> line.advice.shown == [])
      && forall item <- line.advice.shown :: Identified(item)
  }

  lemma ShownAreCandidates(
    shown: seq<Datasource>, more: nat, candidates: seq<Datasource>, caption: Bytes, fold: Fold)
    requires Chosen(shown, more, candidates, caption, fold)
    ensures |shown| <= MAX_CANDIDATES && (forall item <- shown :: item in candidates)
    ensures caption == [] ==> shown == []
  {
    var sorted :| RanksNamed(sorted, candidates, caption, fold)
      && shown == sorted[..Min(MAX_CANDIDATES, |sorted|)] && more == |sorted| - |shown|;
    forall item <- shown
      ensures item in candidates && caption != []
    {
      assert multiset(sorted)[item] > 0;
    }
  }

  lemma AdvisedSuggests(line: Line, candidates: Option<seq<Datasource>>, fold: Fold)
    requires Advised(line, candidates, fold)
    requires candidates.Some? ==> forall item <- candidates.value :: Identified(item)
    ensures Suggests(line)
  {
    if line.advice.Candidates? {
      ShownAreCandidates(line.advice.shown, line.advice.more, if candidates.Some? then candidates.value else [],
        line.reference.caption, fold);
    }
  }

  /** Whatever whole replies bring is identified. */
  lemma {:induction false} GatheredIdentified(lookups: seq<Lookup>)
    requires forall k | 0 <= k < |lookups| :: Whole(lookups[k].reply)
    ensures forall item <- Gathered(lookups) :: Identified(item)
    decreases |lookups|
  {
    if lookups != [] {
      GatheredIdentified(lookups[..|lookups| - 1]);
    }
  }

  /** What a rejection suggests is listed by the site with an identifier. */
  lemma {:induction false} ToldSuggests(result: Explained, left: seq<Reference>, found: Found, fold: Fold)
    requires Told(result, left, found, fold) && result.Missing?
    ensures forall k | 0 <= k < |left| :: Filterable(left[k].url)
    ensures forall line <- result.lines :: line.reference in left && Suggests(line)
  {
    forall k | 0 <= k < |left|
      ensures Filterable(left[k].url)
    {
      assert UrlsOf(left)[k] in UrlsOf(left);
    }
    GatheredIdentifiedIf(found);
    forall line <- result.lines
      ensures line.reference in left && Suggests(line)
    {
      var k :| 0 <= k < |result.lines| && result.lines[k] == line;
      assert line.reference in Lacking(left, found.present.value);
      AdvisedSuggests(line, found.candidates, fold);
    }
  }

  lemma GatheredIdentifiedIf(found: Found)
    requires Looked(found.names, found.second, found.candidates)
    ensures found.candidates.Some? ==> forall item <- found.candidates.value :: Identified(item)
  {
    if found.candidates.Some? {
      GatheredIdentified(found.second);
    }
  }

  // ----- The commands that are suggested -----

  /** What preparing an upload with rebound data sources accepts. */
  predicate Rebindable(rewrite: map<Bytes, Bytes>) {
    forall source <- rewrite :: source != [] && rewrite[source] != [] && IndexFrom(rewrite[source], CDATA_END, 0) == -1
  }

  /** The command with one binding more reads back as these bindings, resolves to them, and leaves one content URL
      less unmapped. */
  ghost predicate Works(refs: seq<Reference>, bindings: seq<Binding>, url: Bytes, luid: Bytes) {
    var more := bindings + [Binding(url, luid)];
    && ParseAll(Arguments(more)) == Ok(more)
    && Matched(more, refs) == Ok(more)
    && |Unmapped(refs, more)| == |Unmapped(refs, bindings)| - 1
  }

  /** Whatever the parser accepts can be written again. */
  lemma {:induction false} ParsedWritable(texts: seq<Bytes>)
    requires ParseAll(texts).Ok?
    ensures forall i | 0 <= i < |ParseAll(texts).value| :: Writable(ParseAll(texts).value[i])
    decreases |texts|
  {
    if texts != [] {
      ParsedWritable(texts[1..]);
      var rest := ParseAll(texts[1..]).value;
      assert ParseAll(texts).value == [Parse(texts[0]).value] + rest;
    }
  }

  /** The targets of resolved bindings are targets that were given. */
  lemma TargetsGiven(given: seq<Binding>, refs: seq<Reference>)
    requires Matched(given, refs).Ok? && forall i | 0 <= i < |given| :: Writable(given[i])
    ensures forall b <- Matched(given, refs).value :: b.target != [] && EQUALS !in b.target
  {
    MatchedIff(given, refs);
    forall b <- Matched(given, refs).value
      ensures b.target != [] && EQUALS !in b.target
    {
      assert Binding(b.source, b.target) in Matched(given, refs).value;
      var i :| 0 <= i < |given| && Resolve(given[i].source, refs) == Ok(b.source) && given[i].target == b.target;
    }
  }

  /** A suggested command works exactly if the identifier it suggests holds no equals sign: its bindings were
      parsed and prepared, and its content URL was looked up. */
  lemma SuggestionWorks(
    texts: seq<Bytes>, refs: seq<Reference>, rewrite: map<Bytes, Bytes>, reference: Reference, luid: Bytes)
    requires ParseAll(texts).Ok? && Matched(ParseAll(texts).value, refs).Ok?
    requires rewrite.Keys == Sources(Matched(ParseAll(texts).value, refs).value) && Rebindable(rewrite)
    requires reference in Unmapped(refs, Matched(ParseAll(texts).value, refs).value)
    requires Filterable(reference.url) && luid != []
    ensures Works(refs, Matched(ParseAll(texts).value, refs).value, reference.url, luid) <==> EQUALS !in luid
  {
    var given := ParseAll(texts).value;
    var bindings := Matched(given, refs).value;
    ParsedWritable(texts);
    TargetsGiven(given, refs);
    MatchedCanonical(given, refs);
    BindingsWritable(bindings, rewrite);
    UnmappedListed(refs, bindings, reference);
    FilterableNotEmpty(reference.url);
    WorksIff(refs, bindings, reference.url, luid);
  }

  lemma BindingsWritable(bindings: seq<Binding>, rewrite: map<Bytes, Bytes>)
    requires rewrite.Keys == Sources(bindings) && Rebindable(rewrite)
    requires forall b <- bindings :: b.target != [] && EQUALS !in b.target
    ensures forall i | 0 <= i < |bindings| :: Writable(bindings[i])
  {
    forall i | 0 <= i < |bindings|
      ensures Writable(bindings[i])
    {
      assert bindings[i] in bindings && bindings[i].source in Sources(bindings);
    }
  }

  lemma UnmappedListed(refs: seq<Reference>, bindings: seq<Binding>, reference: Reference)
    requires reference in Unmapped(refs, bindings)
    ensures HasUrl(Unmapped(refs, bindings), reference.url)
  {
    var i :| 0 <= i < |Unmapped(refs, bindings)| && Unmapped(refs, bindings)[i] == reference;
    assert Unmapped(refs, bindings)[i].url == reference.url;
  }

  lemma FilterableNotEmpty(value: Bytes)
    requires Filterable(value)
    ensures value != []
  {
  }

  lemma WorksIff(refs: seq<Reference>, bindings: seq<Binding>, url: Bytes, luid: Bytes)
    requires Canonical(bindings, refs) && HasUrl(Unmapped(refs, bindings), url)
    requires url != [] && luid != [] && forall i | 0 <= i < |bindings| :: Writable(bindings[i])
    ensures Works(refs, bindings, url, luid) <==> EQUALS !in luid
  {
    RemapCommand(refs, bindings, url, luid);
    RemapAddsOne(refs, bindings, url, luid);
  }

  /** How a publish that reaches the site, and is rejected there, ends. */
  datatype Outcome = NotBindings | NotMatched(error: Error) | Unreadable | Unprepared | Rejected(explained: Explained)

  /** Whether every binding's target answers with a content URL. */
  ghost predicate AllRead(bindings: seq<Binding>, read: Bytes -> Option<Bytes>) {
    forall i | 0 <= i < |bindings| :: read(bindings[i].target).Some? && read(bindings[i].target) != Some([])
  }

  /** What the targets of the bindings answered. */
  ghost predicate Rewrites(rewrite: map<Bytes, Bytes>, bindings: seq<Binding>, read: Bytes -> Option<Bytes>) {
    && rewrite.Keys == Sources(bindings)
    && forall i | 0 <= i < |bindings| ::
      bindings[i].source in rewrite && read(bindings[i].target) == Some(rewrite[bindings[i].source])
  }

  /** How far a publish gets: to its arguments, its bindings, its targets, its preparation, or the site. */
  ghost predicate GetsTo(
    outcome: Outcome, texts: seq<Bytes>, refs: seq<Reference>, read: Bytes -> Option<Bytes>,
    rewrite: map<Bytes, Bytes>)
  {
    match ParseAll(texts)
    case Err(_) => outcome == NotBindings
    case Ok(given) => match Matched(given, refs)
      case Err(e) => outcome == NotMatched(e)
      case Ok(bindings) =>
        if !AllRead(bindings, read) then outcome == Unreadable
        else
          && Rewrites(rewrite, bindings, read)
          && (outcome == Unprepared <==> !Rebindable(rewrite))
          && (outcome.Rejected? <==> Rebindable(rewrite))
  }

  /** The part of a publish that comes before the site's answer. */
  method PrepareBindings(texts: seq<Bytes>, refs: seq<Reference>, read: Bytes -> Option<Bytes>)
      returns (early: Option<Outcome>, bindings: seq<Binding>, ghost rewrite: map<Bytes, Bytes>)
    ensures early.Some? ==> !early.value.Rejected? && GetsTo(early.value, texts, refs, read, rewrite)
    ensures early.None? ==>
      && ParseAll(texts).Ok? && Matched(ParseAll(texts).value, refs) == Ok(bindings)
      && rewrite.Keys == Sources(bindings) && Rebindable(rewrite)
      && forall explained :: GetsTo(Rejected(explained), texts, refs, read, rewrite)
  {
    rewrite, bindings := map[], [];
    var parsed := ParseAll(texts);
    if parsed.Err? {
      return Some(NotBindings), bindings, rewrite;
    }
    var matched := MatchDatasourceBindings(parsed.value, refs);
    if matched.Err? {
      return Some(NotMatched(matched.error)), bindings, rewrite;
    }
    bindings := matched.value;
    MatchedCanonical(parsed.value, refs);
    var answers := seq(|bindings|, i requires 0 <= i < |bindings| => read(bindings[i].target));
    var ok, rewritten, rows := ReadDatasourceBindings(refs, bindings, answers);
    if !ok {
      return Some(Unreadable), bindings, rewrite;
    }
    rewrite := rewritten;
    if !Rebindable(rewritten) {
      return Some(Unprepared), bindings, rewrite;
    }
    return None, bindings, rewrite;
  }

  /** A publish with these --datasource-binding arguments that the site rejects with this code. `read` is what
      reading a target gives. Every command it suggests works, as long as the site's identifiers hold no
      equals sign; in particular its content URL is not empty. */
  method RejectedPublish(
    site: Site, fold: Fold, texts: seq<Bytes>, refs: seq<Reference>, read: Bytes -> Option<Bytes>, code: Option<Bytes>)
      returns (outcome: Outcome, ghost rewrite: map<Bytes, Bytes>, ghost found: Found)
    modifies site
    ensures GetsTo(outcome, texts, refs, read, rewrite)
    ensures site.log == old(site.log) + found.first + found.second
    ensures outcome.Rejected? ==>
      var left := Unmapped(refs, Matched(ParseAll(texts).value, refs).value);
      if code != Some(NOT_FOUND) || left == [] then outcome.explained == PassedOn && found == NOT_LOOKED
      else Told(outcome.explained, left, found, fold)
    ensures outcome.Rejected? && outcome.explained.Missing? ==>
      SuggestsWorking(outcome.explained.lines, refs, Matched(ParseAll(texts).value, refs).value)
  {
    found := NOT_LOOKED;
    var early: Option<Outcome>, bindings: seq<Binding>;
    early, bindings, rewrite := PrepareBindings(texts, refs, read);
    if early.Some? {
      return early.value, rewrite, found;
    }
    var explained: Explained;
    explained, found := Explain(site, fold, refs, bindings, code);
    if explained.Missing? {
      ToldSuggests(explained, Unmapped(refs, bindings), found, fold);
      SuggestionsWork(texts, refs, rewrite, explained.lines);
    }
    outcome := Rejected(explained);
  }

  /** Each line is for an unmapped reference and suggests at most five commands, and each command works exactly if its
      identifier holds no equals sign. */
  ghost predicate SuggestsWorking(lines: seq<Line>, refs: seq<Reference>, bindings: seq<Binding>) {
    forall line <- lines :: line.advice.Candidates? ==> SuggestedWork(line, refs, bindings)
  }

  ghost predicate SuggestedWork(line: Line, refs: seq<Reference>, bindings: seq<Binding>)
    requires line.advice.Candidates?
  {
    && line.reference in Unmapped(refs, bindings)
    && |line.advice.shown| <= MAX_CANDIDATES
    && forall item <- line.advice.shown ::
      Works(refs, bindings, line.reference.url, item.luid) <==> EQUALS !in item.luid
  }

  lemma {:induction false} SuggestionsWork(
    texts: seq<Bytes>, refs: seq<Reference>, rewrite: map<Bytes, Bytes>, lines: seq<Line>)
    requires ParseAll(texts).Ok? && Matched(ParseAll(texts).value, refs).Ok?
    requires rewrite.Keys == Sources(Matched(ParseAll(texts).value, refs).value) && Rebindable(rewrite)
    requires var left := Unmapped(refs, Matched(ParseAll(texts).value, refs).value);
      && (forall k | 0 <= k < |left| :: Filterable(left[k].url))
      && forall line <- lines :: line.reference in left && Suggests(line)
    ensures SuggestsWorking(lines, refs, Matched(ParseAll(texts).value, refs).value)
  {
    var bindings := Matched(ParseAll(texts).value, refs).value;
    forall line <- lines | line.advice.Candidates?
      ensures SuggestedWork(line, refs, bindings)
    {
      forall item <- line.advice.shown
        ensures Works(refs, bindings, line.reference.url, item.luid) <==> EQUALS !in item.luid
      {
        SuggestionWorks(texts, refs, rewrite, line.reference, item.luid);
      }
    }
  }
}
