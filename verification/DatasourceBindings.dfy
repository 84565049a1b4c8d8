/** Binding a workbook's published data sources to targets on another site
    (actions/workbook/publish_datasources.go) and the remap command that repeats
    a publish with one binding more (parsed in internal/cli/content/command.go). */
module DatasourceBindings {
  import opened Common

  const EQUALS: byte := 0x3D

  /** A binding as given or as resolved; a source is a content URL or a caption. */
  datatype Binding = Binding(source: Bytes, target: Bytes)

  /** One published data source reference inside the workbook. */
  datatype Reference = Reference(caption: Bytes, url: Bytes)

  datatype Error = NoMatch | Ambiguous | Conflict | NotReadable | NotABinding

  // ----- Resolving one source -----

  predicate HasUrl(refs: seq<Reference>, url: Bytes) {
    exists i :: 0 <= i < |refs| && refs[i].url == url
  }

  /** The distinct content URLs of the references with this caption, in order of appearance. */
  function CaptionUrls(caption: Bytes, refs: seq<Reference>): (urls: seq<Bytes>)
    ensures forall u :: u in urls <==> exists i :: 0 <= i < |refs| && refs[i].caption == caption && refs[i].url == u
    ensures forall i, j | 0 <= i < j < |urls| :: urls[i] != urls[j]
  {
    if refs == [] then []
    else
      var init, last := refs[..|refs| - 1], refs[|refs| - 1];
      var urls := CaptionUrls(caption, init);
      assert refs == init + [last];
      assert forall i | 0 <= i < |init| :: refs[i] == init[i];
      if last.caption == caption && last.url !in urls then urls + [last.url] else urls
  }

  function Resolve(source: Bytes, refs: seq<Reference>): Result<Bytes, Error> {
    if HasUrl(refs, source) then Ok(source)
    else
      var urls := CaptionUrls(source, refs);
      if |urls| == 0 then Err(NoMatch) else if |urls| == 1 then Ok(urls[0]) else Err(Ambiguous)
  }

  /** A source resolves to a content URL of the workbook: itself if it is one, and otherwise
      the only one that its caption stands for. */
  lemma ResolveMeaning(source: Bytes, refs: seq<Reference>, url: Bytes)
    ensures HasUrl(refs, source) ==> (Resolve(source, refs) == Ok(url) <==> url == source)
    ensures !HasUrl(refs, source) ==> (Resolve(source, refs) == Ok(url) <==> (
      && (exists i :: 0 <= i < |refs| && refs[i].caption == source && refs[i].url == url)
      && forall i | 0 <= i < |refs| && refs[i].caption == source :: refs[i].url == url))
  {
    var urls := CaptionUrls(source, refs);
    if |urls| == 1 {
      assert urls[0] in urls;
    } else if |urls| > 1 {
      assert urls[0] in urls && urls[1] in urls && urls[0] != urls[1];
    }
    forall i | 0 <= i < |refs| && refs[i].caption == source
      ensures refs[i].url in urls
    {
    }
  }

  /** A reference with this caption has this content URL. */
  ghost predicate StandsFor(refs: seq<Reference>, caption: Bytes, url: Bytes) {
    exists i :: 0 <= i < |refs| && refs[i].caption == caption && refs[i].url == url
  }

  /** A source that resolves to nothing is no caption of the workbook, and an ambiguous one stands for two URLs. */
  lemma ResolveErrors(source: Bytes, refs: seq<Reference>)
    ensures Resolve(source, refs) == Err(NoMatch)
      <==> !HasUrl(refs, source) && forall url :: !StandsFor(refs, source, url)
    ensures Resolve(source, refs) == Err(Ambiguous) <==> (
      && !HasUrl(refs, source)
      && exists a, b :: a != b && StandsFor(refs, source, a) && StandsFor(refs, source, b))
    ensures Resolve(source, refs).Err? ==> Resolve(source, refs).error in {NoMatch, Ambiguous}
  {
    var urls := CaptionUrls(source, refs);
    assert forall url :: url in urls <==> StandsFor(refs, source, url);
    if |urls| > 0 {
      assert urls[0] in urls;
    }
    if |urls| > 1 {
      assert urls[1] in urls && urls[0] != urls[1];
    }
  }

  lemma ResolvedHasUrl(source: Bytes, refs: seq<Reference>)
    requires Resolve(source, refs).Ok?
    ensures HasUrl(refs, Resolve(source, refs).value)
  {
    if !HasUrl(refs, source) {
      var urls := CaptionUrls(source, refs);
      assert urls[0] in urls;
    }
  }

  // ----- Resolving a list -----

  predicate Binds(bindings: seq<Binding>, source: Bytes) {
    exists i :: 0 <= i < |bindings| && bindings[i].source == source
  }

  function TargetOf(bindings: seq<Binding>, source: Bytes): (target: Bytes)
    requires Binds(bindings, source)
    ensures Binding(source, target) in bindings
  {
    if bindings[0].source == source then bindings[0].target else TargetOf(bindings[1..], source)
  }

  /** Adding one given binding to those resolved before. */
  function Add(matched: seq<Binding>, binding: Binding, refs: seq<Reference>): Result<seq<Binding>, Error> {
    match Resolve(binding.source, refs)
    case Err(e) => Err(e)
    case Ok(url) =>
      if !Binds(matched, url) then Ok(matched + [Binding(url, binding.target)])
      else if TargetOf(matched, url) != binding.target then Err(Conflict)
      else Ok(matched)
  }

  function Matched(bindings: seq<Binding>, refs: seq<Reference>): Result<seq<Binding>, Error> {
    if bindings == [] then Ok([])
    else match Matched(bindings[..|bindings| - 1], refs)
      case Err(e) => Err(e)
      case Ok(matched) => Add(matched, bindings[|bindings| - 1], refs)
  }

  /** The first position that satisfies the source's search, or -1. */
  method IndexOfSource(bindings: seq<Binding>, source: Bytes) returns (index: int)
    ensures index < 0 <==> !Binds(bindings, source)
    ensures index >= 0 ==> index < |bindings| && bindings[index].source == source
    ensures index >= 0 ==> bindings[index].target == TargetOf(bindings, source)
  {
    for i := 0 to |bindings|
      invariant forall k | 0 <= k < i :: bindings[k].source != source
      invariant Binds(bindings, source) ==>
        Binds(bindings[i..], source) && TargetOf(bindings, source) == TargetOf(bindings[i..], source)
    {
      if bindings[i].source == source {
        return i;
      }
      assert bindings[i..][1..] == bindings[i + 1..];
      BindsTail(bindings[i..], source);
    }
    return -1;
  }

  lemma BindsTail(bindings: seq<Binding>, source: Bytes)
    requires bindings != [] && bindings[0].source != source
    ensures Binds(bindings, source) <==> Binds(bindings[1..], source)
  {
    forall i | 1 <= i < |bindings|
      ensures bindings[i] == bindings[1..][i - 1]
    {
    }
  }

  /** Once a binding is refused the whole list is. */
  lemma {:induction false} RefusalStays(bindings: seq<Binding>, k: nat, refs: seq<Reference>)
    requires k <= |bindings|
    ensures Matched(bindings[..k], refs).Err? ==> Matched(bindings, refs) == Matched(bindings[..k], refs)
    decreases |bindings|
  {
    if k < |bindings| {
      RefusalStays(bindings[..|bindings| - 1], k, refs);
      assert bindings[..|bindings| - 1][..k] == bindings[..k];
    } else {
      assert bindings[..k] == bindings;
    }
  }

  method MatchDatasourceBindings(bindings: seq<Binding>, refs: seq<Reference>)
      returns (result: Result<seq<Binding>, Error>)
    ensures result == Matched(bindings, refs)
  {
    var matched: seq<Binding> := [];
    for i := 0 to |bindings|
      invariant Matched(bindings[..i], refs) == Ok(matched)
    {
      var binding := bindings[i];
      assert bindings[..i + 1][..i] == bindings[..i];
      var urls: seq<Bytes> := [];
      if HasUrl(refs, binding.source) {
        urls := [binding.source];
      } else {
        for j := 0 to |refs|
          invariant urls == CaptionUrls(binding.source, refs[..j])
        {
          assert refs[..j + 1][..j] == refs[..j];
          if refs[j].caption == binding.source && refs[j].url !in urls {
            urls := urls + [refs[j].url];
          }
        }
        assert refs[..|refs|] == refs;
      }
      RefusalStays(bindings, i + 1, refs);
      if |urls| == 0 {
        return Err(NoMatch);
      }
      if |urls| > 1 {
        return Err(Ambiguous);
      }
      var index := IndexOfSource(matched, urls[0]);
      if index < 0 {
        matched := matched + [Binding(urls[0], binding.target)];
      } else if matched[index].target != binding.target {
        return Err(Conflict);
      }
    }
    assert bindings[..|bindings|] == bindings;
    return Ok(matched);
  }

  // ----- What a resolved list is -----

  /** Distinct sources, each a content URL of the workbook. */
  ghost predicate Canonical(list: seq<Binding>, refs: seq<Reference>) {
    && (forall i | 0 <= i < |list| :: HasUrl(refs, list[i].source))
    && forall i, j | 0 <= i < j < |list| :: list[i].source != list[j].source
  }

  lemma AddCanonical(matched: seq<Binding>, binding: Binding, refs: seq<Reference>)
    requires Canonical(matched, refs) && Add(matched, binding, refs).Ok?
    ensures Canonical(Add(matched, binding, refs).value, refs)
  {
    ResolvedHasUrl(binding.source, refs);
  }

  lemma {:induction false} MatchedCanonical(bindings: seq<Binding>, refs: seq<Reference>)
    requires Matched(bindings, refs).Ok?
    ensures Canonical(Matched(bindings, refs).value, refs)
    decreases |bindings|
  {
    if bindings != [] {
      var init := bindings[..|bindings| - 1];
      MatchedCanonical(init, refs);
      AddCanonical(Matched(init, refs).value, bindings[|bindings| - 1], refs);
    }
  }

  /** Resolving a resolved list gives it back. */
  lemma {:induction false} CanonicalFixed(list: seq<Binding>, refs: seq<Reference>)
    requires Canonical(list, refs)
    ensures Matched(list, refs) == Ok(list)
    decreases |list|
  {
    if list != [] {
      var init, last := list[..|list| - 1], list[|list| - 1];
      CanonicalFixed(init, refs);
      assert !Binds(init, last.source);
      assert init + [last] == list;
    }
  }

  /** Every given binding resolves, and no content URL is given two targets. */
  ghost predicate Consistent(bindings: seq<Binding>, refs: seq<Reference>) {
    && (forall i | 0 <= i < |bindings| :: Resolve(bindings[i].source, refs).Ok?)
    && forall i, j | 0 <= i < j < |bindings| ::
      Resolve(bindings[i].source, refs) == Resolve(bindings[j].source, refs) ==>
        bindings[i].target == bindings[j].target
  }

  /** The list says of each content URL what the given bindings say. */
  ghost predicate Says(list: seq<Binding>, bindings: seq<Binding>, refs: seq<Reference>) {
    forall url, target :: Binding(url, target) in list
      <==> exists i ::
        0 <= i < |bindings| && Resolve(bindings[i].source, refs) == Ok(url) && bindings[i].target == target
  }

  /** Resolving succeeds exactly on consistent bindings, and then says what they say. */
  lemma {:induction false} MatchedIff(bindings: seq<Binding>, refs: seq<Reference>)
    ensures Matched(bindings, refs).Ok? <==> Consistent(bindings, refs)
    ensures Matched(bindings, refs).Ok? ==> Says(Matched(bindings, refs).value, bindings, refs)
    decreases |bindings|
  {
    if bindings != [] {
      var init, last := bindings[..|bindings| - 1], bindings[|bindings| - 1];
      MatchedIff(init, refs);
      assert init + [last] == bindings;
      if Matched(init, refs).Ok? {
        MatchedCanonical(init, refs);
        AddConsistent(Matched(init, refs).value, init, last, refs);
        AddSays(Matched(init, refs).value, init, last, refs);
      } else {
        ConsistentPrefix(init, last, refs);
      }
    }
  }

  /** A list is refused for its first binding that does not fit: its source names nothing or too much, or it gives a
      content URL a second target. */
  lemma {:induction false} MatchedErrors(bindings: seq<Binding>, refs: seq<Reference>) returns (k: nat)
    ensures Matched(bindings, refs).Err? ==>
      && k < |bindings| && Consistent(bindings[..k], refs) && !Consistent(bindings[..k + 1], refs)
      && Matched(bindings, refs) == match Resolve(bindings[k].source, refs)
        case Err(e) => Err(e)
        case Ok(_) => Err(Conflict)
    decreases |bindings|
  {
    k := 0;
    if bindings != [] {
      var n := |bindings| - 1;
      var init := bindings[..n];
      k := MatchedErrors(init, refs);
      MatchedIff(init, refs);
      MatchedIff(bindings, refs);
      if Matched(init, refs).Ok? {
        k := n;
        assert bindings[..n + 1] == bindings;
      } else {
        assert init[..k] == bindings[..k] && init[..k + 1] == bindings[..k + 1];
      }
    }
  }

  lemma ConsistentPrefix(before: seq<Binding>, binding: Binding, refs: seq<Reference>)
    ensures Consistent(before + [binding], refs) ==> Consistent(before, refs)
  {
    assert forall i | 0 <= i < |before| :: (before + [binding])[i] == before[i];
  }

  /** A list with one binding more is consistent if that one resolves and repeats no content URL with another target. */
  lemma ConsistentMore(before: seq<Binding>, binding: Binding, refs: seq<Reference>)
    requires Consistent(before, refs)
    ensures Consistent(before + [binding], refs) <==> (
      && Resolve(binding.source, refs).Ok?
      && forall i | 0 <= i < |before| && Resolve(before[i].source, refs) == Resolve(binding.source, refs) ::
        before[i].target == binding.target)
  {
    var all := before + [binding];
    assert all[|before|] == binding && forall i | 0 <= i < |before| :: all[i] == before[i];
    forall i | 0 <= i < |before| && Resolve(before[i].source, refs) == Resolve(binding.source, refs)
        && before[i].target != binding.target
      ensures !Consistent(all, refs)
    {
      assert all[i] == before[i];
    }
  }

  /** A binding of a new content URL, or one that repeats a target, keeps a list consistent; another target does not. */
  lemma AddConsistent(matched: seq<Binding>, before: seq<Binding>, binding: Binding, refs: seq<Reference>)
    requires Canonical(matched, refs) && Consistent(before, refs) && Says(matched, before, refs)
    ensures Add(matched, binding, refs).Ok? <==> Consistent(before + [binding], refs)
  {
    ConsistentMore(before, binding, refs);
    if Resolve(binding.source, refs).Ok? {
      var url := Resolve(binding.source, refs).value;
      BoundOnce(matched, before, url, refs);
      if Binds(matched, url) {
        SaysTarget(matched, before, url, refs);
      }
    }
  }

  /** The target a list gives a content URL is the one every binding of it gave. */
  lemma SaysTarget(matched: seq<Binding>, before: seq<Binding>, url: Bytes, refs: seq<Reference>)
    requires Consistent(before, refs) && Says(matched, before, refs) && Binds(matched, url)
    ensures forall i | 0 <= i < |before| && Resolve(before[i].source, refs) == Ok(url) ::
      before[i].target == TargetOf(matched, url)
  {
    var target := TargetOf(matched, url);
    assert Binding(url, target) in matched;
    var k :| 0 <= k < |before| && Resolve(before[k].source, refs) == Ok(url) && before[k].target == target;
  }

  lemma AddSays(matched: seq<Binding>, before: seq<Binding>, binding: Binding, refs: seq<Reference>)
    requires Canonical(matched, refs) && Consistent(before, refs) && Says(matched, before, refs)
    ensures Add(matched, binding, refs).Ok? ==> Says(Add(matched, binding, refs).value, before + [binding], refs)
  {
    var all := before + [binding];
    assert all[|before|] == binding && forall i | 0 <= i < |before| :: all[i] == before[i];
    if Add(matched, binding, refs).Ok? {
      var url := Resolve(binding.source, refs).value;
      assert Binds(matched, url) ==> Binding(url, binding.target) in matched;
    }
  }

  lemma BoundOnce(matched: seq<Binding>, before: seq<Binding>, url: Bytes, refs: seq<Reference>)
    requires Says(matched, before, refs)
    ensures Binds(matched, url) <==> exists i :: 0 <= i < |before| && Resolve(before[i].source, refs) == Ok(url)
  {
    if i :| 0 <= i < |before| && Resolve(before[i].source, refs) == Ok(url) {
      assert Binding(url, before[i].target) in matched;
    }
    if Binds(matched, url) {
      assert Binding(url, TargetOf(matched, url)) in matched;
    }
  }

  // ----- What is left to the site -----

  /** The first reference to each distinct content URL that no binding covers. */
  function Unmapped(refs: seq<Reference>, bindings: seq<Binding>): seq<Reference> {
    if refs == [] then []
    else
      var left, last := Unmapped(refs[..|refs| - 1], bindings), refs[|refs| - 1];
      if !Binds(bindings, last.url) && !HasUrl(left, last.url) then left + [last] else left
  }

  method UnmappedDatasourceReferences(refs: seq<Reference>, bindings: seq<Binding>) returns (left: seq<Reference>)
    ensures left == Unmapped(refs, bindings)
  {
    left := [];
    for i := 0 to |refs|
      invariant left == Unmapped(refs[..i], bindings)
    {
      assert refs[..i + 1][..i] == refs[..i];
      var mapped := Binds(bindings, refs[i].url);
      var seen := HasUrl(left, refs[i].url);
      if !mapped && !seen {
        left := left + [refs[i]];
      }
    }
    assert refs[..|refs|] == refs;
  }

  function Urls(refs: seq<Reference>): set<Bytes> {
    set i | 0 <= i < |refs| :: refs[i].url
  }

  function Sources(bindings: seq<Binding>): set<Bytes> {
    set i | 0 <= i < |bindings| :: bindings[i].source
  }

  /** Each content URL is unmapped at most once, and exactly when the workbook refers to it and no binding covers it. */
  lemma {:induction false} UnmappedPartition(refs: seq<Reference>, bindings: seq<Binding>)
    ensures forall i, j | 0 <= i < j < |Unmapped(refs, bindings)| ::
      Unmapped(refs, bindings)[i].url != Unmapped(refs, bindings)[j].url
    ensures forall url :: HasUrl(Unmapped(refs, bindings), url) <==> HasUrl(refs, url) && !Binds(bindings, url)
    decreases |refs|
  {
    if refs != [] {
      var init, last := refs[..|refs| - 1], refs[|refs| - 1];
      UnmappedPartition(init, bindings);
      var before, after := Unmapped(init, bindings), Unmapped(refs, bindings);
      forall url
        ensures HasUrl(refs, url) <==> HasUrl(init, url) || url == last.url
      {
        assert refs == init + [last];
        HasUrlAppend(init, last, url);
      }
      forall url
        ensures HasUrl(after, url) <==> HasUrl(refs, url) && !Binds(bindings, url)
      {
        HasUrlAppend(before, last, url);
      }
    }
  }

  /** The reference at this place is the first to its content URL, and no binding covers it. */
  ghost predicate FirstUnmapped(refs: seq<Reference>, bindings: seq<Binding>, k: nat)
    requires k < |refs|
  {
    && (forall i | 0 <= i < |bindings| :: bindings[i].source != refs[k].url)
    && forall j | 0 <= j < k :: refs[j].url != refs[k].url
  }

  /** What is left unmapped are the first references to the uncovered content URLs, in the workbook's order. */
  lemma {:induction false} UnmappedInOrder(refs: seq<Reference>, bindings: seq<Binding>) returns (at: seq<nat>)
    ensures Picks(refs, at, Unmapped(refs, bindings))
    ensures forall k: nat | k < |refs| :: k in at <==> FirstUnmapped(refs, bindings, k)
    decreases |refs|
  {
    at := [];
    if refs != [] {
      var n := |refs| - 1;
      var init := refs[..n];
      at := UnmappedInOrder(init, bindings);
      UnmappedPartition(init, bindings);
      assert forall k: nat | k < n :: FirstUnmapped(refs, bindings, k) <==> FirstUnmapped(init, bindings, k);
      UnmappedLast(refs, bindings);
      PicksMore(refs, at, Unmapped(init, bindings));
      if FirstUnmapped(refs, bindings, n) {
        at := at + [n];
      }
    }
  }

  lemma HasUrlBefore(refs: seq<Reference>, n: nat)
    requires n < |refs|
    ensures HasUrl(refs[..n], refs[n].url) <==> !forall j | 0 <= j < n :: refs[j].url != refs[n].url
  {
  }

  lemma {:induction false} UnmappedLast(refs: seq<Reference>, bindings: seq<Binding>)
    requires refs != []
    ensures var n := |refs| - 1;
      Unmapped(refs, bindings)
        == Unmapped(refs[..n], bindings) + if FirstUnmapped(refs, bindings, n) then [refs[n]] else []
  {
    var n := |refs| - 1;
    UnmappedPartition(refs[..n], bindings);
    HasUrlBefore(refs, n);
  }

  lemma HasUrlAppend(refs: seq<Reference>, last: Reference, url: Bytes)
    ensures HasUrl(refs + [last], url) <==> HasUrl(refs, url) || url == last.url
  {
    var all := refs + [last];
    assert all[|refs|] == last;
    if HasUrl(refs, url) {
      var i :| 0 <= i < |refs| && refs[i].url == url;
      assert all[i].url == url;
    }
  }

  /** A resolved list and what it leaves unmapped account for every distinct content URL once. */
  lemma {:induction false} BoundAndUnmapped(refs: seq<Reference>, list: seq<Binding>)
    requires Canonical(list, refs)
    ensures Sources(list) !! Urls(Unmapped(refs, list)) && Sources(list) + Urls(Unmapped(refs, list)) == Urls(refs)
    ensures |list| + |Unmapped(refs, list)| == |Urls(refs)|
  {
    UnmappedPartition(refs, list);
    var left := Unmapped(refs, list);
    forall url
      ensures url in Urls(refs) <==> HasUrl(refs, url)
      ensures url in Urls(left) <==> HasUrl(left, url)
      ensures url in Sources(list) <==> Binds(list, url)
    {
    }
    SourcesCount(list);
    UrlsCount(left);
  }

  lemma SourcesCount(list: seq<Binding>)
    requires forall i, j | 0 <= i < j < |list| :: list[i].source != list[j].source
    ensures |Sources(list)| == |list|
  {
    var texts := seq(|list|, i requires 0 <= i < |list| => list[i].source);
    assert forall i | 0 <= i < |list| :: texts[i] == list[i].source;
    DistinctCount(texts);
    assert Sources(list) == Members(texts);
  }

  lemma UrlsCount(left: seq<Reference>)
    requires forall i, j | 0 <= i < j < |left| :: left[i].url != left[j].url
    ensures |Urls(left)| == |left|
  {
    var texts := seq(|left|, i requires 0 <= i < |left| => left[i].url);
    assert forall i | 0 <= i < |left| :: texts[i] == left[i].url;
    DistinctCount(texts);
    assert Urls(left) == Members(texts);
  }

  function Members(texts: seq<Bytes>): set<Bytes> {
    set i | 0 <= i < |texts| :: texts[i]
  }

  lemma {:induction false} DistinctCount(texts: seq<Bytes>)
    requires forall i, j | 0 <= i < j < |texts| :: texts[i] != texts[j]
    ensures |Members(texts)| == |texts|
    decreases |texts|
  {
    if texts != [] {
      var init, last := texts[..|texts| - 1], texts[|texts| - 1];
      assert Members(texts) == Members(init) + {last} && last !in Members(init);
      DistinctCount(init);
    }
  }

  // ----- Remapping -----

  /** The bindings of a remap command, resolved again, are the old ones and the new one. */
  lemma {:induction false} RemapAddsOne(refs: seq<Reference>, list: seq<Binding>, url: Bytes, target: Bytes)
    requires Canonical(list, refs) && HasUrl(Unmapped(refs, list), url)
    ensures var more := list + [Binding(url, target)];
      && Matched(more, refs) == Ok(more) && Canonical(more, refs)
      && |Unmapped(refs, more)| == |Unmapped(refs, list)| - 1
      && forall u :: HasUrl(Unmapped(refs, more), u) <==> HasUrl(Unmapped(refs, list), u) && u != url
  {
    var more := list + [Binding(url, target)];
    UnmappedPartition(refs, list);
    CanonicalMore(refs, list, url, target);
    CanonicalFixed(more, refs);
    UnmappedPartition(refs, more);
    BoundAndUnmapped(refs, list);
    BoundAndUnmapped(refs, more);
    forall u
      ensures Binds(more, u) <==> Binds(list, u) || u == url
    {
      BindsMore(list, url, target, u);
    }
  }

  lemma CanonicalMore(refs: seq<Reference>, list: seq<Binding>, url: Bytes, target: Bytes)
    requires Canonical(list, refs) && HasUrl(refs, url) && !Binds(list, url)
    ensures Canonical(list + [Binding(url, target)], refs)
  {
    var more := list + [Binding(url, target)];
    assert forall i | 0 <= i < |list| :: more[i] == list[i];
    assert more[|list|].source == url;
  }

  lemma BindsMore(list: seq<Binding>, url: Bytes, target: Bytes, u: Bytes)
    ensures Binds(list + [Binding(url, target)], u) <==> Binds(list, u) || u == url
  {
    var more := list + [Binding(url, target)];
    assert more[|list|].source == url;
    if Binds(list, u) {
      var i :| 0 <= i < |list| && list[i].source == u;
      assert more[i].source == u;
    }
  }

  /** Each run's bindings are the one before with one unmapped URL bound. */
  ghost predicate RemapRuns(refs: seq<Reference>, runs: seq<seq<Binding>>) {
    && runs != [] && Canonical(runs[0], refs)
    && forall k | 0 < k < |runs| :: Remap(refs, runs[k - 1], runs[k])
  }

  ghost predicate Remap(refs: seq<Reference>, before: seq<Binding>, after: seq<Binding>) {
    exists url, target :: HasUrl(Unmapped(refs, before), url) && after == before + [Binding(url, target)]
  }

  /** Remapping again and again, with any targets in any order, ends with nothing unmapped
      after as many runs as there were unmapped URLs, and goes on until then. */
  lemma {:induction false} RemappingEnds(refs: seq<Reference>, runs: seq<seq<Binding>>)
    requires RemapRuns(refs, runs)
    ensures var last := runs[|runs| - 1];
      && Canonical(last, refs) && Matched(last, refs) == Ok(last) && runs[0] <= last
      && |Unmapped(refs, last)| == |Unmapped(refs, runs[0])| - (|runs| - 1)
    decreases |runs|
  {
    var n := |runs| - 1;
    CanonicalFixed(runs[0], refs);
    if n > 0 {
      RemapsPrefix(refs, runs, n);
      RemappingEnds(refs, runs[..n]);
      assert runs[..n][n - 1] == runs[n - 1];
      assert Remap(refs, runs[n - 1], runs[n]);
      var url, target :| HasUrl(Unmapped(refs, runs[n - 1]), url) && runs[n] == runs[n - 1] + [Binding(url, target)];
      RemapAddsOne(refs, runs[n - 1], url, target);
    }
  }

  lemma RemapsPrefix(refs: seq<Reference>, runs: seq<seq<Binding>>, n: nat)
    requires RemapRuns(refs, runs) && 0 < n <= |runs|
    ensures RemapRuns(refs, runs[..n])
  {
    forall k | 0 < k < n
      ensures Remap(refs, runs[..n][k - 1], runs[..n][k])
    {
      assert Remap(refs, runs[k - 1], runs[k]);
    }
  }

  // ----- The command -----

  /** The last equals sign, or -1. */
  function LastEquals(text: Bytes): (i: int)
    ensures -1 <= i < |text|
    ensures i >= 0 ==> text[i] == EQUALS
    ensures forall j | i < j < |text| :: text[j] != EQUALS
  {
    if text == [] then -1
    else if text[|text| - 1] == EQUALS then |text| - 1
    else LastEquals(text[..|text| - 1])
  }

  function Parse(text: Bytes): Result<Binding, Error> {
    var i := LastEquals(text);
    if i <= 0 || i == |text| - 1 then Err(NotABinding) else Ok(Binding(text[..i], text[i + 1..]))
  }

  function Argument(binding: Binding): Bytes {
    binding.source + [EQUALS] + binding.target
  }

  /** An argument of a remap command is read back exactly when neither part is empty and the
      target holds no equals sign; the source may hold any number of them. */
  lemma ArgumentRoundTrip(binding: Binding)
    ensures Parse(Argument(binding)) == Ok(binding)
      <==> binding.source != [] && binding.target != [] && EQUALS !in binding.target
  {
    var text, i := Argument(binding), LastEquals(Argument(binding));
    assert text[|binding.source|] == EQUALS;
    assert forall k | |binding.source| < k < |text| :: text[k] == binding.target[k - |binding.source| - 1];
    if EQUALS in binding.target {
      var k :| 0 <= k < |binding.target| && binding.target[k] == EQUALS;
      assert text[|binding.source| + 1 + k] == EQUALS;
    }
    if i == |binding.source| {
      assert text[..i] == binding.source && text[i + 1..] == binding.target;
    }
  }

  lemma NoneAfterLast(text: Bytes)
    ensures EQUALS !in text[LastEquals(text) + 1..]
  {
  }

  lemma ParsedParts(text: Bytes)
    requires Parse(text).Ok?
    ensures Argument(Parse(text).value) == text && Writable(Parse(text).value)
  {
    var i := LastEquals(text);
    NoneAfterLast(text);
    assert text[..i] + [text[i]] + text[i + 1..] == text;
  }

  /** The parser accepts exactly the arguments that a remap command can write, and reads them back. */
  lemma ParseIff(text: Bytes, binding: Binding)
    ensures Parse(text) == Ok(binding) <==> Argument(binding) == text && Writable(binding)
  {
    ArgumentRoundTrip(binding);
    if Parse(text).Ok? {
      ParsedParts(text);
    }
  }

  function ParseAll(texts: seq<Bytes>): Result<seq<Binding>, Error> {
    if texts == [] then Ok([])
    else match Parse(texts[0])
      case Err(e) => Err(e)
      case Ok(binding) => match ParseAll(texts[1..])
        case Err(e) => Err(e)
        case Ok(rest) => Ok([binding] + rest)
  }

  function Arguments(bindings: seq<Binding>): (texts: seq<Bytes>)
    ensures |texts| == |bindings|
  {
    seq(|bindings|, i requires 0 <= i < |bindings| => Argument(bindings[i]))
  }

  predicate Writable(binding: Binding) {
    binding.source != [] && binding.target != [] && EQUALS !in binding.target
  }

  lemma {:induction false} ArgumentsRoundTrip(bindings: seq<Binding>)
    ensures ParseAll(Arguments(bindings)) == Ok(bindings) <==> forall i | 0 <= i < |bindings| :: Writable(bindings[i])
    decreases |bindings|
  {
    if bindings != [] {
      ArgumentRoundTrip(bindings[0]);
      assert Arguments(bindings)[0] == Argument(bindings[0]);
      assert Arguments(bindings)[1..] == Arguments(bindings[1..]);
      ArgumentsRoundTrip(bindings[1..]);
      assert bindings == [bindings[0]] + bindings[1..];
      assert (forall i | 0 <= i < |bindings| :: Writable(bindings[i]))
        <==> (Writable(bindings[0]) && forall i | 0 <= i < |bindings[1..]| :: Writable(bindings[1..][i])) by {
        assert forall i | 0 <= i < |bindings[1..]| :: bindings[1..][i] == bindings[i + 1];
      }
    }
  }

  /** Running the remap command resolves to the planned bindings and the added one exactly
      when every one of them can be written as an argument. */
  lemma RemapCommand(refs: seq<Reference>, list: seq<Binding>, url: Bytes, target: Bytes)
    requires Canonical(list, refs) && HasUrl(Unmapped(refs, list), url)
    ensures var more := list + [Binding(url, target)];
      var parsed := ParseAll(Arguments(more));
      (parsed == Ok(more) && Matched(parsed.value, refs) == Ok(more))
      <==> url != [] && target != [] && EQUALS !in target && forall i | 0 <= i < |list| :: Writable(list[i])
  {
    var more := list + [Binding(url, target)];
    RemapAddsOne(refs, list, url, target);
    ArgumentsRoundTrip(more);
    assert more[|list|] == Binding(url, target) && forall i | 0 <= i < |list| :: more[i] == list[i];
  }

  // ----- Reading the targets -----

  /** How one reference will bind. */
  datatype Row = Row(caption: Bytes, url: Bytes, explicit: bool, targetUrl: Bytes, target: Bytes)

  /** What the display says of one reference, given what reading each binding's target answered. */
  ghost predicate Displays(row: Row, reference: Reference, bindings: seq<Binding>, answers: seq<Option<Bytes>>)
    requires |answers| >= |bindings|
  {
    && row.caption == reference.caption && row.url == reference.url
    && (row.explicit <==> Binds(bindings, reference.url))
    && (row.explicit ==> exists i :: 0 <= i < |bindings| && Bound(row, bindings[i], answers[i]))
    && (!row.explicit ==> row.targetUrl == reference.url && row.target == [])
  }

  ghost predicate Bound(row: Row, binding: Binding, answer: Option<Bytes>) {
    binding == Binding(row.url, row.target) && answer == Some(row.targetUrl) && row.targetUrl != []
  }

  /** The maps built from the first n bindings hold their targets' content URLs and identifiers. */
  ghost predicate Holds(
    bindings: seq<Binding>, answers: seq<Option<Bytes>>, n: nat, contentUrls: map<Bytes, Bytes>,
    targets: map<Bytes, Bytes>)
    requires n <= |bindings| <= |answers|
  {
    && contentUrls.Keys == Sources(bindings[..n]) == targets.Keys
    && forall k | 0 <= k < n ::
      && answers[k] == Some(contentUrls[bindings[..n][k].source]) && answers[k] != Some([])
      && targets[bindings[..n][k].source] == bindings[k].target
  }

  lemma HoldsOneMore(
    bindings: seq<Binding>, answers: seq<Option<Bytes>>, n: nat, contentUrls: map<Bytes, Bytes>,
    targets: map<Bytes, Bytes>)
    requires n < |bindings| <= |answers| && Holds(bindings, answers, n, contentUrls, targets)
    requires answers[n].Some? && answers[n] != Some([])
    requires forall i, j | 0 <= i < j < |bindings| :: bindings[i].source != bindings[j].source
    ensures var source := bindings[n].source;
      Holds(bindings, answers, n + 1, contentUrls[source := answers[n].value], targets[source := bindings[n].target])
  {
    var more := bindings[..n + 1];
    assert more == bindings[..n] + [bindings[n]];
    assert forall k | 0 <= k < n :: more[k] == bindings[..n][k];
    assert Sources(more) == Sources(bindings[..n]) + {bindings[n].source} by {
      assert more[n].source in Sources(more);
      forall source <- Sources(bindings[..n])
        ensures source in Sources(more)
      {
        var k :| 0 <= k < n && bindings[..n][k].source == source;
        assert more[k].source == source;
      }
    }
  }

  method ReadTargets(bindings: seq<Binding>, answers: seq<Option<Bytes>>)
      returns (ok: bool, contentUrls: map<Bytes, Bytes>, targets: map<Bytes, Bytes>)
    requires |answers| == |bindings|
    requires forall i, j | 0 <= i < j < |bindings| :: bindings[i].source != bindings[j].source
    ensures ok <==> forall i | 0 <= i < |bindings| :: answers[i].Some? && answers[i] != Some([])
    ensures ok ==> Holds(bindings, answers, |bindings|, contentUrls, targets)
  {
    contentUrls, targets := map[], map[];
    for i := 0 to |bindings|
      invariant Holds(bindings, answers, i, contentUrls, targets)
    {
      var binding := bindings[i];
      if answers[i].None? || answers[i].value == [] {
        return false, contentUrls, targets;
      }
      HoldsOneMore(bindings, answers, i, contentUrls, targets);
      contentUrls := contentUrls[binding.source := answers[i].value];
      targets := targets[binding.source := binding.target];
    }
    ok := true;
  }

  lemma BoundRow(
    bindings: seq<Binding>, answers: seq<Option<Bytes>>, contentUrls: map<Bytes, Bytes>, targets: map<Bytes, Bytes>,
    reference: Reference)
    requires |answers| == |bindings| && Holds(bindings, answers, |bindings|, contentUrls, targets)
    ensures reference.url in targets <==> Binds(bindings, reference.url)
    ensures reference.url in targets ==> reference.url in contentUrls
    ensures reference.url in targets ==>
      var row := Row(reference.caption, reference.url, true, contentUrls[reference.url], targets[reference.url]);
      Displays(row, reference, bindings, answers)
  {
    assert bindings[..|bindings|] == bindings;
    if reference.url in targets {
      var row := Row(reference.caption, reference.url, true, contentUrls[reference.url], targets[reference.url]);
      var k :| 0 <= k < |bindings| && bindings[k].source == reference.url;
      assert Bound(row, bindings[k], answers[k]);
    }
  }

  /** Each binding's target is read once (answers[i] is what reading binding i gave); an
      unreadable one or one without a content URL refuses. The rewrite covers exactly the bound
      sources, and each reference is shown as bound exactly when it is rewritten. */
  method ReadDatasourceBindings(refs: seq<Reference>, bindings: seq<Binding>, answers: seq<Option<Bytes>>)
      returns (ok: bool, rewrite: map<Bytes, Bytes>, rows: seq<Row>)
    requires Canonical(bindings, refs) && |answers| == |bindings|
    ensures ok <==> forall i | 0 <= i < |bindings| :: answers[i].Some? && answers[i] != Some([])
    ensures ok ==> rewrite.Keys == Sources(bindings)
    ensures ok ==> forall i | 0 <= i < |bindings| ::
      bindings[i].source in rewrite && answers[i] == Some(rewrite[bindings[i].source])
    ensures ok ==> |rows| == |refs| && forall k | 0 <= k < |rows| :: Displays(rows[k], refs[k], bindings, answers)
  {
    var targets: map<Bytes, Bytes>;
    ok, rewrite, targets := ReadTargets(bindings, answers);
    rows := [];
    if !ok {
      return;
    }
    assert bindings[..|bindings|] == bindings;
    for k := 0 to |refs|
      invariant |rows| == k && forall j | 0 <= j < k :: Displays(rows[j], refs[j], bindings, answers)
    {
      var reference := refs[k];
      BoundRow(bindings, answers, rewrite, targets, reference);
      var row := Row(reference.caption, reference.url, false, reference.url, []);
      if reference.url in targets {
        row := row.(explicit := true, targetUrl := rewrite[reference.url], target := targets[reference.url]);
      }
      rows := rows + [row];
    }
  }
}
