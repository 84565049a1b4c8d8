/** Refreshing the capability map page (cmd/gencapdocs/main.go): the totals in the
    page head are rewritten, the registry snapshot between the marker and the
    closing tag is replaced, and running the generator again changes nothing. */
module CapabilityPage {
  import opened Common
  import opened ByteText
  import opened CapabilityMap

  // ----- The totals -----

  datatype Implementation = Implemented | Planned | OtherImplementation
  datatype Definition = Definition(cli: bool, implementation: Implementation, blocked: bool, remoteMutation: bool)

  predicate IsCommand(d: Definition) {
    d.cli
  }

  predicate IsImplemented(d: Definition) {
    d.cli && d.implementation == Implemented
  }

  predicate IsPlanned(d: Definition) {
    d.cli && d.implementation == Planned
  }

  predicate IsBlocked(d: Definition) {
    d.cli && d.blocked
  }

  predicate IsRemoteMutation(d: Definition) {
    d.cli && d.remoteMutation
  }

  /** How many definitions satisfy the condition. */
  function Tally(definitions: seq<Definition>, counted: Definition -> bool): nat {
    if definitions == [] then 0
    else Tally(definitions[..|definitions| - 1], counted) + if counted(definitions[|definitions| - 1]) then 1 else 0
  }

  /** What the seven slots are to read, in the order of NAMES. */
  function Totals(definitions: seq<Definition>): (values: seq<nat>)
    ensures |values| == 7
  {
    var total := Tally(definitions, IsCommand);
    [ total, total, total, Tally(definitions, IsImplemented), Tally(definitions, IsPlanned),
      Tally(definitions, IsBlocked), Tally(definitions, IsRemoteMutation)]
  }

  method CommandTotals(definitions: seq<Definition>) returns (values: seq<nat>)
    ensures values == Totals(definitions)
  {
    var total, implemented, planned, blocked, remote := 0, 0, 0, 0, 0;
    for i := 0 to |definitions|
      invariant total == Tally(definitions[..i], IsCommand)
      invariant implemented == Tally(definitions[..i], IsImplemented)
      invariant planned == Tally(definitions[..i], IsPlanned)
      invariant blocked == Tally(definitions[..i], IsBlocked)
      invariant remote == Tally(definitions[..i], IsRemoteMutation)
    {
      var definition := definitions[i];
      assert definitions[..i + 1][..i] == definitions[..i];
      if !definition.cli {
        continue;
      }
      total := total + 1;
      match definition.implementation {
        case Implemented => implemented := implemented + 1;
        case Planned => planned := planned + 1;
        case OtherImplementation =>
      }
      if definition.blocked {
        blocked := blocked + 1;
      }
      if definition.remoteMutation {
        remote := remote + 1;
      }
    }
    assert definitions[..|definitions|] == definitions;
    values := [total, total, total, implemented, planned, blocked, remote];
  }

  function Named(names: seq<Bytes>, values: seq<nat>): (counts: seq<Count>)
    requires |names| == |values|
    ensures Ids(counts) == names && forall c <- counts :: c.value >= 0
  {
    seq(|names|, i requires 0 <= i < |names| => Count(names[i], values[i]))
  }

  const SOURCE_TOTAL := Ascii("sourceTotal")
  const TOTAL_COUNT := Ascii("totalCount")
  const FOOTER_TOTAL := Ascii("footerTotal")
  const IMPLEMENTED_COUNT := Ascii("implementedCount")
  const PLANNED_COUNT := Ascii("plannedCount")
  const BLOCKED_COUNT := Ascii("blockedCount")
  const REMOTE_MUTATION_COUNT := Ascii("remoteMutationCount")

  const NAMES := [
    SOURCE_TOTAL, TOTAL_COUNT, FOOTER_TOTAL, IMPLEMENTED_COUNT, PLANNED_COUNT, BLOCKED_COUNT, REMOTE_MUTATION_COUNT]

  /** How many definitions there are of a kind. */
  ghost function HowMany(definitions: seq<Definition>, of: Definition -> bool): nat {
    |set i | 0 <= i < |definitions| && of(definitions[i])|
  }

  lemma HowManyMore(definitions: seq<Definition>, last: Definition, of: Definition -> bool)
    ensures HowMany(definitions + [last], of) == HowMany(definitions, of) + if of(last) then 1 else 0
  {
    var n, more := |definitions|, definitions + [last];
    var before := set i | 0 <= i < n && of(definitions[i]);
    var all := set i | 0 <= i < |more| && of(more[i]);
    assert forall i | 0 <= i < n :: more[i] == definitions[i];
    assert all == before + if of(last) then {n} else {};
    assert n !in before;
  }

  lemma {:induction false} TallyIsHowMany(definitions: seq<Definition>, counted: Definition -> bool)
    ensures Tally(definitions, counted) == HowMany(definitions, counted)
    decreases |definitions|
  {
    if definitions != [] {
      var init, last := definitions[..|definitions| - 1], definitions[|definitions| - 1];
      TallyIsHowMany(init, counted);
      HowManyMore(init, last, counted);
      assert init + [last] == definitions;
    }
  }

  /** Each slot's number is that of the commands it stands for. */
  ghost predicate CountsCommands(counts: seq<Count>, definitions: seq<Definition>) {
    && |counts| == 7
    && counts[0] == Count(SOURCE_TOTAL, HowMany(definitions, (d: Definition) => d.cli))
    && counts[1] == Count(TOTAL_COUNT, HowMany(definitions, (d: Definition) => d.cli))
    && counts[2] == Count(FOOTER_TOTAL, HowMany(definitions, (d: Definition) => d.cli))
    && counts[3] == Count(IMPLEMENTED_COUNT,
      HowMany(definitions, (d: Definition) => d.cli && d.implementation.Implemented?))
    && counts[4] == Count(PLANNED_COUNT,
      HowMany(definitions, (d: Definition) => d.cli && d.implementation.Planned?))
    && counts[5] == Count(BLOCKED_COUNT, HowMany(definitions, (d: Definition) => d.cli && d.blocked))
    && counts[6] == Count(REMOTE_MUTATION_COUNT,
      HowMany(definitions, (d: Definition) => d.cli && d.remoteMutation))
  }

  lemma SameHowMany(definitions: seq<Definition>, f: Definition -> bool, g: Definition -> bool)
    requires forall d :: f(d) == g(d)
    ensures HowMany(definitions, f) == HowMany(definitions, g)
  {
    assert (set i | 0 <= i < |definitions| && f(definitions[i]))
      == set i | 0 <= i < |definitions| && g(definitions[i]);
  }

  lemma CountsMean(definitions: seq<Definition>)
    ensures CountsCommands(Named(NAMES, Totals(definitions)), definitions)
  {
    TallyIsHowMany(definitions, IsCommand);
    TallyIsHowMany(definitions, IsImplemented);
    TallyIsHowMany(definitions, IsPlanned);
    TallyIsHowMany(definitions, IsBlocked);
    TallyIsHowMany(definitions, IsRemoteMutation);
    SameHowMany(definitions, IsCommand, (d: Definition) => d.cli);
    SameHowMany(definitions, IsImplemented, (d: Definition) => d.cli && d.implementation.Implemented?);
    SameHowMany(definitions, IsPlanned, (d: Definition) => d.cli && d.implementation.Planned?);
    SameHowMany(definitions, IsBlocked, (d: Definition) => d.cli && d.blocked);
    SameHowMany(definitions, IsRemoteMutation, (d: Definition) => d.cli && d.remoteMutation);
  }

  method CommandCounts(definitions: seq<Definition>) returns (counts: seq<Count>)
    ensures counts == Named(NAMES, Totals(definitions)) && CountsCommands(counts, definitions)
  {
    CountsMean(definitions);
    var values := CommandTotals(definitions);
    counts := Named(NAMES, values);
  }

  /** Letters and the few punctuation marks that occur between the quotes of a tag. */
  predicate Plain(s: string) {
    forall i | 0 <= i < |s| ::
      s[i] == '-' || s[i] == '/' || s[i] == '=' || s[i] == ' ' || s[i] == '<' || 'A' <= s[i] <= 'z'
  }

  lemma PlainAscii(s: string)
    requires Plain(s)
    ensures AllAscii(s) && CleanId(Ascii(s)) && NEWLINE !in Ascii(s)
  {
    forall i | 0 <= i < |s|
      ensures Ascii(s)[i] !in {QUOTE, GT, NEWLINE}
    {
    }
  }

  /** The generator's own slot names are clean and all different. */
  lemma NamesCleanDistinct()
    ensures CleanDistinct(NAMES)
  {
    PlainAscii("sourceTotal");
    PlainAscii("totalCount");
    PlainAscii("footerTotal");
    PlainAscii("implementedCount");
    PlainAscii("plannedCount");
    PlainAscii("blockedCount");
    PlainAscii("remoteMutationCount");
    assert Ascii("sourceTotal")[0] as int == 's' as int && Ascii("footerTotal")[0] as int == 'f' as int;
    assert Ascii("plannedCount")[0] as int == 'p' as int && Ascii("blockedCount")[0] as int == 'b' as int;
  }

  // ----- The page -----

  /** The texts that enclose the registry snapshot. */
  datatype Marks = Marks(open: Bytes, close: Bytes)

  const SCRIPT_ID := Ascii("<script id=")
  const DATA_ID := Ascii("capability-data")
  const TYPE_IS := Ascii(" type=")
  const JSON_TYPE := Ascii("application/json")
  const SCRIPT_END := Ascii("</script")

  const MARKER_TEXT := SCRIPT_ID + [QUOTE] + DATA_ID + [QUOTE] + TYPE_IS + [QUOTE] + JSON_TYPE + [QUOTE]
  const MARKER := MARKER_TEXT + [GT]
  const CLOSE := SCRIPT_END + [GT]

  ghost predicate SoundMark(pat: Bytes) {
    Tag(pat) && NEWLINE !in pat
  }

  ghost predicate Sound(marks: Marks) {
    SoundMark(marks.open) && SoundMark(marks.close)
  }

  /** Text that starts with an opening bracket and holds neither a closing one nor a line break. */
  predicate Inline(text: Bytes) {
    GT !in text && NEWLINE !in text
  }

  lemma SoundTag(text: Bytes)
    requires text != [] && text[0] == LT && Inline(text)
    ensures SoundMark(text + [GT])
  {
    var pat := text + [GT];
    forall i | 0 <= i < |pat| - 1
      ensures pat[i] != GT
    {
      assert pat[i] == text[i];
    }
  }

  lemma PlainInline(s: string)
    requires Plain(s)
    ensures AllAscii(s) && Inline(Ascii(s))
  {
    PlainAscii(s);
  }

  lemma MarkerInline()
    ensures Inline(MARKER_TEXT) && |MARKER_TEXT| > 0 && MARKER_TEXT[0] == LT
  {
    PlainInline("<script id=");
    PlainInline("capability-data");
    PlainInline(" type=");
    PlainInline("application/json");
    assert MARKER_TEXT[0] == SCRIPT_ID[0];
  }

  lemma CloseInline()
    ensures Inline(SCRIPT_END) && |SCRIPT_END| > 0 && SCRIPT_END[0] == LT
  {
    PlainInline("</script");
  }

  /** The page's own marker and closing tag. */
  lemma PageMarksSound()
    ensures Sound(Marks(MARKER, CLOSE))
  {
    MarkerInline();
    CloseInline();
    SoundTag(MARKER_TEXT);
    SoundTag(SCRIPT_END);
  }

  /** The refreshed page: rewritten head, newline, trimmed data, newline, closing tag and all that follows it. */
  function Page(authored: Bytes, data: Bytes, tail: Bytes): Bytes {
    authored + [NEWLINE] + data + [NEWLINE] + tail
  }

  /** Where the data begins and where it ends. */
  function Island(marks: Marks, document: Bytes): (island: Result<(nat, nat), Error>)
    requires marks.open != []
    ensures island.Ok? ==> island.value.0 <= island.value.1 <= |document|
  {
    if CountFrom(document, marks.open, 0) != 1 then Err(NoMarker)
    else
      var start := IndexFrom(document, marks.open, 0) + |marks.open|;
      var end := IndexFrom(document, marks.close, start);
      if end == -1 then Err(NoClosing) else Ok((start, end))
  }

  function Refreshed(marks: Marks, document: Bytes, data: Bytes, counts: seq<Count>): Result<Bytes, Error>
    requires marks.open != []
  {
    match Island(marks, document)
    case Err(e) => Err(e)
    case Ok((start, end)) => Assembled(document[..start], document[end..], data, counts)
  }

  function Assembled(head: Bytes, tail: Bytes, data: Bytes, counts: seq<Count>): Result<Bytes, Error> {
    match Replaced(head, counts)
    case Err(e) => Err(e)
    case Ok(authored) => Ok(Page(authored, TrimSpace(data), tail))
  }

  /** Appending the parts of a page one after the other. */
  method Join(authored: Bytes, data: Bytes, tail: Bytes) returns (updated: Bytes)
    ensures updated == Page(authored, data, tail)
  {
    updated := authored + [NEWLINE];
    updated := updated + data;
    updated := updated + [NEWLINE];
    updated := updated + tail;
  }

  method FindIsland(marks: Marks, document: Bytes) returns (island: Result<(nat, nat), Error>)
    requires marks.open != []
    ensures island == Island(marks, document)
  {
    if CountFrom(document, marks.open, 0) != 1 {
      return Err(NoMarker);
    }
    var start := IndexFrom(document, marks.open, 0) + |marks.open|;
    var end := IndexFrom(document, marks.close, start);
    if end < 0 {
      return Err(NoClosing);
    }
    return Ok((start, end));
  }

  method UpdateMap(marks: Marks, document: Bytes, data: Bytes, counts: seq<Count>)
      returns (result: Result<Bytes, Error>)
    requires marks.open != []
    ensures result == Refreshed(marks, document, data, counts)
  {
    var island := FindIsland(marks, document);
    if island.Err? {
      return Err(island.error);
    }
    var (start, end) := island.value;
    result := Rebuild(document[..start], document[end..], data, counts);
  }

  /** Rewriting the head and putting the page together again. */
  method Rebuild(head: Bytes, tail: Bytes, data: Bytes, counts: seq<Count>) returns (result: Result<Bytes, Error>)
    ensures result == Assembled(head, tail, data, counts)
  {
    var authored := ReplaceCounts(head, counts);
    if authored.Err? {
      return Err(authored.error);
    }
    var page := Join(authored.value, TrimSpace(data), tail);
    return Ok(page);
  }

  // ----- Refreshing twice -----

  /** A head that ends with its only marker. */
  ghost predicate Head(marks: Marks, head: Bytes) {
    |head| >= |marks.open| && Once(head, marks.open, |head| - |marks.open|)
  }

  /** What follows the data: it starts with a closing tag and holds no marker. */
  ghost predicate Tail(marks: Marks, tail: Bytes) {
    OccursAt(tail, marks.close, 0) && !Contains(tail, marks.open)
  }

  lemma SetKeepsHead(marks: Marks, head: Bytes, id: Bytes, value: Bytes)
    requires Sound(marks) && Head(marks, head) && CleanId(id) && HasSlot(head, id) && Numeric(value)
    ensures Head(marks, Set(head, id, value))
  {
    var (s, e) := Bounds(head, id);
    var at := |head| - |marks.open|;
    TagBesideRegion(head, s, e, marks.open, at);
    SpliceKeepsOnce(head, s, e, value, marks.open, at);
  }

  /** Rewriting totals leaves the marker at the end of the head, and the only one there. */
  lemma {:induction false} ReplacedKeepsHead(marks: Marks, head: Bytes, counts: seq<Count>)
    requires Sound(marks) && Head(marks, head) && CleanDistinct(Ids(counts)) && Replaced(head, counts).Ok?
    ensures Head(marks, Replaced(head, counts).value)
    decreases |counts|
  {
    if counts != [] {
      TailDistinct(counts);
      ReplaceOneSets(head, counts[0]);
      SetKeepsHead(marks, head, counts[0].id, Itoa(counts[0].value));
      ReplacedKeepsHead(marks, Set(head, counts[0].id, Itoa(counts[0].value)), counts[1..]);
    }
  }

  /** An occurrence in a part of the page is one in the page. */
  lemma PartOccurs(page: Bytes, from: nat, to: nat, pat: Bytes, i: int)
    requires from <= to <= |page| && OccursAt(page[from..to], pat, i)
    ensures OccursAt(page, pat, from + i)
  {
    var part := page[from..to];
    ReadsOff(part, pat, i);
    assert part[i..i + |pat|] == page[from + i..from + i + |pat|] by {
      assert forall k | i <= k < i + |pat| :: part[k] == page[from + k];
    }
  }

  lemma HeadFound(marks: Marks, document: Bytes, at: nat)
    requires Once(document, marks.open, at)
    ensures at + |marks.open| <= |document| && Head(marks, document[..at + |marks.open|])
  {
    var start := at + |marks.open|;
    var head := document[..start];
    assert head[at..start] == document[at..start];
    forall i: int
      ensures OccursAt(head, marks.open, i) ==> OccursAt(document, marks.open, i)
    {
      if OccursAt(head, marks.open, i) {
        PartOccurs(document, 0, start, marks.open, i);
      }
    }
  }

  /** The parts a page is cut into are a head and a tail. */
  lemma {:induction false} PartsFound(marks: Marks, document: Bytes, start: nat, end: nat)
    requires Sound(marks) && Island(marks, document) == Ok((start, end))
    ensures start <= end <= |document| && Head(marks, document[..start]) && Tail(marks, document[end..])
  {
    var at := OnlyMarker(marks, document, start, end);
    HeadFound(marks, document, at);
    TailFound(marks, document, at, end);
  }

  /** The marker that the data follows is the only one. */
  lemma OnlyMarker(marks: Marks, document: Bytes, start: nat, end: nat) returns (at: nat)
    requires Sound(marks) && Island(marks, document) == Ok((start, end))
    ensures Once(document, marks.open, at) && start == at + |marks.open| && at < end
    ensures OccursAt(document, marks.close, end)
  {
    at := IndexFrom(document, marks.open, 0);
    CountOnce(document, marks.open);
  }

  lemma TailFound(marks: Marks, document: Bytes, at: nat, end: nat)
    requires Once(document, marks.open, at) && at < end && OccursAt(document, marks.close, end)
    ensures Tail(marks, document[end..])
  {
    assert document[end..] == document[end..|document|];
    assert document[end..][0..|marks.close|] == document[end..end + |marks.close|];
    forall i: int
      ensures OccursAt(document[end..], marks.open, i) ==> OccursAt(document, marks.open, end + i)
    {
      if OccursAt(document[end..], marks.open, i) {
        PartOccurs(document, end, |document|, marks.open, i);
      }
    }
  }

  /** The pattern occurs in the page just where it occurs in the head, in the data or in the tail. */
  ghost predicate Cut(page: Bytes, pat: Bytes, authored: Bytes, data: Bytes, tail: Bytes) {
    forall i: int :: OccursAt(page, pat, i) <==> (
      OccursAt(authored, pat, i) || OccursAt(data, pat, i - |authored| - 1)
        || OccursAt(tail, pat, i - |authored| - |data| - 2))
  }

  lemma TagsOfPage(authored: Bytes, data: Bytes, tail: Bytes, pat: Bytes)
    requires SoundMark(pat)
    ensures Cut(Page(authored, data, tail), pat, authored, data, tail)
  {
    forall i: int
      ensures OccursAt(Page(authored, data, tail), pat, i) <==> (
        OccursAt(authored, pat, i) || OccursAt(data, pat, i - |authored| - 1)
          || OccursAt(tail, pat, i - |authored| - |data| - 2))
    {
      SplitAt(authored, NEWLINE, data + [NEWLINE] + tail, pat, i);
      SplitAt(data, NEWLINE, tail, pat, i - |authored| - 1);
      assert Page(authored, data, tail) == authored + [NEWLINE] + (data + [NEWLINE] + tail);
    }
  }

  /** The only marker of a page without one in its data is the one that ends the head. */
  lemma MarkerOnce(marks: Marks, page: Bytes, authored: Bytes, data: Bytes, tail: Bytes)
    requires Head(marks, authored) && Tail(marks, tail) && Cut(page, marks.open, authored, data, tail)
    requires !Contains(data, marks.open)
    ensures Once(page, marks.open, |authored| - |marks.open|)
  {
    var at := |authored| - |marks.open|;
    forall i: int | OccursAt(page, marks.open, i)
      ensures i == at
    {
      assert !OccursAt(data, marks.open, i - |authored| - 1);
      assert !OccursAt(tail, marks.open, i - |authored| - |data| - 2);
    }
    assert OccursAt(authored, marks.open, at);
  }

  /** A marker in the data is a second one. */
  lemma MarkerTwice(marks: Marks, page: Bytes, authored: Bytes, data: Bytes, tail: Bytes)
    requires Head(marks, authored) && Cut(page, marks.open, authored, data, tail) && Contains(data, marks.open)
    ensures forall at: int :: !Once(page, marks.open, at)
  {
    var at := |authored| - |marks.open|;
    assert OccursAt(authored, marks.open, at);
    assert OccursAt(page, marks.open, at);
    var i: int :| OccursAt(data, marks.open, i);
    var j := i + |authored| + 1;
    assert OccursAt(data, marks.open, j - |authored| - 1);
    assert OccursAt(page, marks.open, j) && j != at;
  }

  /** Reading a refreshed page finds the head again unless the data holds a marker. */
  lemma {:induction false} MarkerFoundAgain(marks: Marks, page: Bytes, authored: Bytes, data: Bytes, tail: Bytes)
    requires Sound(marks) && Head(marks, authored) && Tail(marks, tail) && Cut(page, marks.open, authored, data, tail)
    ensures if Contains(data, marks.open) then CountFrom(page, marks.open, 0) != 1
      else CountFrom(page, marks.open, 0) == 1 && IndexFrom(page, marks.open, 0) + |marks.open| == |authored|
  {
    CountOnce(page, marks.open);
    if Contains(data, marks.open) {
      MarkerTwice(marks, page, authored, data, tail);
    } else {
      MarkerOnce(marks, page, authored, data, tail);
    }
  }

  /** The closing tag found again is the one that starts the tail, unless the data holds one. */
  lemma {:induction false} CloseFoundAgain(marks: Marks, page: Bytes, authored: Bytes, data: Bytes, tail: Bytes)
    requires Sound(marks) && Tail(marks, tail) && Cut(page, marks.close, authored, data, tail) && |authored| <= |page|
    ensures var end := IndexFrom(page, marks.close, |authored|);
      && -1 != end <= |authored| + |data| + 2
      && (end == |authored| + |data| + 2 <==> !Contains(data, marks.close))
  {
    var last := |authored| + |data| + 2;
    assert OccursAt(tail, marks.close, last - |authored| - |data| - 2);
    assert OccursAt(page, marks.close, last);
    var end := IndexFrom(page, marks.close, |authored|);
    if i: int :| OccursAt(data, marks.close, i) {
      var j := i + |authored| + 1;
      assert OccursAt(data, marks.close, j - |authored| - 1);
      assert OccursAt(page, marks.close, j);
    } else {
      assert !OccursAt(data, marks.close, end - |authored| - 1);
    }
  }

  /** Every slot reads its total. */
  ghost predicate ReadsTotals(page: Bytes, counts: seq<Count>) {
    forall k | 0 <= k < |counts| :: HasSlot(page, counts[k].id) && Slot(page, counts[k].id) == Itoa(counts[k].value)
  }

  ghost predicate NoNegative(counts: seq<Count>) {
    forall c <- counts :: c.value >= 0
  }

  ghost predicate AllFillable(page: Bytes, counts: seq<Count>) {
    forall c <- counts :: Fillable(page, c.id)
  }

  /** Slots that read the totals can be filled again exactly if no total is negative. */
  lemma {:induction false} TotalsFillable(page: Bytes, counts: seq<Count>)
    requires ReadsTotals(page, counts)
    ensures AllFillable(page, counts) <==> NoNegative(counts)
  {
    forall k | 0 <= k < |counts|
      ensures Fillable(page, counts[k].id) <==> counts[k].value >= 0
    {
      SignReads(counts[k].value);
    }
  }

  /** A head whose slots read the totals is a fixpoint of the rewrite exactly when no total is negative. */
  lemma {:induction false} RewriteAgain(authored: Bytes, counts: seq<Count>)
    requires CleanDistinct(Ids(counts)) && ReadsTotals(authored, counts)
    ensures Replaced(authored, counts).Ok? <==> NoNegative(counts)
    ensures Replaced(authored, counts).Ok? ==> Replaced(authored, counts) == Ok(authored)
  {
    ReplacedIffFillable(authored, counts);
    TotalsFillable(authored, counts);
    if Replaced(authored, counts).Ok? {
      RewriteSame(authored, counts);
    }
  }

  lemma SignReads(n: int)
    ensures AsciiDigits(Itoa(n)) <==> n >= 0
  {
    assert n < 0 ==> Itoa(n)[0] == DASH && Itoa(n)[0] in Itoa(n);
  }

  /** Rewriting a slot with what it reads changes nothing. */
  lemma ReplaceOneSame(page: Bytes, count: Count)
    requires CleanId(count.id) && ReplaceOne(page, count).Ok?
    requires HasSlot(page, count.id) && Slot(page, count.id) == Itoa(count.value)
    ensures ReplaceOne(page, count) == Ok(page)
  {
    ReplaceOneSets(page, count);
    SetTwice(page, count.id, [], []);
  }

  lemma ReadsTail(page: Bytes, counts: seq<Count>)
    requires counts != [] && ReadsTotals(page, counts)
    ensures ReadsTotals(page, counts[1..])
  {
    forall k | 0 <= k < |counts[1..]|
      ensures HasSlot(page, counts[1..][k].id) && Slot(page, counts[1..][k].id) == Itoa(counts[1..][k].value)
    {
      assert counts[1..][k] == counts[k + 1];
    }
  }

  lemma {:induction false} RewriteSame(authored: Bytes, counts: seq<Count>)
    requires CleanDistinct(Ids(counts)) && Replaced(authored, counts).Ok? && ReadsTotals(authored, counts)
    ensures Replaced(authored, counts) == Ok(authored)
    decreases |counts|
  {
    if counts != [] {
      TailDistinct(counts);
      ReplacedStep(authored, counts);
      ReplaceOneSame(authored, counts[0]);
      ReadsTail(authored, counts);
      RewriteSame(authored, counts[1..]);
    }
  }

  lemma PageParts(authored: Bytes, data: Bytes, tail: Bytes)
    ensures var page := Page(authored, data, tail);
      && |page| == |authored| + |data| + 2 + |tail|
      && page[..|authored|] == authored
      && page[|authored| + |data| + 2..] == tail
  {
  }

  /** How a refreshed page is cut up when it is read again. */
  lemma CutAgain(marks: Marks, page: Bytes, authored: Bytes, data: Bytes, tail: Bytes)
    requires Sound(marks) && Head(marks, authored) && Tail(marks, tail) && !Contains(data, marks.open)
    requires Cut(page, marks.open, authored, data, tail) && Cut(page, marks.close, authored, data, tail)
    requires |page| == |authored| + |data| + 2 + |tail| && page[|authored| + |data| + 2..] == tail
    ensures CountFrom(page, marks.open, 0) == 1 && IndexFrom(page, marks.open, 0) + |marks.open| == |authored|
    ensures var end := IndexFrom(page, marks.close, |authored|);
      end != -1 && (page[end..] == tail <==> !Contains(data, marks.close))
  {
    MarkerFoundAgain(marks, page, authored, data, tail);
    CloseFoundAgain(marks, page, authored, data, tail);
    var end := IndexFrom(page, marks.close, |authored|);
    assert |page[end..]| == |page| - end;
  }

  lemma SamePage(authored: Bytes, data: Bytes, tail: Bytes, other: Bytes)
    ensures Page(authored, data, tail) == Page(authored, data, other) <==> tail == other
  {
    var at := |authored| + |data| + 2;
    assert Page(authored, data, tail)[at..] == tail && Page(authored, data, other)[at..] == other;
  }

  /** What a refresh computes once the page is cut up. */
  lemma {:induction false} RefreshComputes(
    marks: Marks, document: Bytes, data: Bytes, counts: seq<Count>, head: Bytes, tail: Bytes)
    requires marks.open != [] && CountFrom(document, marks.open, 0) == 1
    requires IndexFrom(document, marks.open, 0) + |marks.open| == |head| && document[..|head|] == head
    requires IndexFrom(document, marks.close, |head|) != -1
      && document[IndexFrom(document, marks.close, |head|)..] == tail
    ensures Refreshed(marks, document, data, counts) == Assembled(head, tail, data, counts)
  {
  }

  lemma {:induction false} RefreshAgain(
    marks: Marks, page: Bytes, authored: Bytes, data: Bytes, t: Bytes, tail: Bytes, counts: seq<Count>)
    requires Sound(marks) && Head(marks, authored) && Tail(marks, tail) && t == TrimSpace(data)
    requires page == Page(authored, t, tail)
    requires Replaced(authored, counts).Ok? ==> Replaced(authored, counts) == Ok(authored)
    ensures Refreshed(marks, page, data, counts) == Ok(page)
      <==> !Contains(t, marks.open) && !Contains(t, marks.close) && Replaced(authored, counts).Ok?
  {
    TagsOfPage(authored, t, tail, marks.open);
    if Contains(t, marks.open) {
      MarkerFoundAgain(marks, page, authored, t, tail);
    } else {
      TagsOfPage(authored, t, tail, marks.close);
      PageParts(authored, t, tail);
      CutAgain(marks, page, authored, t, tail);
      var tail' := page[IndexFrom(page, marks.close, |authored|)..];
      RefreshComputes(marks, page, data, counts, authored, tail');
      SamePage(authored, t, tail', tail);
    }
  }

  /** The only marker of a document, and the first closing tag after it. */
  ghost predicate Encloses(marks: Marks, document: Bytes, start: nat, end: nat) {
    && start <= end && Once(document, marks.open, start - |marks.open|)
    && OccursAt(document, marks.close, end) && forall j | start <= j < end :: !OccursAt(document, marks.close, j)
  }

  /** The only marker of a document, with no closing tag after it. */
  ghost predicate Unclosed(marks: Marks, document: Bytes, at: int) {
    Once(document, marks.open, at) && forall j | at + |marks.open| <= j :: !OccursAt(document, marks.close, j)
  }

  /** The data lies between the only marker and the first closing tag after it, and is missed exactly if there is
      none. */
  lemma IslandIff(marks: Marks, document: Bytes)
    requires Sound(marks)
    ensures Island(marks, document) == Err(NoMarker) <==> forall at: int :: !Once(document, marks.open, at)
    ensures Island(marks, document) == Err(NoClosing) <==> exists at: int :: Unclosed(marks, document, at)
    ensures forall start: nat, end: nat ::
      Island(marks, document) == Ok((start, end)) <==> Encloses(marks, document, start, end)
    ensures Island(marks, document).Err? ==> Island(marks, document).error in {NoMarker, NoClosing}
  {
    CountOnce(document, marks.open);
    var at := IndexFrom(document, marks.open, 0);
    if CountFrom(document, marks.open, 0) == 1 {
      assert Once(document, marks.open, at);
      if Island(marks, document).Err? {
        assert Unclosed(marks, document, at);
      }
    }
  }

  /** Only the slots before the data, and the data, are new. */
  ghost predicate RefreshesTo(
    document: Bytes, start: nat, end: nat, data: Bytes, counts: seq<Count>, result: Result<Bytes, Error>)
  {
    start <= end <= |document| &&
    var head := Replaced(document[..start], counts);
    if head.Err? then result == Err(head.error)
    else result == Ok(head.value + [NEWLINE] + TrimSpace(data) + [NEWLINE] + document[end..])
  }

  /** A refresh keeps every byte of the document but the numbers of its slots and the data, and is refused exactly if
      the document has no data to replace or a slot cannot be filled. */
  lemma RefreshedIff(marks: Marks, document: Bytes, data: Bytes, counts: seq<Count>)
    requires Sound(marks)
    ensures var result := Refreshed(marks, document, data, counts);
      && (Island(marks, document).Err? ==> result == Err(Island(marks, document).error))
      && forall start: nat, end: nat | Encloses(marks, document, start, end) ::
        RefreshesTo(document, start, end, data, counts, result)
  {
    IslandIff(marks, document);
  }

  /** What a refreshed page is made of. */
  lemma RefreshedParts(marks: Marks, document: Bytes, data: Bytes, counts: seq<Count>)
      returns (head: Bytes, authored: Bytes, tail: Bytes)
    requires Sound(marks) && Refreshed(marks, document, data, counts).Ok?
    ensures Replaced(head, counts) == Ok(authored) && Head(marks, head) && Tail(marks, tail)
    ensures Refreshed(marks, document, data, counts) == Ok(Page(authored, TrimSpace(data), tail))
  {
    var (start, end) := Island(marks, document).value;
    PartsFound(marks, document, start, end);
    head, tail := document[..start], document[end..];
    authored := Replaced(head, counts).value;
  }

  lemma ReplacedReadsTotals(head: Bytes, counts: seq<Count>)
    requires CleanDistinct(Ids(counts)) && Replaced(head, counts).Ok?
    ensures ReadsTotals(Replaced(head, counts).value, counts)
  {
    forall k | 0 <= k < |counts| {
      ReplacedSetsSlot(head, counts, k);
    }
  }

  /** Refreshing a refreshed page with the same data and totals changes nothing exactly
      when no total is negative and the trimmed data holds neither the marker nor the closing tag. */
  lemma RefreshFixpoint(marks: Marks, document: Bytes, data: Bytes, counts: seq<Count>)
    requires Sound(marks) && CleanDistinct(Ids(counts)) && Refreshed(marks, document, data, counts).Ok?
    ensures var page, t := Refreshed(marks, document, data, counts).value, TrimSpace(data);
      Refreshed(marks, page, data, counts) == Ok(page)
      <==> !Contains(t, marks.open) && !Contains(t, marks.close) && NoNegative(counts)
  {
    var head, authored, tail := RefreshedParts(marks, document, data, counts);
    ReplacedKeepsHead(marks, head, counts);
    ReplacedReadsTotals(head, counts);
    RewriteAgain(authored, counts);
    RefreshAgain(marks, Page(authored, TrimSpace(data), tail), authored, data, TrimSpace(data), tail, counts);
  }

  /** For the generator's own page and totals only the data matters. */
  lemma GeneratorFixpoint(document: Bytes, data: Bytes, definitions: seq<Definition>)
    requires Refreshed(Marks(MARKER, CLOSE), document, data, Named(NAMES, Totals(definitions))).Ok?
    ensures var marks, counts, t := Marks(MARKER, CLOSE), Named(NAMES, Totals(definitions)), TrimSpace(data);
      var page := Refreshed(marks, document, data, counts).value;
      Refreshed(marks, page, data, counts) == Ok(page) <==> !Contains(t, MARKER) && !Contains(t, CLOSE)
  {
    PageMarksSound();
    NamesCleanDistinct();
    RefreshFixpoint(Marks(MARKER, CLOSE), document, data, Named(NAMES, Totals(definitions)));
  }

  /** What the data cannot hold: a text that starts with a byte it does not hold. */
  lemma NeedsFirst(data: Bytes, pat: Bytes)
    requires pat != [] && pat[0] !in data
    ensures !Contains(data, pat)
  {
    assert forall i: int | 0 <= i && i + |pat| <= |data| :: data[i..i + |pat|][0] == data[i];
  }

  /** Trimming brings no byte in. */
  lemma {:induction false} TrimLeftFewer(s: Bytes, b: byte)
    requires b !in s
    ensures b !in TrimLeft(s)
    decreases |s|
  {
    var n := LeadingSpace(s);
    if n > 0 {
      TrimLeftFewer(s[n..], b);
    }
  }

  lemma {:induction false} TrimRightFewer(s: Bytes, b: byte)
    requires b !in s
    ensures b !in TrimRight(s)
    decreases |s|
  {
    var n := TrailingSpace(s);
    if n > 0 {
      TrimRightFewer(s[..|s| - n], b);
    }
  }

  const LT: byte := 0x3C

  /** The generator's data is JSON with every '<' escaped, so its refresh is a fixpoint. */
  lemma EscapedFixpoint(document: Bytes, data: Bytes, definitions: seq<Definition>)
    requires LT !in data
    requires Refreshed(Marks(MARKER, CLOSE), document, data, Named(NAMES, Totals(definitions))).Ok?
    ensures var marks, counts := Marks(MARKER, CLOSE), Named(NAMES, Totals(definitions));
      var page := Refreshed(marks, document, data, counts).value;
      Refreshed(marks, page, data, counts) == Ok(page)
  {
    GeneratorFixpoint(document, data, definitions);
    TrimLeftFewer(data, LT);
    TrimRightFewer(TrimLeft(data), LT);
    assert MARKER[0] == LT && CLOSE[0] == LT;
    NeedsFirst(TrimSpace(data), MARKER);
    NeedsFirst(TrimSpace(data), CLOSE);
  }
}
