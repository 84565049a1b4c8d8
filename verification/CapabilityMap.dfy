/** Rewriting the capability map page (cmd/gencapdocs/main.go): numbers are
    spliced into named slots and the data island is replaced, while every other
    byte of the page stays as it is. */
module CapabilityMap {
  import opened Common
  import opened ByteText

  const LT: byte := 0x3C
  const GT: byte := 0x3E
  const QUOTE: byte := 0x22
  const NEWLINE: byte := 0x0A
  const DASH: byte := 0x2D

  datatype Count = Count(id: Bytes, value: int)

  datatype Error = SlotMissing(id: Bytes) | SlotNotDigits(id: Bytes) | NoMarker | NoClosing

  // ----- Numbers -----

  predicate Digit(b: byte) {
    0x30 <= b <= 0x39
  }

  predicate AsciiDigits(value: Bytes) {
    forall b <- value :: Digit(b)
  }

  /** Bytes a formatted number can hold. */
  predicate Numeric(value: Bytes) {
    forall b <- value :: Digit(b) || b == DASH
  }

  function Decimal(n: nat): (d: Bytes)
    ensures d != [] && AsciiDigits(d)
  {
    if n < 10 then [(0x30 + n) as byte] else Decimal(n / 10) + [(0x30 + n % 10) as byte]
  }

  /** strconv.Itoa. */
  function Itoa(n: int): (d: Bytes)
    ensures d != [] && Numeric(d) && (n >= 0 ==> AsciiDigits(d))
  {
    if n < 0 then [DASH] + Decimal(-n) else Decimal(n)
  }

  /** The number a digit string denotes. */
  function ValueOf(digits: Bytes): nat
    requires AsciiDigits(digits)
  {
    if digits == [] then 0
    else
      assert Digit(digits[|digits| - 1]);
      10 * ValueOf(digits[..|digits| - 1]) + (digits[|digits| - 1] as int - 0x30)
  }

  lemma {:induction false} DecimalReadsBack(n: nat)
    ensures ValueOf(Decimal(n)) == n
  {
    if n >= 10 {
      DecimalReadsBack(n / 10);
      assert Decimal(n)[..|Decimal(n)| - 1] == Decimal(n / 10);
    } else {
      assert Decimal(n)[..0] == [];
    }
  }

  // ----- Slots -----

  /** ` id="<id>">` */
  function Opening(id: Bytes): Bytes {
    Ascii(" id=\"") + id + [QUOTE, GT]
  }

  /** An identifier that holds neither a quote nor a closing bracket. */
  predicate CleanId(id: Bytes) {
    QUOTE !in id && GT !in id
  }

  /** A pattern that ends with its only closing bracket and cannot start inside a number. */
  ghost predicate Tag(pat: Bytes) {
    Sealed(pat) && pat[|pat| - 1] == GT && !Digit(pat[0]) && pat[0] != DASH
  }

  lemma OpeningTag(id: Bytes)
    requires CleanId(id)
    ensures Tag(Opening(id))
  {
    var pat := Opening(id);
    forall i | 0 <= i < |pat| - 1
      ensures pat[i] != GT
    {
      if 5 <= i < 5 + |id| {
        assert pat[i] == id[i - 5] && id[i - 5] in id;
      }
    }
  }

  function Splice(page: Bytes, s: nat, e: nat, value: Bytes): Bytes
    requires s <= e <= |page|
  {
    page[..s] + value + page[e..]
  }

  /** A number between a closing bracket and an opening one. */
  ghost predicate Region(page: Bytes, s: nat, e: nat) {
    0 < s <= e < |page| && page[s - 1] == GT && page[e] == LT && Numeric(page[s..e])
  }

  lemma RegionReads(page: Bytes, s: nat, e: nat)
    requires Region(page, s, e)
    ensures forall p | s <= p < e :: Digit(page[p]) || page[p] == DASH
  {
    forall p | s <= p < e
      ensures Digit(page[p]) || page[p] == DASH
    {
      assert page[s..e][p - s] == page[p];
    }
  }

  /** A tag found in a page lies entirely before or entirely after a number. */
  lemma TagBesideRegion(page: Bytes, s: nat, e: nat, pat: Bytes, i: int)
    requires Region(page, s, e) && Tag(pat) && OccursAt(page, pat, i)
    ensures i + |pat| <= s || e <= i
  {
    ReadsOff(page, pat, i);
    RegionReads(page, s, e);
    assert page[s - 1] == GT && page[i] == pat[0];
  }

  function Shifted(i: int, s: nat, e: nat, value: Bytes): int {
    if i < s then i else i + |value| - (e - s)
  }

  /** Splicing a number over a number moves every tag and makes or breaks none. */
  lemma SpliceShifts(page: Bytes, s: nat, e: nat, value: Bytes, pat: Bytes, i: int)
    requires Region(page, s, e) && Numeric(value) && Tag(pat) && OccursAt(page, pat, i)
    ensures OccursAt(Splice(page, s, e, value), pat, Shifted(i, s, e, value))
  {
    var after, j := Splice(page, s, e, value), Shifted(i, s, e, value);
    TagBesideRegion(page, s, e, pat, i);
    assert after[j..j + |pat|] == page[i..i + |pat|];
  }

  lemma SpliceRegion(page: Bytes, s: nat, e: nat, value: Bytes)
    requires Region(page, s, e) && Numeric(value)
    ensures Region(Splice(page, s, e, value), s, s + |value|)
    ensures Splice(page, s, e, value)[s..s + |value|] == value
    ensures Splice(Splice(page, s, e, value), s, s + |value|, page[s..e]) == page
  {
    var after := Splice(page, s, e, value);
    assert after[s..s + |value|] == value;
    assert after[..s] == page[..s] && after[s + |value|..] == page[e..];
    assert page[..s] + page[s..e] + page[e..] == page;
  }

  /** A tag that occurred once still occurs once, shifted. */
  lemma SpliceKeepsOnce(page: Bytes, s: nat, e: nat, value: Bytes, pat: Bytes, at: int)
    requires Region(page, s, e) && Numeric(value) && Tag(pat) && Once(page, pat, at)
    ensures Once(Splice(page, s, e, value), pat, Shifted(at, s, e, value))
  {
    var after := Splice(page, s, e, value);
    SpliceShifts(page, s, e, value, pat, at);
    SpliceRegion(page, s, e, value);
    forall i: int | OccursAt(after, pat, i)
      ensures i == Shifted(at, s, e, value)
    {
      SpliceShifts(after, s, s + |value|, page[s..e], pat, i);
      TagBesideRegion(after, s, s + |value|, pat, i);
      TagBesideRegion(page, s, e, pat, at);
    }
  }

  /** The slot of `id` holds a number between s and e; it may be empty. */
  ghost predicate SlotAt(page: Bytes, id: Bytes, s: nat, e: nat) {
    s >= |Opening(id)| && Once(page, Opening(id), s - |Opening(id)|) && Region(page, s, e)
  }

  lemma SlotUnique(page: Bytes, id: Bytes, s: nat, e: nat, s': nat, e': nat)
    requires SlotAt(page, id, s, e) && SlotAt(page, id, s', e')
    ensures s == s' && e == e'
  {
    RegionReads(page, s, e);
    RegionReads(page, s', e');
    assert page[e] == LT && page[e'] == LT;
  }

  ghost predicate HasSlot(page: Bytes, id: Bytes) {
    exists s: nat, e: nat :: SlotAt(page, id, s, e)
  }

  ghost function Bounds(page: Bytes, id: Bytes): (b: (nat, nat))
    requires HasSlot(page, id)
    ensures SlotAt(page, id, b.0, b.1)
  {
    var s: nat, e: nat :| SlotAt(page, id, s, e);
    (s, e)
  }

  /** What the slot of `id` reads. */
  ghost function Slot(page: Bytes, id: Bytes): Bytes
    requires HasSlot(page, id)
  {
    page[Bounds(page, id).0..Bounds(page, id).1]
  }

  ghost function Set(page: Bytes, id: Bytes, value: Bytes): Bytes
    requires HasSlot(page, id)
  {
    Splice(page, Bounds(page, id).0, Bounds(page, id).1, value)
  }

  lemma SlotIs(page: Bytes, id: Bytes, s: nat, e: nat)
    requires SlotAt(page, id, s, e)
    ensures HasSlot(page, id) && Bounds(page, id) == (s, e)
  {
    SlotUnique(page, id, s, e, Bounds(page, id).0, Bounds(page, id).1);
  }

  /** A slot reads what was set. */
  lemma SetReads(page: Bytes, id: Bytes, value: Bytes)
    requires CleanId(id) && HasSlot(page, id) && Numeric(value)
    ensures HasSlot(Set(page, id, value), id) && Slot(Set(page, id, value), id) == value
    ensures Bounds(Set(page, id, value), id) == (Bounds(page, id).0, Bounds(page, id).0 + |value|)
  {
    var (s, e) := Bounds(page, id);
    OpeningTag(id);
    SpliceFills(page, s, e, value, Opening(id));
    SlotIs(Set(page, id, value), id, s, s + |value|);
  }

  /** A number that is replaced keeps its tag before it. */
  lemma SpliceFills(page: Bytes, s: nat, e: nat, value: Bytes, pat: Bytes)
    requires Region(page, s, e) && Numeric(value) && Tag(pat) && |pat| <= s && Once(page, pat, s - |pat|)
    ensures var after := Splice(page, s, e, value);
      Once(after, pat, s - |pat|) && Region(after, s, s + |value|) && after[s..s + |value|] == value
  {
    SpliceRegion(page, s, e, value);
    SpliceKeepsOnce(page, s, e, value, pat, s - |pat|);
  }

  /** Setting a slot twice is setting it once; setting what it reads changes nothing. */
  lemma SetTwice(page: Bytes, id: Bytes, value: Bytes, again: Bytes)
    requires CleanId(id) && HasSlot(page, id) && Numeric(value) && Numeric(again)
    ensures HasSlot(Set(page, id, value), id) && Set(Set(page, id, value), id, again) == Set(page, id, again)
    ensures Set(page, id, Slot(page, id)) == page
  {
    SetReads(page, id, value);
    var (s, e) := Bounds(page, id);
    var after := Set(page, id, value);
    assert after[..s] == page[..s] && after[s + |value|..] == page[e..];
    assert page[..s] + page[s..e] + page[e..] == page;
  }

  /** Two openings never end at the same place: clean identifiers parse back. */
  lemma OpeningsEndApart(page: Bytes, a: Bytes, b: Bytes, s: nat)
    requires CleanId(a) && CleanId(b)
    requires OccursAt(page, Opening(a), s - |Opening(a)|) && OccursAt(page, Opening(b), s - |Opening(b)|)
    ensures a == b
  {
    OpeningNotShorter(page, a, b, s);
    OpeningNotShorter(page, b, a, s);
    assert a == Opening(a)[5..5 + |a|] && b == Opening(b)[5..5 + |b|];
  }

  /** Between the quotes of an opening there is no quote. */
  lemma OpeningReads(id: Bytes)
    requires CleanId(id)
    ensures forall k | 5 <= k < 5 + |id| :: Opening(id)[k] != QUOTE
  {
    forall k | 5 <= k < 5 + |id|
      ensures Opening(id)[k] != QUOTE
    {
      assert Opening(id)[k] == id[k - 5] && id[k - 5] in id;
    }
  }

  lemma OpeningNotShorter(page: Bytes, a: Bytes, b: Bytes, s: nat)
    requires CleanId(b)
    requires OccursAt(page, Opening(a), s - |Opening(a)|) && OccursAt(page, Opening(b), s - |Opening(b)|)
    ensures |b| <= |a|
  {
    var i, j := s - |Opening(a)|, s - |Opening(b)|;
    ReadsOff(page, Opening(a), i);
    ReadsOff(page, Opening(b), j);
    OpeningReads(b);
    assert page[i + 4] == Opening(a)[4] == QUOTE;
  }

  /** The numbers of two different slots do not touch. */
  lemma SlotsApart(page: Bytes, a: Bytes, b: Bytes, sa: nat, ea: nat, sb: nat, eb: nat)
    requires CleanId(a) && CleanId(b) && a != b && SlotAt(page, a, sa, ea) && SlotAt(page, b, sb, eb)
    ensures ea < sb || eb < sa
  {
    OpeningTag(a);
    OpeningTag(b);
    if sa == sb {
      OpeningsEndApart(page, a, b, sa);
    }
    TagBesideRegion(page, sa, ea, Opening(b), sb - |Opening(b)|);
    TagBesideRegion(page, sb, eb, Opening(a), sa - |Opening(a)|);
  }

  /** Setting one slot leaves every other slot in place, reading what it read. */
  lemma SetKeepsOther(page: Bytes, id: Bytes, value: Bytes, other: Bytes)
    requires CleanId(id) && CleanId(other) && id != other && Numeric(value) && HasSlot(page, id) && HasSlot(page, other)
    ensures HasSlot(Set(page, id, value), other) && Slot(Set(page, id, value), other) == Slot(page, other)
    ensures var here, there := Bounds(page, id), Bounds(page, other);
      Bounds(Set(page, id, value), other)
      == (Shifted(there.0, here.0, here.1, value), Shifted(there.1, here.0, here.1, value))
  {
    var (s, e) := Bounds(page, id);
    var (so, eo) := Bounds(page, other);
    SpliceMovesSlot(page, id, s, e, value, other, so, eo);
    SlotIs(Set(page, id, value), other, Shifted(so, s, e, value), Shifted(eo, s, e, value));
  }

  lemma SpliceMovesSlot(page: Bytes, id: Bytes, s: nat, e: nat, value: Bytes, other: Bytes, so: nat, eo: nat)
    requires CleanId(id) && CleanId(other) && id != other && Numeric(value)
    requires SlotAt(page, id, s, e) && SlotAt(page, other, so, eo)
    ensures var after, so', eo' := Splice(page, s, e, value), Shifted(so, s, e, value), Shifted(eo, s, e, value);
      0 <= so' <= eo' <= |after| && SlotAt(after, other, so', eo') && after[so'..eo'] == page[so..eo]
  {
    OpeningTag(other);
    SlotsApart(page, id, other, s, e, so, eo);
    SpliceMovesTagged(page, s, e, value, Opening(other), so, eo);
  }

  /** A number with its tag before it, beside the splice, moves with its tag. */
  lemma SpliceMovesTagged(page: Bytes, s: nat, e: nat, value: Bytes, pat: Bytes, so: nat, eo: nat)
    requires Region(page, s, e) && Numeric(value) && Tag(pat) && |pat| <= so
    requires Once(page, pat, so - |pat|) && Region(page, so, eo) && (e < so || eo < s)
    ensures var after, so', eo' := Splice(page, s, e, value), Shifted(so, s, e, value), Shifted(eo, s, e, value);
      |pat| <= so' <= eo' <= |after| && Once(after, pat, so' - |pat|) && Region(after, so', eo')
      && after[so'..eo'] == page[so..eo]
  {
    TagBesideRegion(page, s, e, pat, so - |pat|);
    SpliceKeepsOnce(page, s, e, value, pat, so - |pat|);
    SpliceApart(page, s, e, value, so, eo);
  }

  /** A number beside the splice only moves. */
  lemma SpliceApart(page: Bytes, s: nat, e: nat, value: Bytes, so: nat, eo: nat)
    requires s <= e < |page| && Region(page, so, eo) && (e < so || eo < s)
    ensures var after, so', eo' := Splice(page, s, e, value), Shifted(so, s, e, value), Shifted(eo, s, e, value);
      0 < so' <= eo' < |after| && Region(after, so', eo') && after[so'..eo'] == page[so..eo]
  {
    var after, so', eo' := Splice(page, s, e, value), Shifted(so, s, e, value), Shifted(eo, s, e, value);
    assert after[so'..eo'] == page[so..eo];
    assert after[so' - 1] == page[so - 1] && after[eo'] == page[eo];
  }

  /** Setting a slot never creates another one. */
  lemma SetCreatesNoSlot(page: Bytes, id: Bytes, value: Bytes, other: Bytes)
    requires CleanId(id) && CleanId(other) && id != other && Numeric(value) && HasSlot(page, id)
    requires HasSlot(Set(page, id, value), other)
    ensures HasSlot(page, other)
  {
    SetReads(page, id, value);
    SetTwice(page, id, value, Slot(page, id));
    SetKeepsOther(Set(page, id, value), id, Slot(page, id), other);
  }

  /** Splices at two separate places can be made in either order. */
  lemma SpliceBoth(page: Bytes, sa: nat, ea: nat, va: Bytes, sb: nat, eb: nat, vb: Bytes)
    requires sa <= ea <= sb <= eb <= |page|
    ensures var d := |va| - (ea - sa);
      Splice(Splice(page, sa, ea, va), sb + d, eb + d, vb) == Splice(Splice(page, sb, eb, vb), sa, ea, va)
  {
    var both := page[..sa] + va + page[ea..sb] + vb + page[eb..];
    var d := |va| - (ea - sa);
    var first, second := Splice(page, sa, ea, va), Splice(page, sb, eb, vb);
    assert first[..sb + d] == page[..sa] + va + page[ea..sb] && first[eb + d..] == page[eb..];
    assert second[..sa] == page[..sa] && second[ea..] == page[ea..sb] + vb + page[eb..];
    assert Splice(first, sb + d, eb + d, vb) == both;
    assert Splice(second, sa, ea, va) == both;
  }

  lemma OrderedSetsCommute(page: Bytes, a: Bytes, va: Bytes, b: Bytes, vb: Bytes)
    requires CleanId(a) && CleanId(b) && a != b && Numeric(va) && Numeric(vb) && HasSlot(page, a) && HasSlot(page, b)
    requires HasSlot(Set(page, a, va), b) && HasSlot(Set(page, b, vb), a) && Bounds(page, a).1 < Bounds(page, b).0
    ensures Set(Set(page, a, va), b, vb) == Set(Set(page, b, vb), a, va)
  {
    var (sa, ea) := Bounds(page, a);
    var (sb, eb) := Bounds(page, b);
    SetKeepsOther(page, a, va, b);
    SetKeepsOther(page, b, vb, a);
    SpliceBoth(page, sa, ea, va, sb, eb, vb);
  }

  /** Two slots can be set in either order. */
  lemma SetsCommute(page: Bytes, a: Bytes, va: Bytes, b: Bytes, vb: Bytes)
    requires CleanId(a) && CleanId(b) && a != b && Numeric(va) && Numeric(vb) && HasSlot(page, a) && HasSlot(page, b)
    ensures HasSlot(Set(page, a, va), b) && HasSlot(Set(page, b, vb), a)
    ensures Set(Set(page, a, va), b, vb) == Set(Set(page, b, vb), a, va)
  {
    SetKeepsOther(page, a, va, b);
    SetKeepsOther(page, b, vb, a);
    SlotsApart(page, a, b, Bounds(page, a).0, Bounds(page, a).1, Bounds(page, b).0, Bounds(page, b).1);
    if Bounds(page, a).1 < Bounds(page, b).0 {
      OrderedSetsCommute(page, a, va, b, vb);
    } else {
      OrderedSetsCommute(page, b, vb, a, va);
    }
  }

  // ----- Replacing the totals -----

  /** One step of the rewrite: the slot must exist once and hold at least one digit and nothing else. */
  function ReplaceOne(page: Bytes, count: Count): Result<Bytes, Error> {
    var opening := Opening(count.id);
    if CountFrom(page, opening, 0) != 1 then
      Err(SlotMissing(count.id))
    else
      var start := IndexFrom(page, opening, 0) + |opening|;
      var end := IndexFrom(page, [LT], start);
      if end <= start || !AsciiDigits(page[start..end]) then
        Err(SlotNotDigits(count.id))
      else
        Ok(Splice(page, start, end, Itoa(count.value)))
  }

  function Replaced(head: Bytes, counts: seq<Count>): Result<Bytes, Error>
    decreases |counts|
  {
    if counts == [] then Ok(head)
    else match ReplaceOne(head, counts[0])
      case Err(e) => Err(e)
      case Ok(page) => Replaced(page, counts[1..])
  }

  /** Rewriting one slot. */
  method ReplaceCount(page: Bytes, count: Count) returns (result: Result<Bytes, Error>)
    ensures result == ReplaceOne(page, count)
  {
    var opening := Opening(count.id);
    if CountFrom(page, opening, 0) != 1 {
      return Err(SlotMissing(count.id));
    }
    var valueStart := IndexFrom(page, opening, 0) + |opening|;
    var valueEnd := IndexFrom(page, [LT], valueStart);
    if valueEnd <= valueStart || !AsciiDigits(page[valueStart..valueEnd]) {
      return Err(SlotNotDigits(count.id));
    }
    var value := Itoa(count.value);
    return Ok(page[..valueStart] + value + page[valueEnd..]);
  }

  method ReplaceCounts(head: Bytes, counts: seq<Count>) returns (result: Result<Bytes, Error>)
    ensures result == Replaced(head, counts)
  {
    var updated := head;
    for i := 0 to |counts|
      invariant Replaced(updated, counts[i..]) == Replaced(head, counts)
    {
      ReplacedStep(updated, counts[i..]);
      assert counts[i..][1..] == counts[i + 1..];
      var replaced := ReplaceCount(updated, counts[i]);
      if replaced.Err? {
        return Err(replaced.error);
      }
      updated := replaced.value;
    }
    return Ok(updated);
  }

  lemma ReplacedStep(page: Bytes, counts: seq<Count>)
    requires counts != []
    ensures ReplaceOne(page, counts[0]).Err? ==> Replaced(page, counts) == Err(ReplaceOne(page, counts[0]).error)
    ensures ReplaceOne(page, counts[0]).Ok?
      ==> Replaced(page, counts) == Replaced(ReplaceOne(page, counts[0]).value, counts[1..])
  {
  }

  /** What the rewrite asks of a slot. */
  ghost predicate Fillable(page: Bytes, id: Bytes) {
    HasSlot(page, id) && Slot(page, id) != [] && AsciiDigits(Slot(page, id))
  }

  /** Where the first opening bracket after a slot's opening tag lies. */
  lemma NextBracket(page: Bytes, start: nat)
    requires start <= |page|
    ensures var end := IndexFrom(page, [LT], start);
      && (end == -1 ==> forall p | start <= p < |page| :: page[p] != LT)
      && (end != -1 ==> start <= end < |page| && page[end] == LT && forall p | start <= p < end :: page[p] != LT)
  {
    var end := IndexFrom(page, [LT], start);
    forall p | start <= p < |page| && (end == -1 || p < end)
      ensures page[p] != LT
    {
      assert page[p..p + 1] == [page[p]];
      assert !OccursAt(page, [LT], p);
    }
    if end != -1 {
      ReadsOff(page, [LT], end);
    }
  }

  /** The slot that a step finds is the slot, if it is fillable. */
  lemma FillableFound(page: Bytes, id: Bytes, start: nat)
    requires start <= |page| && Fillable(page, id) && Once(page, Opening(id), start - |Opening(id)|)
    ensures Bounds(page, id) == (start, IndexFrom(page, [LT], start))
  {
    NextBracket(page, start);
    RegionReads(page, Bounds(page, id).0, Bounds(page, id).1);
  }

  lemma {:induction false} FoundFillable(page: Bytes, id: Bytes, start: nat, end: nat)
    requires start < end <= |page| && Once(page, Opening(id), start - |Opening(id)|)
    requires end == IndexFrom(page, [LT], start) && AsciiDigits(page[start..end])
    ensures Fillable(page, id) && Bounds(page, id) == (start, end)
  {
    NextBracket(page, start);
    ReadsOff(page, Opening(id), start - |Opening(id)|);
    assert page[start - 1] == GT;
    SlotIs(page, id, start, end);
  }

  /** A step succeeds exactly on a fillable slot, and then sets it. */
  lemma ReplaceOneSets(page: Bytes, count: Count)
    requires CleanId(count.id)
    ensures ReplaceOne(page, count).Ok? <==> Fillable(page, count.id)
    ensures Fillable(page, count.id) ==> ReplaceOne(page, count) == Ok(Set(page, count.id, Itoa(count.value)))
  {
    var id, opening := count.id, Opening(count.id);
    OpeningTag(id);
    CountOnce(page, opening);
    if Fillable(page, id) {
      FillableReplaced(page, count);
    } else if ReplaceOne(page, count).Ok? {
      var start := IndexFrom(page, opening, 0) + |opening|;
      FoundFillable(page, id, start, IndexFrom(page, [LT], start));
    }
  }

  lemma FillableReplaced(page: Bytes, count: Count)
    requires CleanId(count.id) && Fillable(page, count.id)
    ensures ReplaceOne(page, count) == Ok(Set(page, count.id, Itoa(count.value)))
  {
    var id, opening := count.id, Opening(count.id);
    OpeningTag(id);
    CountOnce(page, opening);
    assert Once(page, opening, Bounds(page, id).0 - |opening|);
    FillableFound(page, id, IndexFrom(page, opening, 0) + |opening|);
  }

  // ----- What a rewrite achieves -----

  predicate CleanDistinct(ids: seq<Bytes>) {
    && (forall i | 0 <= i < |ids| :: CleanId(ids[i]))
    && forall i, j | 0 <= i < j < |ids| :: ids[i] != ids[j]
  }

  function Ids(counts: seq<Count>): (ids: seq<Bytes>)
    ensures |ids| == |counts| && forall i | 0 <= i < |ids| :: ids[i] == counts[i].id
  {
    seq(|counts|, i requires 0 <= i < |counts| => counts[i].id)
  }

  /** The page with the named slots emptied: everything the rewrite must not touch. */
  ghost function Blank(page: Bytes, ids: seq<Bytes>): Bytes {
    if ids == [] then page
    else
      var rest := Blank(page, ids[1..]);
      if HasSlot(rest, ids[0]) then Set(rest, ids[0], []) else rest
  }

  /** Emptying some slots leaves the others in place, and can be done before or after setting another one. */
  lemma {:induction false} BlankBesideSet(page: Bytes, ids: seq<Bytes>, id: Bytes, value: Bytes)
    requires CleanDistinct(ids) && CleanId(id) && id !in ids && Numeric(value) && HasSlot(page, id)
    ensures HasSlot(Blank(page, ids), id) && Slot(Blank(page, ids), id) == Slot(page, id)
    ensures Blank(Set(page, id, value), ids) == Set(Blank(page, ids), id, value)
  {
    if ids != [] {
      BlankBesideSet(page, ids[1..], id, value);
      var rest := Blank(page, ids[1..]);
      if HasSlot(rest, ids[0]) {
        SetKeepsOther(rest, ids[0], [], id);
        SetsCommute(rest, id, value, ids[0], []);
      } else if HasSlot(Set(rest, id, value), ids[0]) {
        SetCreatesNoSlot(rest, id, value, ids[0]);
      }
    }
  }

  /** The rewrite succeeds exactly when each named slot is there once with digits in it. */
  lemma {:induction false} ReplacedIffFillable(head: Bytes, counts: seq<Count>)
    requires CleanDistinct(Ids(counts))
    ensures Replaced(head, counts).Ok? <==> forall c <- counts :: Fillable(head, c.id)
    decreases |counts|
  {
    if counts != [] {
      var id, value := counts[0].id, Itoa(counts[0].value);
      assert CleanId(Ids(counts)[0]);
      ReplaceOneSets(head, counts[0]);
      if Fillable(head, id) {
        var page := Set(head, id, value);
        TailDistinct(counts);
        ReplacedIffFillable(page, counts[1..]);
        forall c <- counts[1..]
          ensures Fillable(page, c.id) <==> Fillable(head, c.id)
        {
          OthersUntouched(head, id, value, c.id);
        }
        assert counts == [counts[0]] + counts[1..];
      }
    }
  }

  lemma TailDistinct(counts: seq<Count>)
    requires counts != [] && CleanDistinct(Ids(counts))
    ensures CleanId(counts[0].id) && CleanDistinct(Ids(counts[1..])) && Ids(counts[1..]) == Ids(counts)[1..]
    ensures counts[0].id !in Ids(counts[1..])
    ensures forall c <- counts[1..] :: c.id != counts[0].id && CleanId(c.id)
  {
    var ids := Ids(counts);
    assert ids[0] == counts[0].id;
    assert forall k | 1 <= k < |counts| :: ids[k] == counts[k].id && ids[k] != ids[0] && CleanId(ids[k]);
  }

  /** Setting one slot neither makes, breaks nor rewrites another. */
  lemma OthersUntouched(page: Bytes, id: Bytes, value: Bytes, other: Bytes)
    requires CleanId(id) && CleanId(other) && id != other && Numeric(value) && HasSlot(page, id)
    ensures HasSlot(Set(page, id, value), other) <==> HasSlot(page, other)
    ensures HasSlot(page, other) ==> Slot(Set(page, id, value), other) == Slot(page, other)
  {
    if HasSlot(page, other) {
      SetKeepsOther(page, id, value, other);
    } else if HasSlot(Set(page, id, value), other) {
      SetCreatesNoSlot(page, id, value, other);
    }
  }

  /** Slots that are not named read what they read; none appears. */
  lemma {:induction false} ReplacedKeepsOthers(head: Bytes, counts: seq<Count>, other: Bytes)
    requires CleanDistinct(Ids(counts)) && CleanId(other) && other !in Ids(counts) && Replaced(head, counts).Ok?
    ensures var out := Replaced(head, counts).value;
      && (HasSlot(out, other) <==> HasSlot(head, other))
      && (HasSlot(head, other) ==> Slot(out, other) == Slot(head, other))
    decreases |counts|
  {
    if counts != [] {
      TailDistinct(counts);
      ReplaceOneSets(head, counts[0]);
      assert Ids(counts)[0] == counts[0].id;
      OthersUntouched(head, counts[0].id, Itoa(counts[0].value), other);
      ReplacedKeepsOthers(ReplaceOne(head, counts[0]).value, counts[1..], other);
    }
  }

  /** Each named slot reads its total: no later splice disturbs an earlier slot. */
  lemma {:induction false} ReplacedSetsSlot(head: Bytes, counts: seq<Count>, k: nat)
    requires CleanDistinct(Ids(counts)) && Replaced(head, counts).Ok? && k < |counts|
    ensures var out := Replaced(head, counts).value;
      HasSlot(out, counts[k].id) && Slot(out, counts[k].id) == Itoa(counts[k].value)
    decreases |counts|
  {
    var id, value := counts[0].id, Itoa(counts[0].value);
    TailDistinct(counts);
    ReplaceOneSets(head, counts[0]);
    var page := Set(head, id, value);
    if k == 0 {
      SetReads(head, id, value);
      ReplacedKeepsOthers(page, counts[1..], id);
    } else {
      ReplacedSetsSlot(page, counts[1..], k - 1);
    }
  }

  /** What a slot was set to is forgotten when it is emptied. */
  lemma {:induction false} BlankForgets(page: Bytes, ids: seq<Bytes>, id: Bytes, value: Bytes)
    requires CleanDistinct(ids) && CleanId(id) && id in ids && Numeric(value) && HasSlot(page, id)
    ensures Blank(Set(page, id, value), ids) == Blank(page, ids)
  {
    if id == ids[0] {
      BlankBesideSet(page, ids[1..], id, value);
      SetTwice(Blank(page, ids[1..]), id, value, []);
    } else {
      BlankForgets(page, ids[1..], id, value);
    }
  }

  /** Outside the named slots the rewrite changes no byte. */
  lemma {:induction false} ReplacedKeepsRest(head: Bytes, counts: seq<Count>, ids: seq<Bytes>)
    requires CleanDistinct(Ids(counts)) && CleanDistinct(ids) && Replaced(head, counts).Ok?
    requires forall c <- counts :: c.id in ids
    ensures Blank(Replaced(head, counts).value, ids) == Blank(head, ids)
    decreases |counts|
  {
    if counts != [] {
      TailDistinct(counts);
      ReplaceOneSets(head, counts[0]);
      BlankForgets(head, ids, counts[0].id, Itoa(counts[0].value));
      ReplacedKeepsRest(ReplaceOne(head, counts[0]).value, counts[1..], ids);
    }
  }

  /** A page is determined by its named slots and by what is left when they are emptied. */
  lemma {:induction false} PageDetermined(p: Bytes, q: Bytes, ids: seq<Bytes>)
    requires CleanDistinct(ids) && Blank(p, ids) == Blank(q, ids)
    requires forall id <- ids :: HasSlot(p, id) && HasSlot(q, id) && Slot(p, id) == Slot(q, id)
    ensures p == q
    decreases |ids|
  {
    if ids != [] {
      var id, rest := ids[0], ids[1..];
      BlankBesideSet(p, rest, id, []);
      BlankBesideSet(q, rest, id, []);
      var p', q' := Blank(p, rest), Blank(q, rest);
      SetTwice(p', id, [], Slot(p', id));
      SetTwice(q', id, [], Slot(q', id));
      assert p' == q';
      PageDetermined(p, q, rest);
    }
  }

  /** The order of the totals does not matter. */
  lemma OrderIrrelevant(head: Bytes, counts: seq<Count>, reordered: seq<Count>)
    requires CleanDistinct(Ids(counts)) && CleanDistinct(Ids(reordered))
    requires forall c: Count :: c in counts <==> c in reordered
    ensures Replaced(head, counts).Ok? == Replaced(head, reordered).Ok?
    ensures Replaced(head, counts).Ok? ==> Replaced(head, counts) == Replaced(head, reordered)
  {
    ReplacedIffFillable(head, counts);
    ReplacedIffFillable(head, reordered);
    if Replaced(head, counts).Ok? {
      SameTotalsSamePage(head, counts, reordered);
    }
  }

  lemma SameTotalsSamePage(head: Bytes, counts: seq<Count>, reordered: seq<Count>)
    requires CleanDistinct(Ids(counts)) && CleanDistinct(Ids(reordered))
    requires forall c: Count :: c in counts <==> c in reordered
    requires Replaced(head, counts).Ok? && Replaced(head, reordered).Ok?
    ensures Replaced(head, counts) == Replaced(head, reordered)
  {
    var ids := Ids(counts);
    var p, q := Replaced(head, counts).value, Replaced(head, reordered).value;
    forall c <- counts
      ensures c.id in ids
    {
      var k :| 0 <= k < |counts| && counts[k] == c;
      assert ids[k] == c.id;
    }
    ReplacedKeepsRest(head, counts, ids);
    ReplacedKeepsRest(head, reordered, ids);
    forall id <- ids
      ensures HasSlot(p, id) && HasSlot(q, id) && Slot(p, id) == Slot(q, id)
    {
      var k :| 0 <= k < |counts| && ids[k] == id;
      assert counts[k] in reordered;
      var j :| 0 <= j < |reordered| && reordered[j] == counts[k];
      ReplacedSetsSlot(head, counts, k);
      ReplacedSetsSlot(head, reordered, j);
    }
    PageDetermined(p, q, ids);
  }
}
