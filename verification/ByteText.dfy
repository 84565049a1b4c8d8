/** Searching byte strings the way the source's standard library does. */
module ByteText {
  import opened Common

  predicate AllAscii(s: string) {
    forall c <- s :: c < 128 as char
  }

  function Ascii(s: string): (b: Bytes)
    requires AllAscii(s)
    ensures |b| == |s| && forall i | 0 <= i < |s| :: b[i] as int == s[i] as int
  {
    seq(|s|, i requires 0 <= i < |s| => (assert s[i] in s; s[i] as int as byte))
  }

  predicate OccursAt(page: Bytes, pat: Bytes, i: int) {
    0 <= i && i + |pat| <= |page| && page[i..i + |pat|] == pat
  }

  ghost predicate Contains(page: Bytes, pat: Bytes) {
    exists i: int :: OccursAt(page, pat, i)
  }

  /** The pattern occurs at `at` and nowhere else. */
  ghost predicate Once(page: Bytes, pat: Bytes, at: int) {
    OccursAt(page, pat, at) && forall i: int :: OccursAt(page, pat, i) ==> i == at
  }

  /** The first occurrence at or after `from`, or -1. */
  function IndexFrom(page: Bytes, pat: Bytes, from: nat): (i: int)
    requires from <= |page|
    ensures i == -1 ==> forall j | from <= j :: !OccursAt(page, pat, j)
    ensures i != -1 ==> from <= i && OccursAt(page, pat, i) && forall j | from <= j < i :: !OccursAt(page, pat, j)
    decreases |page| - from
  {
    if OccursAt(page, pat, from) then from
    else if from == |page| then -1
    else IndexFrom(page, pat, from + 1)
  }

  /** The number of non-overlapping occurrences at or after `from`. */
  function CountFrom(page: Bytes, pat: Bytes, from: nat): nat
    requires from <= |page| && pat != []
    decreases |page| - from
  {
    var i := IndexFrom(page, pat, from);
    if i == -1 then 0 else 1 + CountFrom(page, pat, i + |pat|)
  }

  /** A pattern that cannot overlap itself: its last byte occurs in it only once. */
  ghost predicate Sealed(pat: Bytes) {
    |pat| >= 2 && forall i | 0 <= i < |pat| - 1 :: pat[i] != pat[|pat| - 1]
  }

  lemma ReadsOff(page: Bytes, pat: Bytes, i: int)
    requires OccursAt(page, pat, i)
    ensures forall p | i <= p < i + |pat| :: page[p] == pat[p - i]
  {
    forall p | i <= p < i + |pat|
      ensures page[p] == pat[p - i]
    {
      assert page[i..i + |pat|][p - i] == page[p];
    }
  }

  lemma NoOverlap(page: Bytes, pat: Bytes, i: int, j: int)
    requires Sealed(pat) && OccursAt(page, pat, i) && OccursAt(page, pat, j) && i < j
    ensures i + |pat| <= j
  {
    ReadsOff(page, pat, i);
    ReadsOff(page, pat, j);
    assert page[i + |pat| - 1] == pat[|pat| - 1];
  }

  /** Counting one occurrence of a sealed pattern means it occurs exactly once. */
  lemma {:induction false} CountOnce(page: Bytes, pat: Bytes)
    requires Sealed(pat)
    ensures CountFrom(page, pat, 0) == 1 <==> exists at: int :: Once(page, pat, at)
    ensures CountFrom(page, pat, 0) == 1 ==> Once(page, pat, IndexFrom(page, pat, 0))
  {
    var i := IndexFrom(page, pat, 0);
    if i != -1 {
      var j := IndexFrom(page, pat, i + |pat|);
      if j == -1 {
        forall k: int | OccursAt(page, pat, k)
          ensures k == i
        {
          if k > i {
            NoOverlap(page, pat, i, k);
          }
        }
        assert Once(page, pat, i);
      } else {
        assert OccursAt(page, pat, i) && OccursAt(page, pat, j) && i != j;
      }
    }
  }

  /** A pattern without the separator never straddles it. */
  lemma SplitAt(a: Bytes, separator: byte, b: Bytes, pat: Bytes, i: int)
    requires separator !in pat && pat != []
    ensures OccursAt(a + [separator] + b, pat, i) <==> OccursAt(a, pat, i) || OccursAt(b, pat, i - |a| - 1)
  {
    var page := a + [separator] + b;
    if 0 <= i && i + |pat| <= |a| {
      assert page[i..i + |pat|] == a[i..i + |pat|];
    } else if i > |a| && i + |pat| <= |page| {
      assert page[i..i + |pat|] == b[i - |a| - 1..i - |a| - 1 + |pat|];
    } else if 0 <= i && i + |pat| <= |page| {
      assert page[i..i + |pat|][|a| - i] == separator;
      assert separator in page[i..i + |pat|];
    }
  }

  // ----- Trimming -----

  /** The UTF-8 encodings of the white-space code points, one, two and three bytes long. */
  predicate Space1(a: byte) {
    a == 0x20 || 0x09 <= a <= 0x0D
  }

  predicate Space2(a: byte, b: byte) {
    a == 0xC2 && (b == 0x85 || b == 0xA0)
  }

  predicate Space3(a: byte, b: byte, c: byte) {
    || (a == 0xE1 && b == 0x9A && c == 0x80)
    || (a == 0xE2 && b == 0x80 && (0x80 <= c <= 0x8A || c == 0xA8 || c == 0xA9 || c == 0xAF))
    || (a == 0xE2 && b == 0x81 && c == 0x9F)
    || (a == 0xE3 && b == 0x80 && c == 0x80)
  }

  /** How many bytes of white space start, or end, the text. */
  function LeadingSpace(s: Bytes): (n: nat)
    ensures n <= |s| && n <= 3
  {
    if |s| >= 1 && Space1(s[0]) then 1
    else if |s| >= 2 && Space2(s[0], s[1]) then 2
    else if |s| >= 3 && Space3(s[0], s[1], s[2]) then 3
    else 0
  }

  function TrailingSpace(s: Bytes): (n: nat)
    ensures n <= |s| && n <= 3
  {
    var k := |s|;
    if k >= 1 && Space1(s[k - 1]) then 1
    else if k >= 2 && Space2(s[k - 2], s[k - 1]) then 2
    else if k >= 3 && Space3(s[k - 3], s[k - 2], s[k - 1]) then 3
    else 0
  }

  function TrimLeft(s: Bytes): (t: Bytes)
    ensures |t| <= |s| && LeadingSpace(t) == 0
    decreases |s|
  {
    var n := LeadingSpace(s);
    if n == 0 then s else TrimLeft(s[n..])
  }

  function TrimRight(s: Bytes): (t: Bytes)
    ensures |t| <= |s| && TrailingSpace(t) == 0
    decreases |s|
  {
    var n := TrailingSpace(s);
    if n == 0 then s else TrimRight(s[..|s| - n])
  }

  function TrimSpace(s: Bytes): Bytes {
    TrimRight(TrimLeft(s))
  }
}
