/** Bounding lineage warnings (actions/workbook/pull.go): trimmed, cut at a character
    boundary, deduplicated, sorted and capped. Well-formed text is the UTF-8 of
    section 4 of RFC 3629. */
module LineageWarnings {
  import opened Common
  import opened ByteText
  import opened TextOrder

  const MAX_BYTES := 512
  const MAX_WARNINGS := 20

  // ----- UTF-8 -----

  predicate Tail(b: byte) {
    0x80 <= b <= 0xBF
  }

  /** A byte that starts a character, as the back-off loop sees it. */
  predicate RuneStart(b: byte) {
    !Tail(b)
  }

  /** The length of the well-formed character at the front, or 0. */
  function CharLength(s: Bytes): (n: nat)
    ensures n <= |s| && n <= 4
    ensures n > 0 ==> RuneStart(s[0]) && forall i | 1 <= i < n :: Tail(s[i])
  {
    if |s| >= 1 && s[0] <= 0x7F then 1
    else if |s| >= 2 && 0xC2 <= s[0] <= 0xDF && Tail(s[1]) then 2
    else if |s| >= 3 && Three(s[0], s[1]) && Tail(s[2]) then 3
    else if |s| >= 4 && Four(s[0], s[1]) && Tail(s[2]) && Tail(s[3]) then 4
    else 0
  }

  predicate Three(a: byte, b: byte) {
    || (a == 0xE0 && 0xA0 <= b <= 0xBF)
    || (0xE1 <= a <= 0xEC && Tail(b))
    || (a == 0xED && 0x80 <= b <= 0x9F)
    || (0xEE <= a <= 0xEF && Tail(b))
  }

  predicate Four(a: byte, b: byte) {
    || (a == 0xF0 && 0x90 <= b <= 0xBF)
    || (0xF1 <= a <= 0xF3 && Tail(b))
    || (a == 0xF4 && 0x80 <= b <= 0x8F)
  }

  predicate Valid(s: Bytes)
    decreases |s|
  {
    s == [] || (CharLength(s) > 0 && Valid(s[CharLength(s)..]))
  }

  /** A character's length depends on its own bytes only. */
  lemma CharLengthPrefix(s: Bytes, k: nat)
    requires CharLength(s) > 0 && CharLength(s) <= k <= |s|
    ensures CharLength(s[..k]) == CharLength(s)
  {
  }

  /** The first character of well-formed text lies before any later byte that starts one. */
  lemma FirstChar(s: Bytes, k: nat) returns (n: nat)
    requires Valid(s) && 0 < k <= |s| && (k < |s| ==> RuneStart(s[k]))
    ensures 0 < n <= k && Valid(s[n..])
    ensures Valid(s[n..][..k - n]) ==> Valid(s[..k])
  {
    n := CharLength(s);
    CharLengthPrefix(s, k);
    assert s[..k][n..] == s[n..][..k - n];
  }

  /** Well-formed text splits at any byte that starts a character. */
  lemma {:induction false} ValidSplits(s: Bytes, k: nat)
    requires Valid(s) && k <= |s| && (k < |s| ==> RuneStart(s[k]))
    ensures Valid(s[..k]) && Valid(s[k..])
    decreases |s|
  {
    if k == 0 {
      assert s[..0] == [] && s[0..] == s;
    } else {
      var n := FirstChar(s, k);
      var rest := s[n..];
      assert k < |s| ==> rest[k - n] == s[k];
      ValidSplits(rest, k - n);
      assert s[k..] == rest[k - n..];
    }
  }

  /** A character starts at every position of well-formed text or at most three before it. */
  lemma {:induction false} StartsNearby(s: Bytes, k: nat) returns (j: nat)
    requires Valid(s) && k < |s|
    ensures j <= k <= j + 3 && RuneStart(s[j])
    decreases |s|
  {
    var n := CharLength(s);
    if k < n {
      j := 0;
    } else {
      var i := StartsNearby(s[n..], k - n);
      j := i + n;
    }
  }

  // ----- Trimming -----

  lemma {:induction false} TrimLeftValid(s: Bytes)
    requires Valid(s)
    ensures Valid(TrimLeft(s))
    decreases |s|
  {
    var n := LeadingSpace(s);
    if n > 0 {
      assert CharLength(s) == n;
      TrimLeftValid(s[n..]);
    }
  }

  lemma {:induction false} TrimRightValid(s: Bytes)
    requires Valid(s)
    ensures Valid(TrimRight(s))
    decreases |s|
  {
    var n := TrailingSpace(s);
    if n > 0 {
      assert RuneStart(s[|s| - n]);
      ValidSplits(s, |s| - n);
      TrimRightValid(s[..|s| - n]);
    }
  }

  lemma TrimValid(s: Bytes)
    requires Valid(s)
    ensures Valid(TrimSpace(s))
  {
    TrimLeftValid(s);
    TrimRightValid(TrimLeft(s));
  }

  // ----- Cutting -----

  /** The last position up to `cut` where a character starts, or 0. */
  function BackOff(warning: Bytes, cut: nat): (k: nat)
    requires cut < |warning|
    ensures k <= cut && (k > 0 ==> RuneStart(warning[k]))
    ensures forall i | k < i <= cut :: Tail(warning[i])
  {
    if cut == 0 || RuneStart(warning[cut]) then cut else BackOff(warning, cut - 1)
  }

  /** What is kept of one trimmed warning. */
  function Bounded(warning: Bytes): (kept: Bytes)
    ensures |kept| <= MAX_BYTES && kept <= warning
  {
    if |warning| > MAX_BYTES then warning[..BackOff(warning, MAX_BYTES)] else warning
  }

  /** A text within the limit is kept whole; of a longer one, what comes before the last character that starts at the
      limit or before it is kept. */
  lemma BoundedExact(warning: Bytes)
    ensures |warning| <= 512 ==> Bounded(warning) == warning
    ensures |warning| > 512 ==> var k := |Bounded(warning)|;
      && k <= 512 && Bounded(warning) == warning[..k]
      && (k > 0 ==> !(0x80 <= warning[k] <= 0xBF)) && forall i | k < i <= 512 :: 0x80 <= warning[i] <= 0xBF
  {
  }

  /** Well-formed text stays so, and at most three bytes below the limit are given up. */
  lemma {:induction false} BoundedValid(warning: Bytes)
    requires Valid(warning)
    ensures Valid(Bounded(warning))
    ensures |warning| > MAX_BYTES ==> MAX_BYTES - 3 <= |Bounded(warning)|
    ensures warning != [] ==> Bounded(warning) != []
  {
    if |warning| > MAX_BYTES {
      var j := StartsNearby(warning, MAX_BYTES);
      var k := BackOff(warning, MAX_BYTES);
      assert k >= j;
      ValidSplits(warning, k);
    }
  }

  /** A warning is cut down to nothing exactly if it is too long and no character starts between its
      second byte and the limit. */
  lemma VanishesIff(warning: Bytes)
    ensures Bounded(warning) == []
      <==> warning == [] || (|warning| > MAX_BYTES && forall i | 0 < i <= MAX_BYTES :: Tail(warning[i]))
  {
    if |warning| > MAX_BYTES && BackOff(warning, MAX_BYTES) > 0 {
      assert !Tail(warning[BackOff(warning, MAX_BYTES)]);
    }
  }

  const LETTER: byte := 0x41
  const STRAY: byte := 0x80

  /** A letter with nothing but continuation bytes behind it is kept as an empty warning. */
  lemma LetterVanishes(n: nat) returns (warning: Bytes)
    requires n >= MAX_BYTES
    ensures |warning| == n + 1 && warning[0] == LETTER && Bounded(warning) == [] && !Valid(warning)
  {
    warning := [LETTER] + seq(n, _ => STRAY);
    VanishesIff(warning);
    if Valid(warning) {
      BoundedValid(warning);
    }
  }

  // ----- The list -----

  /** The warnings that are kept, before they are sorted and capped. */
  ghost function Kept(input: seq<Bytes>): set<Bytes> {
    set w | w in input && TrimSpace(w) != [] :: Bounded(TrimSpace(w))
  }

  /** The one sorted list of some texts without repetition. */
  ghost predicate Listing(texts: set<Bytes>, list: seq<Bytes>) {
    Sorted(list) && NoDuplicates(list) && Elements(list) == texts
  }

  lemma ListingUnique(texts: set<Bytes>, a: seq<Bytes>, b: seq<Bytes>)
    requires Listing(texts, a) && Listing(texts, b)
    ensures a == b
  {
    forall t: Bytes
      ensures multiset(a)[t] == multiset(b)[t]
    {
      CountOne(a, t);
      CountOne(b, t);
      assert t in Elements(a) <==> t in Elements(b);
    }
    assert multiset(a) == multiset(b);
    SortedUnique(a, b);
  }

  lemma {:induction false} CountOne(list: seq<Bytes>, t: Bytes)
    requires NoDuplicates(list)
    ensures multiset(list)[t] == if t in list then 1 else 0
    decreases |list|
  {
    if list != [] {
      var n := |list| - 1;
      CountOne(list[..n], t);
      assert list == list[..n] + [list[n]];
      assert multiset(list) == multiset(list[..n]) + multiset{list[n]};
      assert list[n] !in list[..n];
    }
  }

  lemma {:induction false} SameCountsNoDuplicates(a: seq<Bytes>, b: seq<Bytes>)
    requires NoDuplicates(a) && multiset(a) == multiset(b)
    ensures NoDuplicates(b) && Elements(b) == Elements(a)
  {
    assert |a| == |multiset(a)| == |multiset(b)| == |b|;
    forall t: Bytes
      ensures t in a <==> t in b
    {
      assert t in a <==> t in multiset(a);
      assert t in b <==> t in multiset(b);
    }
    assert Elements(a) == Elements(b);
    NoDuplicatesSize(a);
    NoDuplicatesSize(b);
  }

  /** The first twenty, in dictionary order, of the distinct bounded warnings. */
  method BoundedLineageWarnings(input: seq<Bytes>) returns (warnings: seq<Bytes>)
    ensures exists all :: Listing(Kept(input), all) && warnings == all[..Min(MAX_WARNINGS, |all|)]
  {
    var unique: seq<Bytes> := [];
    var seen: set<Bytes> := {};
    for i := 0 to |input|
      invariant NoDuplicates(unique) && seen == Elements(unique) == Kept(input[..i])
    {
      var warning := TrimSpace(input[i]);
      KeptOneMore(input, i);
      if warning == [] {
        continue;
      }
      if |warning| > MAX_BYTES {
        var cut := MAX_BYTES;
        while cut > 0 && !RuneStart(warning[cut])
          invariant 0 <= cut <= MAX_BYTES && BackOff(warning, cut) == BackOff(warning, MAX_BYTES)
        {
          cut := cut - 1;
        }
        warning := warning[..cut];
      }
      if warning in seen {
        continue;
      }
      assert Elements(unique + [warning]) == Elements(unique) + {warning};
      unique, seen := unique + [warning], seen + {warning};
    }
    assert input[..|input|] == input;
    var sorted := Sort(unique);
    SameCountsNoDuplicates(unique, sorted);
    assert Listing(Kept(input), sorted);
    warnings := if |sorted| > MAX_WARNINGS then sorted[..MAX_WARNINGS] else sorted;
  }

  lemma KeptOneMore(input: seq<Bytes>, i: nat)
    requires i < |input|
    ensures var warning := TrimSpace(input[i]);
      Kept(input[..i + 1]) == Kept(input[..i]) + if warning == [] then {} else {Bounded(warning)}
  {
    assert input[..i + 1] == input[..i] + [input[i]];
  }

  /** Each warning is a short prefix of a trimmed input; of well-formed inputs it is well-formed and not empty. */
  lemma {:induction false} WarningsBounded(input: seq<Bytes>, all: seq<Bytes>, warning: Bytes)
    requires Listing(Kept(input), all) && warning in all
    ensures |warning| <= MAX_BYTES && exists w <- input :: TrimSpace(w) != [] && warning <= TrimSpace(w)
    ensures (forall w <- input :: Valid(w)) ==> Valid(warning) && warning != []
  {
    assert warning in Elements(all);
    var w :| w in input && TrimSpace(w) != [] && warning == Bounded(TrimSpace(w));
    if forall v <- input :: Valid(v) {
      TrimValid(w);
      BoundedValid(TrimSpace(w));
    }
  }
}
