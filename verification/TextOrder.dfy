/** Byte strings in dictionary order, and sorted lists of them. */
module TextOrder {
  import opened Common

  /** a comes before b, or equals it, in dictionary order. */
  predicate Before(a: Bytes, b: Bytes) {
    a == [] || (b != [] && (a[0] < b[0] || (a[0] == b[0] && Before(a[1..], b[1..]))))
  }

  lemma BeforeTotal(a: Bytes, b: Bytes)
    ensures Before(a, b) || Before(b, a)
  {
  }

  lemma {:induction false} BeforeAntisymmetric(a: Bytes, b: Bytes)
    requires Before(a, b) && Before(b, a)
    ensures a == b
  {
    if a != [] && b != [] {
      BeforeAntisymmetric(a[1..], b[1..]);
      assert a == [a[0]] + a[1..] && b == [b[0]] + b[1..];
    }
  }

  lemma {:induction false} BeforeTransitive(a: Bytes, b: Bytes, c: Bytes)
    requires Before(a, b) && Before(b, c)
    ensures Before(a, c)
  {
    if a != [] && b != [] && c != [] && a[0] == b[0] && b[0] == c[0] {
      BeforeTransitive(a[1..], b[1..], c[1..]);
    }
  }

  ghost predicate Sorted(records: seq<Bytes>) {
    forall i, j | 0 <= i < j < |records| :: Before(records[i], records[j])
  }

  /** Sorted lists of the same records start with the same record. */
  lemma SameHead(s: seq<Bytes>, t: seq<Bytes>)
    requires Sorted(s) && Sorted(t) && multiset(s) == multiset(t) && s != [] && t != []
    ensures s[0] == t[0]
  {
    assert s[0] in multiset(t) && t[0] in multiset(s);
    var i :| 0 <= i < |t| && t[i] == s[0];
    var j :| 0 <= j < |s| && s[j] == t[0];
    if i != 0 && j != 0 {
      BeforeAntisymmetric(s[0], t[0]);
    }
  }

  /** Sorting has one answer: two sorted lists of the same records are equal. */
  lemma {:induction false} SortedUnique(s: seq<Bytes>, t: seq<Bytes>)
    requires Sorted(s) && Sorted(t) && multiset(s) == multiset(t)
    ensures s == t
  {
    assert |s| == |multiset(s)| && |t| == |multiset(t)|;
    if s != [] {
      SameHead(s, t);
      assert s == [s[0]] + s[1..] && t == [t[0]] + t[1..];
      assert multiset(s[1..]) == multiset(s) - multiset{s[0]};
      assert multiset(t[1..]) == multiset(t) - multiset{t[0]};
      SortedUnique(s[1..], t[1..]);
    }
  }

  /** Inserts one record into a sorted list. */
  method InsertSorted(records: seq<Bytes>, record: Bytes) returns (r: seq<Bytes>)
    requires Sorted(records)
    ensures Sorted(r) && multiset(r) == multiset(records) + multiset{record}
  {
    var i := |records|;
    while i > 0 && !Before(records[i - 1], record)
      invariant 0 <= i <= |records|
      invariant forall j | i <= j < |records| :: Before(record, records[j])
    {
      BeforeTotal(records[i - 1], record);
      i := i - 1;
    }
    r := records[..i] + [record] + records[i..];
    assert records == records[..i] + records[i..];
    forall j | 0 <= j < i
      ensures Before(records[j], record)
    {
      if j < i - 1 {
        BeforeTransitive(records[j], records[i - 1], record);
      }
    }
  }

  /** Sorting, as the library does it. */
  method Sort(texts: seq<Bytes>) returns (sorted: seq<Bytes>)
    ensures Sorted(sorted) && multiset(sorted) == multiset(texts)
  {
    sorted := [];
    for i := 0 to |texts|
      invariant Sorted(sorted) && multiset(sorted) == multiset(texts[..i])
    {
      assert texts[..i + 1] == texts[..i] + [texts[i]];
      sorted := InsertSorted(sorted, texts[i]);
    }
    assert texts[..|texts|] == texts;
  }
}
