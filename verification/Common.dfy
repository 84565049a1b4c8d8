/** Datatypes shared by every component of the model. */
module Common {

  datatype Option<+T> = None | Some(value: T)

  datatype Result<+T, +E> = Ok(value: T) | Err(error: E)

  /** A raw byte, as the source's byte slices hold them. */
  newtype byte = b: int | 0 <= b < 0x100

  type Bytes = seq<byte>

  /** Smaller of two integers. */
  function Min(a: int, b: int): (m: int)
    ensures m <= a && m <= b && (m == a || m == b)
  {
    if a < b then a else b
  }

  function Elements<T>(s: seq<T>): set<T> {
    set x | x in s
  }

  /** The part holds the elements of the list at these places, in the list's order. */
  ghost predicate Picks<T>(list: seq<T>, at: seq<nat>, part: seq<T>) {
    && |at| == |part|
    && (forall i | 0 <= i < |at| :: at[i] < |list| && part[i] == list[at[i]])
    && forall i, j | 0 <= i < j < |at| :: at[i] < at[j]
  }

  /** One more element of the list, picked or not. */
  lemma PicksMore<T>(list: seq<T>, at: seq<nat>, part: seq<T>)
    requires list != [] && Picks(list[..|list| - 1], at, part)
    ensures Picks(list, at, part) && |list| - 1 !in at
    ensures Picks(list, at + [|list| - 1], part + [list[|list| - 1]])
  {
  }

  ghost predicate NoDuplicates<T>(s: seq<T>) {
    forall i, j | 0 <= i < j < |s| :: s[i] != s[j]
  }

  /** A list has as many elements as it is long exactly when none repeats. */
  lemma {:induction false} NoDuplicatesSize<T>(s: seq<T>)
    ensures |Elements(s)| <= |s|
    ensures NoDuplicates(s) <==> |Elements(s)| == |s|
    decreases |s|
  {
    if s != [] {
      var n := |s| - 1;
      NoDuplicatesSize(s[..n]);
      assert s == s[..n] + [s[n]];
      assert Elements(s) == Elements(s[..n]) + {s[n]};
      if s[n] in s[..n] {
        var k :| 0 <= k < n && s[..n][k] == s[n];
        assert s[k] == s[n];
      } else {
        assert forall k | 0 <= k < n :: s[k] == s[..n][k];
        assert NoDuplicates(s) <==> NoDuplicates(s[..n]);
      }
    }
  }
}
