/** The fingerprint of a package tree (internal/agent/install.go,
    bundleFingerprint): sorted, newline-joined records of names and digests. */
module PackageFingerprint {
  import opened Common
  import opened TextOrder

  const NUL: byte := 0
  const NEWLINE: byte := 10

  type Files = map<Bytes, Bytes>

  /** One file's record: its name, NUL, and the digest of its contents. */
  function Record(name: Bytes, digest: Bytes): Bytes {
    name + [NUL] + digest
  }

  /** A digest function as the source uses it: 64 hexadecimal characters. */
  ghost predicate Digests64(files: Files, hash: Bytes -> Bytes) {
    forall name <- files.Keys :: |hash(files[name])| == 64
  }

  ghost predicate NamesFree(files: Files) {
    forall name <- files.Keys :: NUL !in name
  }

  // ----- Joining -----

  function Join(records: seq<Bytes>): Bytes {
    if records == [] then []
    else if |records| == 1 then records[0]
    else records[0] + [NEWLINE] + Join(records[1..])
  }

  /** Every record is a NUL-free name, NUL, and exactly 64 characters. */
  ghost predicate WellFormed(record: Bytes) {
    exists name: Bytes, digest: Bytes :: NUL !in name && |digest| == 64 && record == Record(name, digest)
  }

  ghost predicate AllWellFormed(records: seq<Bytes>) {
    forall record <- records :: WellFormed(record)
  }

  /** The first record can be read off the front of a joined text: its name ends
      at the first NUL and its digest has a fixed length. */
  lemma FirstRecord(a: Bytes, b: Bytes, restA: Bytes, restB: Bytes)
    requires WellFormed(a) && WellFormed(b) && a + restA == b + restB
    ensures a == b && restA == restB
  {
    var nameA: Bytes, digestA: Bytes :| NUL !in nameA && |digestA| == 64 && a == Record(nameA, digestA);
    var nameB: Bytes, digestB: Bytes :| NUL !in nameB && |digestB| == 64 && b == Record(nameB, digestB);
    var text := a + restA;
    assert text[|nameA|] == NUL && text[|nameB|] == NUL;
    assert forall i | 0 <= i < |nameA| :: text[i] == nameA[i] && nameA[i] in nameA;
    assert forall i | 0 <= i < |nameB| :: text[i] == nameB[i] && nameB[i] in nameB;
    assert |nameA| == |nameB|;
    assert |a| == |b|;
    assert a == text[..|a|] && b == text[..|b|];
    assert restA == text[|a|..] && restB == text[|b|..];
  }

  lemma JoinEmpty(records: seq<Bytes>)
    requires AllWellFormed(records)
    ensures Join(records) == [] <==> records == []
  {
    if records != [] {
      assert WellFormed(records[0]);
    }
  }

  /** A record names its file. */
  lemma RecordName(a: Bytes, digestA: Bytes, b: Bytes, digestB: Bytes)
    requires NUL !in a && NUL !in b && |digestA| == 64 && |digestB| == 64
    ensures Record(a, digestA) == Record(b, digestB) ==> a == b && digestA == digestB
  {
    if Record(a, digestA) == Record(b, digestB) {
      var record := Record(a, digestA);
      assert |a| == |b| && a == record[..|a|] && b == record[..|a|];
      assert digestA == record[|a| + 1..] && digestB == record[|a| + 1..];
    }
  }

  /** Joined records parse back uniquely, even when names hold newlines. */
  lemma {:induction false} JoinInjective(s: seq<Bytes>, t: seq<Bytes>)
    requires AllWellFormed(s) && AllWellFormed(t) && Join(s) == Join(t)
    ensures s == t
  {
    JoinEmpty(s);
    JoinEmpty(t);
    if s != [] && t != [] {
      var restS := if |s| == 1 then [] else [NEWLINE] + Join(s[1..]);
      var restT := if |t| == 1 then [] else [NEWLINE] + Join(t[1..]);
      assert Join(s) == s[0] + restS && Join(t) == t[0] + restT;
      FirstRecord(s[0], t[0], restS, restT);
      if |s| > 1 && |t| > 1 {
        assert restS[1..] == Join(s[1..]) && restT[1..] == Join(t[1..]);
        JoinInjective(s[1..], t[1..]);
        assert s == [s[0]] + s[1..] && t == [t[0]] + t[1..];
      }
    }
  }

  // ----- The fingerprint -----

  ghost function Records(files: Files, hash: Bytes -> Bytes): set<Bytes> {
    set name | name in files :: Record(name, hash(files[name]))
  }

  /** The sorted list of a tree's records. */
  ghost predicate Canonical(files: Files, hash: Bytes -> Bytes, records: seq<Bytes>) {
    Sorted(records) && multiset(records) == multiset(Records(files, hash))
  }

  /** The record list does not depend on the order the files were visited in. */
  lemma CanonicalUnique(files: Files, hash: Bytes -> Bytes, s: seq<Bytes>, t: seq<Bytes>)
    requires Canonical(files, hash, s) && Canonical(files, hash, t)
    ensures s == t
  {
    SortedUnique(s, t);
  }

  lemma CanonicalWellFormed(files: Files, hash: Bytes -> Bytes, records: seq<Bytes>)
    requires Canonical(files, hash, records) && NamesFree(files) && Digests64(files, hash)
    ensures AllWellFormed(records)
  {
    forall record <- records
      ensures WellFormed(record)
    {
      assert record in multiset(records);
      var name :| name in files && record == Record(name, hash(files[name]));
    }
  }

  /** Equal record sets come from equal trees. */
  lemma RecordsInjective(f: Files, g: Files, hash: Bytes -> Bytes)
    requires NamesFree(f) && NamesFree(g) && Digests64(f, hash) && Digests64(g, hash)
    requires Records(f, hash) <= Records(g, hash)
    requires forall a <- f.Values, b <- g.Values :: hash(a) == hash(b) ==> a == b
    ensures forall name <- f.Keys :: name in g && f[name] == g[name]
  {
    forall name <- f.Keys
      ensures name in g && f[name] == g[name]
    {
      var record := Record(name, hash(f[name]));
      assert record in Records(f, hash);
      var other :| other in g && record == Record(other, hash(g[other]));
      RecordName(name, hash(f[name]), other, hash(g[other]));
      assert f[name] in f.Values && g[other] in g.Values;
    }
  }

  /** Two trees have the same fingerprint exactly when they are the same tree,
      whatever order their files are visited in, as long as the hash has no
      collision among the contents and texts at hand. */
  lemma {:induction false} FingerprintIdentifies(
    f: Files, g: Files, hash: Bytes -> Bytes, outer: Bytes -> Bytes, s: seq<Bytes>, t: seq<Bytes>)
    requires NamesFree(f) && NamesFree(g) && Digests64(f, hash) && Digests64(g, hash)
    requires Canonical(f, hash, s) && Canonical(g, hash, t)
    requires forall a <- f.Values, b <- g.Values :: hash(a) == hash(b) ==> a == b
    requires outer(Join(s)) == outer(Join(t)) ==> Join(s) == Join(t)
    ensures outer(Join(s)) == outer(Join(t)) <==> f == g
  {
    if f == g {
      CanonicalUnique(f, hash, s, t);
    }
    if outer(Join(s)) == outer(Join(t)) {
      CanonicalWellFormed(f, hash, s);
      CanonicalWellFormed(g, hash, t);
      JoinInjective(s, t);
      forall record: Bytes
        ensures record in Records(f, hash) <==> record in Records(g, hash)
      {
        assert record in multiset(Records(f, hash)) <==> record in multiset(Records(g, hash));
      }
      RecordsInjective(f, g, hash);
      RecordsInjective(g, f, hash);
      assert f.Keys == g.Keys;
    }
  }

  // ----- Computing it -----

  /** Collects one record per file in whatever order the map yields them, sorts
      them, and hashes the joined text. */
  method BundleFingerprint(files: Files, hash: Bytes -> Bytes, outer: Bytes -> Bytes) returns (digest: Bytes)
    requires NamesFree(files) && Digests64(files, hash)
    ensures exists records :: Canonical(files, hash, records) && digest == outer(Join(records))
  {
    var records := [];
    var names := files.Keys;
    while names != {}
      invariant names <= files.Keys && Sorted(records)
      invariant multiset(records) ==
        multiset(set name | name in files && name !in names :: Record(name, hash(files[name])))
    {
      var name :| name in names;
      ghost var seen := set n | n in files && n !in names :: Record(n, hash(files[n]));
      var record := Record(name, hash(files[name]));
      forall n | n in files && n != name
        ensures Record(n, hash(files[n])) != record
      {
        RecordName(n, hash(files[n]), name, hash(files[name]));
      }
      records := InsertSorted(records, record);
      names := names - {name};
      assert (set n | n in files && n !in names :: Record(n, hash(files[n]))) == seen + {record};
    }
    assert (set n | n in files && n !in names :: Record(n, hash(files[n]))) == Records(files, hash);
    digest := outer(Join(records));
  }
}
