/** The part of the user's home directory that holds skill packages
    (internal/agent), with every primitive step able to fail. */
module SkillDisk {
  import opened Common

  /** Supported agents. Each owns one skill root, `<config>/skills`, so a target
      stands for its root and for the configuration directory above it. */
  datatype Target =
    | Claude | Cline | Codex | Copilot | Cursor | Gemini | Generic | Hermes | OpenCode | Pi

  /** `.agents/skills`: the portable root, and the root older Codex installs used. */
  const LEGACY_BASE := Generic

  datatype Name = Tadx | TadxPulse

  /** A package directory: relative file names and their contents. A package
      fingerprint stands for exactly one tree (see PackageFingerprint). */
  type Tree = map<Bytes, Bytes>

  /** Directories that can hold a package tree. `id` is the random suffix. */
  datatype Path =
    | Package(base: Target, name: Name)
    | Stage(base: Target, id: nat)
    | Backup(base: Target, name: Name, id: nat)
    | Staging(base: Target, name: Name, id: nat)

  type Trees = map<Path, Tree>

  type Packages = map<Name, Tree>

  /** The ownership receipt beside a skill root; a damaged one cannot be read. */
  datatype ReceiptFile = Damaged | Receipt(packages: Packages)

  type Receipts = map<Target, ReceiptFile>

  function At(trees: Trees, path: Path): Option<Tree> {
    if path in trees then Some(trees[path]) else None
  }

  /** What a receipt at `base` registers; an absent receipt registers nothing. */
  function PackagesOf(receipts: Receipts, base: Target): Packages {
    if base in receipts && receipts[base].Receipt? then receipts[base].packages else map[]
  }

  predicate Registered(receipts: Receipts, base: Target) {
    PackagesOf(receipts, base) != map[]
  }

  /** The receipt at `base` is absent or undamaged. */
  predicate Readable(receipts: Receipts, base: Target) {
    base in receipts ==> receipts[base].Receipt?
  }

  /** Every random name on disk was drawn before `next`. */
  ghost predicate NamesDrawn(trees: Trees, next: nat) {
    forall path <- trees.Keys :: !path.Package? ==> path.id < next
  }

  /** The file system as one run sees it. Every method that returns `ok` may
      fail: its contract covers both answers, so a proof over calls to it is a
      proof over every pattern of failures. */
  class Disk {
    var trees: Trees
    var receipts: Receipts
    /** Receipt files being written, by their random name. */
    var drafts: map<(Target, nat), ReceiptFile>
    /** Names at or above this bound have not been drawn yet. */
    var next: nat
    /** Directory moves this run has asked for. */
    var renames: nat
    /** True when no other run changes the disk before this one takes its locks. */
    const quiet: bool
    /** True when every step of this run does what it is asked for, and its locks are free. */
    const smooth: bool

    ghost predicate Valid()
      reads this
    {
      NamesDrawn(trees, next)
    }

    constructor (quiet: bool, smooth: bool)
      ensures Valid() && this.quiet == quiet && this.smooth == smooth
      ensures trees == map[] && receipts == map[] && renames == 0
    {
      trees, receipts, drafts, next, renames := map[], map[], map[], 0, 0;
      this.quiet, this.smooth := quiet, smooth;
    }

    /** A step that changes no package: a context check, a parent check, mkdir, chmod. */
    method Step() returns (ok: bool)
      ensures smooth ==> ok
    {
      ok := *;
      ok := ok || smooth;
    }

    /** A random name that was never used before. */
    method Random() returns (id: nat)
      requires Valid()
      modifies this`next
      ensures Valid() && id == old(next) && next == id + 1
    {
      id := next;
      next := next + 1;
    }

    /** Reads a directory and its fingerprint. */
    method Inspect(path: Path) returns (seen: Result<Option<Tree>, ()>)
      ensures seen.Ok? ==> seen.value == At(trees, path)
      ensures smooth ==> seen.Ok?
    {
      var ok := Step();
      seen := if ok then Ok(At(trees, path)) else Err(());
    }

    /** Reads an ownership receipt; None is an absent file. */
    method ReadReceipt(base: Target) returns (read: Result<Option<Packages>, ()>)
      ensures read.Ok? ==> (read.value.Some? <==> base in receipts)
      ensures read.Ok? && read.value.Some? ==> receipts[base] == Receipt(read.value.value)
      ensures smooth && Readable(receipts, base) ==> read.Ok?
    {
      var readable := Step();
      if !readable || (base in receipts && receipts[base].Damaged?) {
        return Err(());
      }
      return Ok(if base in receipts then Some(receipts[base].packages) else None);
    }

    /** Moves one directory. A failed move changes nothing. */
    method Rename(from: Path, to: Path) returns (ok: bool)
      modifies this`trees, this`renames
      ensures renames == old(renames) + 1
      ensures ok ==> from in old(trees) && to !in old(trees)
      ensures ok ==> from !in trees && At(trees, to) == At(old(trees), from)
      ensures ok ==> forall path: Path | path != from && path != to :: At(trees, path) == At(old(trees), path)
      ensures !ok ==> trees == old(trees)
      ensures smooth && from in old(trees) && to !in old(trees) ==> ok
    {
      renames := renames + 1;
      ok := Step();
      ok := ok && from in trees && to !in trees;
      if ok {
        trees := (trees - {from})[to := trees[from]];
      }
    }

    method Mkdir(path: Path) returns (ok: bool)
      modifies this`trees
      ensures ok ==> path !in old(trees) && trees == old(trees)[path := map[]]
      ensures !ok ==> trees == old(trees)
      ensures smooth && path !in old(trees) ==> ok
    {
      ok := Step();
      ok := ok && path !in trees;
      if ok {
        trees := trees[path := map[]];
      }
    }

    /** Writes one file; a failed write may leave any part of it behind. */
    method WriteFile(path: Path, name: Bytes, data: Bytes) returns (ok: bool)
      requires path in trees
      modifies this`trees
      ensures ok ==> trees == old(trees)[path := old(trees)[path][name := data]]
      ensures !ok ==> path in trees && trees == old(trees)[path := trees[path]]
      ensures smooth ==> ok
    {
      ok := Step();
      var written: Bytes := *;
      trees := trees[path := trees[path][name := if ok then data else written]];
    }

    /** Deletes a directory; a failed deletion may leave some of its files. */
    method RemoveAll(path: Path) returns (ok: bool)
      modifies this`trees
      ensures forall other: Path | other != path :: At(trees, other) == At(old(trees), other)
      ensures path in trees <==> path in old(trees) && !ok
      ensures smooth ==> ok
    {
      ok := Step();
      if ok {
        trees := trees - {path};
      } else if path in trees {
        var kept: set<Bytes> := *;
        trees := trees[path := map file | file in trees[path] && file in kept :: trees[path][file]];
      }
    }

    method CreateDraft(base: Target, id: nat) returns (ok: bool)
      modifies this`drafts
      ensures ok ==> drafts == old(drafts)[(base, id) := Damaged]
      ensures !ok ==> drafts == old(drafts)
      ensures smooth ==> ok
    {
      ok := Step();
      if ok {
        drafts := drafts[(base, id) := Damaged];
      }
    }

    /** Writes, syncs and closes a draft; one that failed stays unreadable. */
    method FillDraft(base: Target, id: nat, packages: Packages) returns (ok: bool)
      requires (base, id) in drafts
      modifies this`drafts
      ensures drafts == old(drafts)[(base, id) := if ok then Receipt(packages) else Damaged]
      ensures smooth ==> ok
    {
      ok := Step();
      drafts := drafts[(base, id) := if ok then Receipt(packages) else Damaged];
    }

    /** Renames a draft over the receipt. */
    method CommitDraft(base: Target, id: nat) returns (ok: bool)
      requires (base, id) in drafts
      modifies this`drafts, this`receipts
      ensures ok ==> receipts == old(receipts)[base := old(drafts)[(base, id)]]
      ensures ok ==> drafts == old(drafts) - {(base, id)}
      ensures !ok ==> receipts == old(receipts) && drafts == old(drafts)
      ensures smooth ==> ok
    {
      ok := Step();
      if ok {
        receipts := receipts[base := drafts[(base, id)]];
        drafts := drafts - {(base, id)};
      }
    }

    method RemoveDraft(base: Target, id: nat)
      modifies this`drafts
    {
      var ok: bool := *;
      if ok {
        drafts := drafts - {(base, id)};
      }
    }

    /** Writes a receipt beside the old one and renames it into place
        (internal/agent/receipt.go): the receipt is replaced whole or not at all. */
    method WriteReceipt(base: Target, packages: Packages) returns (ok: bool)
      requires Valid()
      modifies this`next, this`drafts, this`receipts
      ensures Valid() && next >= old(next)
      ensures ok ==> receipts == old(receipts)[base := Receipt(packages)]
      ensures !ok ==> receipts == old(receipts)
      ensures smooth ==> ok
    {
      ok := Step();
      if !ok {
        return;
      }
      var id := Random();
      ok := CreateDraft(base, id);
      if !ok {
        return;
      }
      ok := FillDraft(base, id, packages);
      if ok {
        ok := CommitDraft(base, id);
      }
      RemoveDraft(base, id);
    }

    /** Tries to take the package locks. Until they are held, other runs may
        change any package and any receipt. */
    method AcquireLocks(target: Target) returns (ok: bool)
      requires Valid()
      modifies this`trees, this`receipts, this`drafts, this`next
      ensures Valid() && next >= old(next)
      ensures quiet ==> trees == old(trees) && receipts == old(receipts)
      ensures smooth ==> ok
    {
      ok := Step();
      if !quiet {
        receipts := *;
        drafts := *;
        var others: Trees := *;
        var drawn: int := *;
        next := if drawn > next then drawn else next;
        trees := map path | path in others && (path.Package? || path.id < next) :: others[path];
      }
    }
  }
}
