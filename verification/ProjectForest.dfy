/** The project hierarchy of a site: what makes it a forest with unique sibling
    names, and what moving or creating a project does to it. */
module ProjectForest {
  import opened Common

  type Luid = string

  /** A project record. `parent` is "" at top level. */
  datatype Project = Project(luid: Luid, name: string, path: string, parent: Luid)

  type Projects = map<Luid, Project>

  ghost predicate Keyed(ps: Projects) {
    forall luid <- ps.Keys :: luid != "" && ps[luid].luid == luid
  }

  /** The top level is reached from `luid` after exactly `n` steps upward. */
  ghost predicate RootedIn(ps: Projects, luid: Luid, n: nat)
    decreases n
  {
    luid in ps && if n == 0 then ps[luid].parent == ""
      else ps[luid].parent != "" && RootedIn(ps, ps[luid].parent, n - 1)
  }

  ghost predicate Rooted(ps: Projects, luid: Luid) {
    exists n: nat :: RootedIn(ps, luid, n)
  }

  ghost predicate Forest(ps: Projects) {
    forall luid <- ps.Keys :: Rooted(ps, luid)
  }

  /** No two projects under one parent share a folded name. */
  ghost predicate UniqueSlots(ps: Projects, fold: string -> string) {
    forall a <- ps.Keys, b <- ps.Keys :: a != b && ps[a].parent == ps[b].parent ==> fold(ps[a].name) != fold(ps[b].name)
  }

  ghost predicate WellFormed(ps: Projects, fold: string -> string) {
    Keyed(ps) && Forest(ps) && UniqueSlots(ps, fold)
  }

  /** The k-th ancestor, counting the project itself as the 0th. */
  ghost function AncestorAt(ps: Projects, luid: Luid, k: nat): Option<Luid>
    decreases k
  {
    if luid !in ps then None
    else if k == 0 then Some(luid)
    else AncestorAt(ps, ps[luid].parent, k - 1)
  }

  /** `luid` is `other` or one of its descendants. */
  ghost predicate Under(ps: Projects, luid: Luid, other: Luid) {
    exists k: nat :: AncestorAt(ps, luid, k) == Some(other)
  }

  /** Projects already holding the name slot (fold(name), parent). */
  ghost predicate SlotTaken(ps: Projects, fold: string -> string, name: string, parent: Luid, except: Luid) {
    exists luid <- ps.Keys :: luid != except && ps[luid].parent == parent && fold(ps[luid].name) == fold(name)
  }

  function Moved(ps: Projects, luid: Luid, parent: Luid): Projects
    requires luid in ps
  {
    ps[luid := ps[luid].(parent := parent)]
  }

  // ----- Depth -----

  lemma {:induction false} DepthUnique(ps: Projects, luid: Luid, n: nat, m: nat)
    requires RootedIn(ps, luid, n) && RootedIn(ps, luid, m)
    ensures n == m
    decreases n
  {
    if n != 0 && m != 0 {
      DepthUnique(ps, ps[luid].parent, n - 1, m - 1);
    }
  }

  /** An ancestor k steps up is k steps closer to the top. */
  lemma {:induction false} AncestorDepth(ps: Projects, luid: Luid, n: nat, k: nat)
    requires Keyed(ps) && RootedIn(ps, luid, n) && AncestorAt(ps, luid, k).Some?
    ensures k <= n && RootedIn(ps, AncestorAt(ps, luid, k).value, n - k)
    decreases n
  {
    if k > 0 && n > 0 {
      AncestorDepth(ps, ps[luid].parent, n - 1, k - 1);
    }
  }

  /** A chain that repeats an identity never reaches the top level. */
  lemma RepeatNeverRoots(ps: Projects, luid: Luid, i: nat, j: nat)
    requires Keyed(ps) && i < j
    requires AncestorAt(ps, luid, i).Some? && AncestorAt(ps, luid, i) == AncestorAt(ps, luid, j)
    ensures !Rooted(ps, luid)
  {
    if n: nat :| RootedIn(ps, luid, n) {
      AncestorDepth(ps, luid, n, i);
      AncestorDepth(ps, luid, n, j);
      DepthUnique(ps, AncestorAt(ps, luid, i).value, n - i, n - j);
    }
  }

  lemma {:induction false} AncestorNext(ps: Projects, luid: Luid, k: nat)
    requires AncestorAt(ps, luid, k).Some?
    ensures AncestorAt(ps, luid, k).value in ps
    ensures AncestorAt(ps, luid, k + 1) == AncestorAt(ps, ps[AncestorAt(ps, luid, k).value].parent, 0)
    decreases k
  {
    if k > 0 {
      AncestorNext(ps, ps[luid].parent, k - 1);
    }
  }

  /** A chain whose k-th project is at top level has depth k. */
  lemma {:induction false} TopGivesDepth(ps: Projects, luid: Luid, k: nat)
    requires Keyed(ps) && AncestorAt(ps, luid, k).Some? && AncestorAt(ps, luid, k).value in ps
    requires ps[AncestorAt(ps, luid, k).value].parent == ""
    ensures RootedIn(ps, luid, k)
    decreases k
  {
    if k > 0 {
      TopGivesDepth(ps, ps[luid].parent, k - 1);
    }
  }

  /** A chain with a missing parent never reaches the top level. */
  lemma MissingNeverRoots(ps: Projects, luid: Luid, k: nat)
    requires Keyed(ps) && AncestorAt(ps, luid, k).Some? && AncestorAt(ps, luid, k).value in ps
    requires ps[AncestorAt(ps, luid, k).value].parent != "" && ps[AncestorAt(ps, luid, k).value].parent !in ps
    ensures !Rooted(ps, luid)
  {
    if n: nat :| RootedIn(ps, luid, n) {
      AncestorDepth(ps, luid, n, k);
    }
  }

  // ----- Moving -----

  /** Below the moved project nothing changes; a chain that avoids it keeps its depth. */
  lemma {:induction false} AvoidingKeepsDepth(ps: Projects, moved: Luid, parent: Luid, luid: Luid, n: nat)
    requires moved in ps && RootedIn(ps, luid, n) && !Under(ps, luid, moved)
    ensures RootedIn(Moved(ps, moved, parent), luid, n)
    decreases n
  {
    assert AncestorAt(ps, luid, 0) == Some(luid);
    if n > 0 {
      forall k: nat
        ensures AncestorAt(ps, ps[luid].parent, k) != Some(moved)
      {
        assert AncestorAt(ps, luid, k + 1) == AncestorAt(ps, ps[luid].parent, k);
      }
      AvoidingKeepsDepth(ps, moved, parent, ps[luid].parent, n - 1);
    }
  }

  lemma {:induction false} MovedRooted(ps: Projects, moved: Luid, parent: Luid, luid: Luid, n: nat)
    requires moved in ps && RootedIn(ps, luid, n)
    requires Rooted(Moved(ps, moved, parent), moved)
    ensures Rooted(Moved(ps, moved, parent), luid)
    decreases n
  {
    if luid != moved {
      if n == 0 {
        assert RootedIn(Moved(ps, moved, parent), luid, 0);
      } else {
        MovedRooted(ps, moved, parent, ps[luid].parent, n - 1);
        var m: nat :| RootedIn(Moved(ps, moved, parent), ps[luid].parent, m);
        assert RootedIn(Moved(ps, moved, parent), luid, m + 1);
      }
    }
  }

  /** Up to the moved project a chain is the same before and after the move. */
  lemma {:induction false} SameChainUp(ps: Projects, moved: Luid, parent: Luid, luid: Luid, k: nat)
    requires moved in ps && AncestorAt(ps, luid, k) == Some(moved)
    ensures exists j: nat :: j <= k && AncestorAt(Moved(ps, moved, parent), luid, j) == Some(moved)
    decreases k
  {
    if luid == moved {
      assert AncestorAt(Moved(ps, moved, parent), luid, 0) == Some(moved);
    } else {
      SameChainUp(ps, moved, parent, ps[luid].parent, k - 1);
      var j: nat :| j <= k - 1 && AncestorAt(Moved(ps, moved, parent), ps[luid].parent, j) == Some(moved);
      assert AncestorAt(Moved(ps, moved, parent), luid, j + 1) == Some(moved);
    }
  }

  /** Moving a project keeps the forest exactly when the new parent is the top
      level or an existing project outside the moved project's own subtree. */
  lemma MoveKeepsForest(ps: Projects, moved: Luid, parent: Luid)
    requires Keyed(ps) && Forest(ps) && moved in ps
    ensures Forest(Moved(ps, moved, parent)) <==> parent == "" || (parent in ps && !Under(ps, parent, moved))
  {
    var after := Moved(ps, moved, parent);
    if parent == "" {
      assert RootedIn(after, moved, 0);
    } else if parent in ps && !Under(ps, parent, moved) {
      var n: nat :| RootedIn(ps, parent, n);
      AvoidingKeepsDepth(ps, moved, parent, parent, n);
      assert RootedIn(after, moved, n + 1);
    } else if parent !in ps {
      assert after[moved].parent == parent && parent !in after;
      assert forall n: nat :: !RootedIn(after, moved, n);
      assert moved in after.Keys;
    } else {
      var k: nat :| AncestorAt(ps, parent, k) == Some(moved);
      SameChainUp(ps, moved, parent, parent, k);
      var j: nat :| AncestorAt(after, parent, j) == Some(moved);
      assert AncestorAt(after, moved, j + 1) == Some(moved) && AncestorAt(after, moved, 0) == Some(moved);
      assert Keyed(after);
      RepeatNeverRoots(after, moved, 0, j + 1);
      assert moved in after.Keys;
    }
    if parent == "" || (parent in ps && !Under(ps, parent, moved)) {
      forall luid <- after.Keys
        ensures Rooted(after, luid)
      {
        var n: nat :| RootedIn(ps, luid, n);
        MovedRooted(ps, moved, parent, luid, n);
      }
    }
  }

  /** Moving a project keeps sibling names unique exactly when its name is free there. */
  lemma MoveKeepsSlots(ps: Projects, fold: string -> string, moved: Luid, parent: Luid)
    requires UniqueSlots(ps, fold) && moved in ps
    ensures UniqueSlots(Moved(ps, moved, parent), fold) <==> !SlotTaken(ps, fold, ps[moved].name, parent, moved)
  {
    var after := Moved(ps, moved, parent);
    if SlotTaken(ps, fold, ps[moved].name, parent, moved) {
      var luid :| luid in ps && luid != moved && ps[luid].parent == parent
        && fold(ps[luid].name) == fold(ps[moved].name);
      assert after[luid].parent == after[moved].parent && luid in after.Keys && moved in after.Keys;
    } else {
      forall a <- after.Keys, b <- after.Keys | a != b && after[a].parent == after[b].parent
        ensures fold(after[a].name) != fold(after[b].name)
      {
        if a == moved {
          assert ps[b].parent == parent;
        } else if b == moved {
          assert ps[a].parent == parent;
        }
      }
    }
  }

  // ----- Creating -----

  lemma {:induction false} AddedKeepsDepth(ps: Projects, project: Project, luid: Luid, n: nat)
    requires project.luid !in ps && RootedIn(ps, luid, n)
    ensures RootedIn(ps[project.luid := project], luid, n)
    decreases n
  {
    if n > 0 {
      AddedKeepsDepth(ps, project, ps[luid].parent, n - 1);
    }
  }

  lemma CreateKeepsForest(ps: Projects, project: Project)
    requires Keyed(ps) && Forest(ps) && project.luid !in ps && project.luid != ""
    requires project.parent == "" || project.parent in ps
    ensures Keyed(ps[project.luid := project]) && Forest(ps[project.luid := project])
  {
    var after := ps[project.luid := project];
    forall luid <- after.Keys
      ensures Rooted(after, luid)
    {
      if luid != project.luid {
        var n: nat :| RootedIn(ps, luid, n);
        AddedKeepsDepth(ps, project, luid, n);
      } else if project.parent == "" {
        assert RootedIn(after, luid, 0);
      } else {
        var n: nat :| RootedIn(ps, project.parent, n);
        AddedKeepsDepth(ps, project, project.parent, n);
        assert RootedIn(after, luid, n + 1);
      }
    }
  }

  /** A new project under a parent that is missing, or under itself, is in no forest. */
  lemma OrphanNotForest(ps: Projects, project: Project)
    requires Keyed(ps) && project.luid !in ps && project.luid != ""
    requires project.parent != "" && project.parent !in ps
    ensures !Forest(ps[project.luid := project])
  {
    var after := ps[project.luid := project];
    assert project.luid in after.Keys;
    if project.parent == project.luid {
      assert AncestorAt(after, project.luid, 1) == AncestorAt(after, project.luid, 0) == Some(project.luid);
      RepeatNeverRoots(after, project.luid, 0, 1);
    } else {
      assert forall n: nat :: !RootedIn(after, project.luid, n);
    }
  }

  lemma CreateKeepsSlots(ps: Projects, fold: string -> string, project: Project)
    requires UniqueSlots(ps, fold) && project.luid !in ps
    ensures UniqueSlots(ps[project.luid := project], fold)
      <==> !SlotTaken(ps, fold, project.name, project.parent, project.luid)
  {
    var after := ps[project.luid := project];
    if SlotTaken(ps, fold, project.name, project.parent, project.luid) {
      var luid :| luid in ps && luid != project.luid && ps[luid].parent == project.parent
        && fold(ps[luid].name) == fold(project.name);
      assert luid in after.Keys && project.luid in after.Keys && after[luid].parent == after[project.luid].parent;
    } else {
      forall a <- after.Keys, b <- after.Keys | a != b && after[a].parent == after[b].parent
        ensures fold(after[a].name) != fold(after[b].name)
      {
        if a == project.luid {
          assert ps[b].parent == project.parent;
        } else if b == project.luid {
          assert ps[a].parent == project.parent;
        }
      }
    }
  }

  // ----- Runs -----

  /** One write a session may make. */
  datatype Write = Move(luid: Luid, parent: Luid) | Create(project: Project)

  /** The guard both actions establish immediately before they write. */
  ghost predicate Allowed(ps: Projects, fold: string -> string, write: Write) {
    match write
    case Move(luid, parent) =>
      && luid in ps
      && (parent == "" || (parent in ps && !Under(ps, parent, luid)))
      && !SlotTaken(ps, fold, ps[luid].name, parent, luid)
    case Create(project) =>
      && project.luid !in ps && project.luid != ""
      && (project.parent == "" || project.parent in ps)
      && !SlotTaken(ps, fold, project.name, project.parent, project.luid)
  }

  ghost function Written(ps: Projects, write: Write): Projects
    requires write.Move? ==> write.luid in ps
  {
    match write
    case Move(luid, parent) => Moved(ps, luid, parent)
    case Create(project) => ps[project.luid := project]
  }

  /** A write keeps the site well formed exactly when its guard allows it. */
  lemma WriteKeepsSite(ps: Projects, fold: string -> string, write: Write)
    requires WellFormed(ps, fold) && (write.Move? ==> write.luid in ps) && (write.Create? ==> write.project.luid !in ps)
    ensures WellFormed(Written(ps, write), fold) <==> Allowed(ps, fold, write)
  {
    match write
    case Move(luid, parent) =>
      MoveKeepsForest(ps, luid, parent);
      MoveKeepsSlots(ps, fold, luid, parent);
    case Create(project) =>
      CreateKeepsSlots(ps, fold, project);
      var after := ps[project.luid := project];
      assert project.luid in after.Keys;
      if project.luid != "" && (project.parent == "" || project.parent in ps) {
        CreateKeepsForest(ps, project);
      } else if project.luid != "" {
        OrphanNotForest(ps, project);
      }
  }

  /** A run of writes, each allowed in the state it is made in. */
  ghost predicate AllowedRun(states: seq<Projects>, fold: string -> string, writes: seq<Write>) {
    && |states| == |writes| + 1
    && forall i | 0 <= i < |writes| ::
      Allowed(states[i], fold, writes[i]) && states[i + 1] == Written(states[i], writes[i])
  }

  /** Every run of allowed writes keeps the parent map a forest and sibling names unique. */
  lemma {:induction false} RunKeepsSite(states: seq<Projects>, fold: string -> string, writes: seq<Write>, k: nat)
    requires AllowedRun(states, fold, writes) && WellFormed(states[0], fold) && k < |states|
    ensures WellFormed(states[k], fold)
  {
    if k > 0 {
      RunKeepsSite(states, fold, writes, k - 1);
      WriteKeepsSite(states[k - 1], fold, writes[k - 1]);
    }
  }
}
