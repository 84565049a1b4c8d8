/** Installs and uninstalls of any number of processes, interleaved step by step
    (internal/agent/legacy.go, internal/agent/install.go). A process may stop at
    any point; stopping only frees its locks. */
module SkillLocks {
  import opened SkillDisk

  type Pid = nat

  datatype Operation = Installing | Uninstalling

  /** A package directory: its skill root and its name. */
  type Slot = (Target, Name)

  /** How far a run has come. The two lock phases of a root are: look whether the
      root exists, then take its lock. */
  datatype Phase =
    | Planning
    | LookBase | OpenBase
    | LookLegacy | OpenLegacy
    | ListStages | DropStages(listed: set<nat>)
    | CheckOwner
    | MakeStages
    | Move
    | Finished

  /** One run. `before` holds the packages planning saw; `legacy` says whether
      planning found the portable root unregistered. */
  datatype Proc = Proc(op: Operation, target: Target, legacy: bool, before: set<Slot>, phase: Phase, held: set<Target>,
    stages: set<nat>) {

    /** Past the lock of its own root. */
    predicate PastBase() {
      phase.LookLegacy? || phase.OpenLegacy? || PastLocks()
    }

    /** Past every lock. */
    predicate PastLocks() {
      phase.ListStages? || phase.DropStages? || phase.CheckOwner? || PastOwner()
    }

    /** Past the ownership check. */
    predicate PastOwner() {
      phase.MakeStages? || phase.Move?
    }

    predicate PastPlanning() {
      phase.LookBase? || phase.OpenBase? || PastBase()
    }

    predicate InScope(slot: Slot) {
      slot.0 == target || (legacy && slot.0 == LEGACY_BASE)
    }

    /** Holds its locks and may move packages of this root. */
    predicate Operates(root: Target) {
      PastLocks() && ((op.Installing? && root == target) || exists slot <- before :: slot.0 == root)
    }
  }

  /** `roots` are the skill roots that exist, `made` the root of every stage ever
      made, `stages` those still on disk. */
  datatype State = State(
    roots: set<Target>, locks: map<Target, Pid>, present: set<Slot>, registered: set<Target>,
    made: map<nat, Target>, stages: set<nat>, procs: map<Pid, Proc>)

  datatype Action =
    | Start(op: Operation, target: Target)
    | ReadLegacyReceipt
    | ReadPackage(slot: Slot)
    | FinishPlanning
    | Look
    | Acquire
    | ReadStages
    | DropStage(stage: nat)
    | FinishDropping
    | CheckOwnership
    | MakeStage(stage: nat)
    | StartMoving
    | MoveOut(slot: Slot)
    | Restore(slot: Slot)
    | Commit(name: Name, stage: nat)
    | Withdraw(name: Name, stage: nat)
    | WriteReceipt
    | DeleteStage(stage: nat)
    | Return
    | Stop

  // ----- Steps -----

  predicate Enabled(s: State, pid: Pid, a: Action) {
    if a.Start? then pid !in s.procs
    else if pid !in s.procs then false
    else
      var p := s.procs[pid];
      match a
      case Start(_, _) => false
      case ReadLegacyReceipt => p.phase.Planning? && p.target.Codex? && forall slot <- p.before :: slot.0 == p.target
      case ReadPackage(slot) => p.phase.Planning? && p.InScope(slot)
      case FinishPlanning => p.phase.Planning?
      case Look => p.phase.LookBase? || p.phase.LookLegacy?
      case Acquire => p.phase.OpenBase? || p.phase.OpenLegacy?
      case ReadStages => p.phase.ListStages?
      case DropStage(stage) => p.phase.DropStages? && stage in p.phase.listed && stage in s.stages
      case FinishDropping => p.phase.DropStages?
      case CheckOwnership => p.phase.CheckOwner?
      case MakeStage(stage) => p.phase.MakeStages? && p.op.Installing? && stage !in s.made
      case StartMoving => p.phase.MakeStages?
      case MoveOut(slot) => p.phase.Move? && slot in p.before && slot in s.present
      case Restore(slot) => p.phase.Move? && slot in p.before && slot !in s.present
      case Commit(name, stage) => p.phase.Move? && stage in p.stages && stage in s.stages
        && (p.target, name) !in s.present
      case Withdraw(name, stage) => p.phase.Move? && stage in p.stages && stage !in s.stages
        && (p.target, name) in s.present
      case WriteReceipt => p.phase.Move?
      case DeleteStage(stage) => p.PastOwner() && stage in p.stages
      case Return => !p.phase.Finished?
      case Stop => true
  }

  function Free(locks: map<Target, Pid>, pid: Pid): map<Target, Pid> {
    map root | root in locks && locks[root] != pid :: locks[root]
  }

  /** A run returns: the deferred unlock frees everything it holds. */
  function Returned(s: State, pid: Pid): State
    requires pid in s.procs
  {
    s.(locks := Free(s.locks, pid),
       procs := s.procs[pid := s.procs[pid].(phase := Finished, held := {}, stages := {})])
  }

  /** The phase after the lock phases of the run's own root. */
  function AfterBase(p: Proc): Phase {
    if p.target.Codex? then LookLegacy else ListStages
  }

  function Apply(s: State, pid: Pid, a: Action): State
    requires Enabled(s, pid, a)
  {
    if a.Start? then s.(procs := s.procs[pid := Proc(a.op, a.target, false, {}, Planning, {}, {})])
    else
      var p := s.procs[pid];
      match a
      case Start(_, _) => s
      case ReadLegacyReceipt => s.(procs := s.procs[pid := p.(legacy := LEGACY_BASE !in s.registered)])
      case ReadPackage(slot) =>
        s.(procs := s.procs[pid := p.(before := if slot in s.present then p.before + {slot} else p.before - {slot})])
      case FinishPlanning =>
        if p.op.Uninstalling? && p.before == {} then Returned(s, pid)
        else
          var roots := if p.op.Installing? then s.roots + {p.target} else s.roots;
          s.(roots := roots, procs := s.procs[pid := p.(phase := LookBase)])
      case Look =>
        var root := if p.phase.LookBase? then p.target else LEGACY_BASE;
        var next :=
          if root in s.roots then (if p.phase.LookBase? then OpenBase else OpenLegacy)
          else if p.phase.LookBase? then AfterBase(p) else ListStages;
        s.(procs := s.procs[pid := p.(phase := next)])
      case Acquire =>
        var root := if p.phase.OpenBase? then p.target else LEGACY_BASE;
        if root in s.locks then Returned(s, pid)
        else
          var next := if p.phase.OpenBase? then AfterBase(p) else ListStages;
          s.(locks := s.locks[root := pid], procs := s.procs[pid := p.(held := p.held + {root}, phase := next)])
      case ReadStages =>
        var found := set stage | stage in s.stages && stage in s.made && s.made[stage] == p.target;
        s.(procs := s.procs[pid := p.(phase := DropStages(found))])
      case DropStage(stage) => s.(stages := s.stages - {stage})
      case FinishDropping => s.(procs := s.procs[pid := p.(phase := CheckOwner)])
      case CheckOwnership =>
        if p.legacy && LEGACY_BASE in s.registered then Returned(s, pid)
        else s.(procs := s.procs[pid := p.(phase := MakeStages)])
      case MakeStage(stage) =>
        s.(made := s.made[stage := p.target], stages := s.stages + {stage},
          procs := s.procs[pid := p.(stages := p.stages + {stage})])
      case StartMoving => s.(procs := s.procs[pid := p.(phase := Move)])
      case MoveOut(slot) => s.(present := s.present - {slot})
      case Restore(slot) => s.(present := s.present + {slot})
      case Commit(name, stage) => s.(present := s.present + {(p.target, name)}, stages := s.stages - {stage})
      case Withdraw(name, stage) => s.(present := s.present - {(p.target, name)}, stages := s.stages + {stage})
      case WriteReceipt =>
        s.(registered := if p.op.Installing? then s.registered + {p.target} else s.registered - {p.target})
      case DeleteStage(stage) => s.(stages := s.stages - {stage})
      case Return => Returned(s, pid)
      case Stop => s.(locks := Free(s.locks, pid), procs := s.procs - {pid})
  }

  // ----- Runs -----

  /** Before any run: packages only in roots that exist, nothing locked. */
  ghost predicate Initial(s: State) {
    && s.procs == map[] && s.locks == map[]
    && (forall slot <- s.present :: slot.0 in s.roots)
    && (forall stage <- s.stages :: stage in s.made)
  }

  /** A schedule runs its steps in order; a step that is not enabled is skipped. */
  function Run(s: State, schedule: seq<(Pid, Action)>): State {
    if schedule == [] then s
    else
      var before := Run(s, schedule[..|schedule| - 1]);
      var (pid, a) := schedule[|schedule| - 1];
      if Enabled(before, pid, a) then Apply(before, pid, a) else before
  }

  /** A step that moves packages of `root`. */
  predicate Moves(p: Proc, a: Action, root: Target) {
    match a
    case MoveOut(slot) => slot.0 == root
    case Restore(slot) => slot.0 == root
    case Commit(_, _) => p.target == root
    case Withdraw(_, _) => p.target == root
    case _ => false
  }

  /** What no step of any run may break. */
  ghost predicate SafeStep(s: State, pid: Pid, a: Action)
    requires pid in s.procs
  {
    var p := s.procs[pid];
    // One run at a time moves packages of a root, and it holds the root's lock.
    && (forall root | Moves(p, a, root) ::
          && root in s.locks && s.locks[root] == pid
          && forall other <- s.procs.Keys :: other != pid ==> !s.procs[other].Operates(root))
    // Cleanup deletes no stage of a run that is still going.
    && (a.DropStage? ==> forall other <- s.procs.Keys :: a.stage !in s.procs[other].stages)
    // A registered portable installation is never moved away by a Codex run.
    && (a.MoveOut? && p.target.Codex? && a.slot.0 == LEGACY_BASE ==> LEGACY_BASE !in s.registered)
  }

  // ----- The invariant -----

  ghost predicate LocksAgree(s: State) {
    && (forall root <- s.locks.Keys :: s.locks[root] in s.procs && root in s.procs[s.locks[root]].held)
    && (forall pid <- s.procs.Keys, root: Target ::
      root in s.procs[pid].held ==> root in s.locks && s.locks[root] == pid)
  }

  /** What holds of one run by itself. */
  ghost predicate ProcOk(s: State, p: Proc) {
    && (p.legacy ==> p.target.Codex?)
    && (forall slot <- p.before :: p.InScope(slot) && slot.0 in s.roots)
    && (p.PastPlanning() ==> (p.op.Installing? ==> p.target in s.roots) && (p.op.Uninstalling? ==> p.before != {}))
    // A root without its lock was absent, so nothing planned lies in it.
    && (p.PastBase() && p.target !in p.held ==> p.op.Uninstalling? && forall slot <- p.before :: slot.0 != p.target)
    && (p.PastLocks() && p.target.Codex? && LEGACY_BASE !in p.held ==> forall slot <- p.before :: slot.0 != LEGACY_BASE)
    && (p.PastOwner() && p.legacy && LEGACY_BASE in p.held ==> LEGACY_BASE !in s.registered)
    && (p.stages != {} ==> p.op.Installing? && p.PastOwner())
    && (forall stage <- p.stages :: stage in s.made && s.made[stage] == p.target)
    && (p.phase.DropStages? ==> forall stage <- p.phase.listed :: stage in s.made && s.made[stage] == p.target)
  }

  /** A Codex uninstall that found no Codex root and a Codex install that found no
      portable root cannot both be under way: the first saw a portable package. */
  ghost predicate CodexPair(p: Proc, q: Proc) {
    p.target.Codex? && p.PastBase() && p.target !in p.held && q.op.Installing? && q.target.Codex? && q.PastLocks() ==>
      LEGACY_BASE in q.held
  }

  ghost predicate Inv(s: State) {
    && LocksAgree(s)
    && (forall slot <- s.present :: slot.0 in s.roots)
    && (forall stage <- s.stages :: stage in s.made)
    && (forall pid <- s.procs.Keys :: ProcOk(s, s.procs[pid]))
    && (forall pid <- s.procs.Keys, other <- s.procs.Keys :: CodexPair(s.procs[pid], s.procs[other]))
  }

  /** A run that may move packages of a root holds the root's lock. */
  lemma OperatesHolds(s: State, pid: Pid, root: Target)
    requires Inv(s) && pid in s.procs && s.procs[pid].Operates(root)
    ensures root in s.locks && s.locks[root] == pid
  {
    var p := s.procs[pid];
    assert ProcOk(s, p);
    if !(p.op.Installing? && root == p.target) {
      var slot :| slot in p.before && slot.0 == root;
      assert p.InScope(slot);
    }
  }

  /** Cleanup and staging of one root exclude each other. */
  lemma CleanupAlone(s: State, pid: Pid, other: Pid, stage: nat)
    requires Inv(s) && pid in s.procs && other in s.procs
    requires s.procs[pid].phase.DropStages? && stage in s.procs[pid].phase.listed
    ensures stage !in s.procs[other].stages
  {
    var p, q := s.procs[pid], s.procs[other];
    assert ProcOk(s, p) && ProcOk(s, q);
    if stage in q.stages {
      assert q.target == p.target && q.op.Installing? && q.PastOwner() && pid != other;
      OperatesHolds(s, other, q.target);
      if p.target in p.held {
        assert false;
      } else {
        var slot :| slot in p.before;
        assert p.InScope(slot) && slot.0 == LEGACY_BASE && p.target.Codex?;
        OperatesHolds(s, pid, LEGACY_BASE);
        assert false;
      }
    }
  }

  /** Under the invariant every enabled step is safe. */
  lemma InvSafe(s: State, pid: Pid, a: Action)
    requires Inv(s) && pid in s.procs && Enabled(s, pid, a)
    ensures SafeStep(s, pid, a)
  {
    var p := s.procs[pid];
    assert ProcOk(s, p);
    forall root | Moves(p, a, root)
      ensures root in s.locks && s.locks[root] == pid
      ensures forall other <- s.procs.Keys :: other != pid ==> !s.procs[other].Operates(root)
    {
      assert p.Operates(root);
      OperatesHolds(s, pid, root);
      forall other <- s.procs.Keys | other != pid
        ensures !s.procs[other].Operates(root)
      {
        if s.procs[other].Operates(root) {
          OperatesHolds(s, other, root);
        }
      }
    }
    if a.DropStage? {
      forall other <- s.procs.Keys
        ensures a.stage !in s.procs[other].stages
      {
        CleanupAlone(s, pid, other, a.stage);
      }
    }
    if a.MoveOut? && p.target.Codex? && a.slot.0 == LEGACY_BASE {
      OperatesHolds(s, pid, LEGACY_BASE);
      assert p.InScope(a.slot) && p.legacy;
    }
  }

  // ----- Every step keeps the invariant -----

  lemma InitialInv(s: State)
    requires Initial(s)
    ensures Inv(s)
  {
  }

  /** What other runs and the shared state may see of a step: roots only appear,
      stage names are never reused, and a registration appears only in a root
      whose lock the stepping run holds. */
  ghost predicate Mild(s: State, t: State, pid: Pid) {
    && s.roots <= t.roots
    && (forall stage <- s.made.Keys :: stage in t.made && t.made[stage] == s.made[stage])
    && (forall slot <- t.present :: slot.0 in t.roots)
    && (forall stage <- t.stages :: stage in t.made)
    && (forall root <- t.registered :: root in s.registered || (root in s.locks && s.locks[root] == pid))
    && (forall other <- t.procs.Keys :: other != pid ==> other in s.procs && t.procs[other] == s.procs[other])
    && (forall other <- s.procs.Keys :: other != pid ==> other in t.procs)
  }

  /** A step that is mild, keeps the locks consistent and leaves its own run in
      order keeps the invariant. */
  lemma MildStep(s: State, t: State, pid: Pid)
    requires Inv(s) && Mild(s, t, pid) && LocksAgree(t)
    requires pid in t.procs ==> ProcOk(t, t.procs[pid])
    requires pid in t.procs ==> forall other <- t.procs.Keys ::
      CodexPair(t.procs[pid], t.procs[other]) && CodexPair(t.procs[other], t.procs[pid])
    ensures Inv(t)
  {
    forall other <- t.procs.Keys | other != pid
      ensures ProcOk(t, t.procs[other])
    {
      var q := t.procs[other];
      assert ProcOk(s, q);
      if q.PastOwner() && q.legacy && LEGACY_BASE in q.held {
        assert s.locks[LEGACY_BASE] == other;
      }
    }
    forall one <- t.procs.Keys, two <- t.procs.Keys
      ensures CodexPair(t.procs[one], t.procs[two])
    {
      if one != pid && two != pid {
        assert CodexPair(s.procs[one], s.procs[two]);
      }
    }
  }

  /** Pairs stay in order when a run changes neither its phase nor its locks. */
  lemma SamePairs(s: State, t: State, pid: Pid)
    requires Inv(s) && Mild(s, t, pid) && pid in s.procs && pid in t.procs
    requires var p, q := s.procs[pid], t.procs[pid];
      p.target == q.target && p.op == q.op && p.held == q.held && p.PastBase() == q.PastBase()
        && p.PastLocks() == q.PastLocks()
    ensures forall other <- t.procs.Keys ::
      CodexPair(t.procs[pid], t.procs[other]) && CodexPair(t.procs[other], t.procs[pid])
  {
    forall other <- t.procs.Keys
      ensures CodexPair(t.procs[pid], t.procs[other]) && CodexPair(t.procs[other], t.procs[pid])
    {
      assert CodexPair(s.procs[pid], s.procs[other]) && CodexPair(s.procs[other], s.procs[pid]);
    }
  }

  /** A step that changes only its own run, leaving it with the same locks and as far along. */
  lemma QuietStep(s: State, t: State, pid: Pid, q: Proc)
    requires Inv(s) && pid in s.procs && t.procs == s.procs[pid := q] && t.locks == s.locks && s.roots <= t.roots
    requires forall stage <- s.made.Keys :: stage in t.made && t.made[stage] == s.made[stage]
    requires forall slot <- t.present :: slot.0 in t.roots
    requires forall stage <- t.stages :: stage in t.made
    requires forall root <- t.registered :: root in s.registered || (root in s.locks && s.locks[root] == pid)
    requires ProcOk(t, q)
    requires var p := s.procs[pid];
      p.target == q.target && p.op == q.op && p.held == q.held && p.PastBase() == q.PastBase()
        && p.PastLocks() == q.PastLocks()
    ensures Inv(t)
  {
    SamePairs(s, t, pid);
    MildStep(s, t, pid);
  }

  lemma ReturnedInv(s: State, pid: Pid)
    requires Inv(s) && pid in s.procs
    ensures Inv(Returned(s, pid))
  {
    var t := Returned(s, pid);
    assert ProcOk(s, s.procs[pid]);
    MildStep(s, t, pid);
  }

  lemma StopInv(s: State, pid: Pid)
    requires Inv(s) && pid in s.procs
    ensures Inv(Apply(s, pid, Stop))
  {
    MildStep(s, Apply(s, pid, Stop), pid);
  }

  lemma StartInv(s: State, pid: Pid, a: Action)
    requires Inv(s) && Enabled(s, pid, a) && a.Start?
    ensures Inv(Apply(s, pid, a))
  {
    MildStep(s, Apply(s, pid, a), pid);
  }

  lemma ReadInv(s: State, pid: Pid, a: Action)
    requires Inv(s) && Enabled(s, pid, a) && (a.ReadLegacyReceipt? || a.ReadPackage?)
    ensures Inv(Apply(s, pid, a))
  {
    var p, t := s.procs[pid], Apply(s, pid, a);
    var q := t.procs[pid];
    assert ProcOk(s, p);
    forall slot <- q.before
      ensures q.InScope(slot) && slot.0 in t.roots
    {
      assert slot in p.before || (a.ReadPackage? && slot == a.slot);
    }
    QuietStep(s, t, pid, q);
  }

  lemma FinishPlanningInv(s: State, pid: Pid)
    requires Inv(s) && Enabled(s, pid, FinishPlanning)
    ensures Inv(Apply(s, pid, FinishPlanning))
  {
    var p := s.procs[pid];
    assert ProcOk(s, p);
    if p.op.Uninstalling? && p.before == {} {
      ReturnedInv(s, pid);
    } else {
      var t := Apply(s, pid, FinishPlanning);
      QuietStep(s, t, pid, t.procs[pid]);
    }
  }

  /** A Codex run that skipped its own root planned to remove a portable package,
      so the portable root exists. */
  lemma SkippedSawLegacy(s: State, r: Proc)
    requires ProcOk(s, r) && r.target.Codex? && r.PastBase() && r.target !in r.held
    ensures LEGACY_BASE in s.roots
  {
    var slot :| slot in r.before;
    assert r.InScope(slot);
  }

  /** Looking for a root: it is absent and skipped, or its lock is tried next. */
  lemma LookInv(s: State, pid: Pid)
    requires Inv(s) && Enabled(s, pid, Look)
    ensures Inv(Apply(s, pid, Look))
  {
    var t := Apply(s, pid, Look);
    assert ProcOk(s, s.procs[pid]);
    LookPairs(s, t, pid);
    PhaseOnly(s, t, pid, t.procs[pid]);
  }

  /** A step that changes only its own run's phase. */
  lemma PhaseOnly(s: State, t: State, pid: Pid, q: Proc)
    requires Inv(s) && pid in s.procs && q == s.procs[pid].(phase := q.phase) && t == s.(procs := s.procs[pid := q])
    requires ProcOk(t, q)
    requires forall other <- t.procs.Keys :: CodexPair(q, t.procs[other]) && CodexPair(t.procs[other], q)
    ensures Inv(t)
  {
    MildStep(s, t, pid);
  }

  /** A root is found absent only while no run skipped it for a package it saw there. */
  lemma LookPairs(s: State, t: State, pid: Pid)
    requires Inv(s) && Enabled(s, pid, Look) && t == Apply(s, pid, Look)
    ensures forall other <- t.procs.Keys ::
      CodexPair(t.procs[pid], t.procs[other]) && CodexPair(t.procs[other], t.procs[pid])
  {
    var p, q := s.procs[pid], t.procs[pid];
    assert ProcOk(s, p);
    forall other <- t.procs.Keys
      ensures CodexPair(q, t.procs[other]) && CodexPair(t.procs[other], q)
    {
      var r := t.procs[other];
      if other != pid {
        assert ProcOk(s, r);
        assert CodexPair(p, r) && CodexPair(r, p);
        if r.target.Codex? && r.PastBase() && r.target !in r.held {
          SkippedSawLegacy(s, r);
        }
      }
    }
  }

  lemma AcquireInv(s: State, pid: Pid)
    requires Inv(s) && Enabled(s, pid, Acquire)
    ensures Inv(Apply(s, pid, Acquire))
  {
    var p := s.procs[pid];
    var root := if p.phase.OpenBase? then p.target else LEGACY_BASE;
    assert ProcOk(s, p);
    if root in s.locks {
      ReturnedInv(s, pid);
    } else {
      AcquiredInv(s, pid);
    }
  }

  /** The root whose lock the run tries next. */
  function NextRoot(p: Proc): Target {
    if p.phase.OpenBase? then p.target else LEGACY_BASE
  }

  /** The lock was free and now belongs to this run alone. */
  lemma AcquiredLocks(s: State, pid: Pid)
    requires Inv(s) && Enabled(s, pid, Acquire) && NextRoot(s.procs[pid]) !in s.locks
    ensures LocksAgree(Apply(s, pid, Acquire))
  {
    var t := Apply(s, pid, Acquire);
    forall root <- t.locks.Keys
      ensures t.locks[root] in t.procs && root in t.procs[t.locks[root]].held
    {
      if root in s.locks {
        assert s.locks[root] in s.procs && root in s.procs[s.locks[root]].held;
      }
    }
    forall other <- t.procs.Keys, root: Target | root in t.procs[other].held
      ensures root in t.locks && t.locks[root] == other
    {
      if root in s.procs[other].held {
        assert root in s.locks && s.locks[root] == other;
      }
    }
  }

  lemma AcquiredInv(s: State, pid: Pid)
    requires Inv(s) && Enabled(s, pid, Acquire) && NextRoot(s.procs[pid]) !in s.locks
    ensures Inv(Apply(s, pid, Acquire))
  {
    var t := Apply(s, pid, Acquire);
    AcquiredLocks(s, pid);
    assert ProcOk(s, s.procs[pid]);
    assert ProcOk(t, t.procs[pid]);
    AcquiredPairs(s, t, pid);
    MildStep(s, t, pid);
  }

  /** Taking a lock never leaves a run without one it had to take. */
  lemma AcquiredPairs(s: State, t: State, pid: Pid)
    requires Inv(s) && Enabled(s, pid, Acquire) && t == Apply(s, pid, Acquire)
    requires NextRoot(s.procs[pid]) !in s.locks
    ensures forall other <- t.procs.Keys ::
      CodexPair(t.procs[pid], t.procs[other]) && CodexPair(t.procs[other], t.procs[pid])
  {
    forall other <- t.procs.Keys
      ensures CodexPair(t.procs[pid], t.procs[other]) && CodexPair(t.procs[other], t.procs[pid])
    {
      assert CodexPair(s.procs[pid], s.procs[other]) && CodexPair(s.procs[other], s.procs[pid]);
    }
  }

  /** Steps under the locks that change neither phase nor package. */
  lemma StagesInv(s: State, pid: Pid, a: Action)
    requires Inv(s) && Enabled(s, pid, a) && (a.DropStage? || a.DeleteStage? || a.MakeStage?)
    ensures Inv(Apply(s, pid, a))
  {
    assert ProcOk(s, s.procs[pid]);
    var t := Apply(s, pid, a);
    QuietStep(s, t, pid, t.procs[pid]);
  }

  lemma PhaseStep(s: State, pid: Pid, q: Proc)
    requires Inv(s) && pid in s.procs && q == s.procs[pid].(phase := q.phase) && ProcOk(s, q)
    requires q.PastBase() == s.procs[pid].PastBase() && q.PastLocks() == s.procs[pid].PastLocks()
    ensures Inv(s.(procs := s.procs[pid := q]))
  {
    var t := s.(procs := s.procs[pid := q]);
    QuietStep(s, t, pid, q);
  }

  /** Steps under the locks that only move the run to its next phase. */
  lemma PhaseInv(s: State, pid: Pid, a: Action)
    requires Inv(s) && Enabled(s, pid, a)
    requires a.ReadStages? || a.FinishDropping? || a.StartMoving? || a.CheckOwnership?
    ensures Inv(Apply(s, pid, a))
  {
    var p := s.procs[pid];
    assert ProcOk(s, p);
    if a.CheckOwnership? {
      CheckOwnershipInv(s, pid);
    } else {
      PhaseStep(s, pid, Apply(s, pid, a).procs[pid]);
    }
  }

  lemma CheckOwnershipInv(s: State, pid: Pid)
    requires Inv(s) && Enabled(s, pid, CheckOwnership)
    ensures Inv(Apply(s, pid, CheckOwnership))
  {
    var p := s.procs[pid];
    assert ProcOk(s, p);
    if p.legacy && LEGACY_BASE in s.registered {
      ReturnedInv(s, pid);
    } else {
      PhaseStep(s, pid, Apply(s, pid, CheckOwnership).procs[pid]);
    }
  }

  /** A step that moves packages between places, and changes no run. */
  lemma PlacesInv(s: State, t: State, pid: Pid)
    requires Inv(s) && pid in s.procs && t == s.(present := t.present, stages := t.stages)
    requires forall slot <- t.present :: slot.0 in s.roots
    requires forall stage <- t.stages :: stage in s.made
    ensures Inv(t)
  {
    assert ProcOk(s, s.procs[pid]) && ProcOk(t, s.procs[pid]);
    assert t.procs == s.procs[pid := s.procs[pid]];
    QuietStep(s, t, pid, s.procs[pid]);
  }

  lemma MoveInv(s: State, pid: Pid, a: Action)
    requires Inv(s) && Enabled(s, pid, a)
    requires a.MoveOut? || a.Restore? || a.Commit? || a.Withdraw?
    ensures Inv(Apply(s, pid, a))
  {
    assert ProcOk(s, s.procs[pid]);
    PlacesInv(s, Apply(s, pid, a), pid);
  }

  lemma ReceiptInv(s: State, pid: Pid)
    requires Inv(s) && Enabled(s, pid, WriteReceipt)
    ensures Inv(Apply(s, pid, WriteReceipt))
  {
    var p := s.procs[pid];
    assert ProcOk(s, p);
    if p.op.Installing? {
      OperatesHolds(s, pid, p.target);
    }
    var t := Apply(s, pid, WriteReceipt);
    QuietStep(s, t, pid, t.procs[pid]);
  }

  lemma StepInv(s: State, pid: Pid, a: Action)
    requires Inv(s) && Enabled(s, pid, a)
    ensures Inv(Apply(s, pid, a))
  {
    match a
    case Start(_, _) => StartInv(s, pid, a);
    case ReadLegacyReceipt => ReadInv(s, pid, a);
    case ReadPackage(_) => ReadInv(s, pid, a);
    case FinishPlanning => FinishPlanningInv(s, pid);
    case Look => LookInv(s, pid);
    case Acquire => AcquireInv(s, pid);
    case Return => ReturnedInv(s, pid);
    case Stop => StopInv(s, pid);
    case MoveOut(_) => MoveInv(s, pid, a);
    case Restore(_) => MoveInv(s, pid, a);
    case Commit(_, _) => MoveInv(s, pid, a);
    case Withdraw(_, _) => MoveInv(s, pid, a);
    case WriteReceipt => ReceiptInv(s, pid);
    case DropStage(_) => StagesInv(s, pid, a);
    case DeleteStage(_) => StagesInv(s, pid, a);
    case MakeStage(_) => StagesInv(s, pid, a);
    case _ => PhaseInv(s, pid, a);
  }

  lemma {:induction false} RunInv(s: State, schedule: seq<(Pid, Action)>)
    requires Initial(s)
    ensures Inv(Run(s, schedule))
  {
    if schedule == [] {
      InitialInv(s);
    } else {
      var n := |schedule| - 1;
      RunInv(s, schedule[..n]);
      if Enabled(Run(s, schedule[..n]), schedule[n].0, schedule[n].1) {
        StepInv(Run(s, schedule[..n]), schedule[n].0, schedule[n].1);
      }
    }
  }

  /** Every step that any schedule of any number of runs can take is safe. */
  lemma {:induction false} EveryScheduleSafe(s: State, schedule: seq<(Pid, Action)>, pid: Pid, a: Action)
    requires Initial(s)
    requires Enabled(Run(s, schedule), pid, a) && pid in Run(s, schedule).procs
    ensures SafeStep(Run(s, schedule), pid, a)
  {
    RunInv(s, schedule);
    InvSafe(Run(s, schedule), pid, a);
  }

  // ----- That runs get through -----

  lemma OneMore(s: State, schedule: seq<(Pid, Action)>, pid: Pid, a: Action) returns (more: seq<(Pid, Action)>)
    requires Enabled(Run(s, schedule), pid, a)
    ensures Run(s, more) == Apply(Run(s, schedule), pid, a)
  {
    more := schedule + [(pid, a)];
    assert more[..|schedule|] == schedule;
  }

  /** An install of `target` in this phase that holds exactly these locks, alone on its site. */
  ghost predicate Alone(s: State, start: State, pid: Pid, target: Target, phase: Phase, held: set<Target>) {
    && s.procs.Keys == {pid} && s.locks.Keys == held && (forall root <- held :: s.locks[root] == pid)
    && s.registered == start.registered && s.roots == start.roots + {target}
    && var p := s.procs[pid];
      && p.phase == phase && p.held == held && p.op.Installing? && p.target == target
      && (p.legacy <==> target.Codex? && LEGACY_BASE !in start.registered)
  }

  lemma PlansAlone(start: State, pid: Pid, target: Target) returns (schedule: seq<(Pid, Action)>)
    requires Initial(start)
    ensures Alone(Run(start, schedule), start, pid, target, LookBase, {})
  {
    schedule := OneMore(start, [], pid, Start(Installing, target));
    if target.Codex? {
      schedule := OneMore(start, schedule, pid, ReadLegacyReceipt);
    }
    schedule := OneMore(start, schedule, pid, FinishPlanning);
  }

  /** The phase that an existing root leads to. */
  function Opened(phase: Phase): Phase {
    if phase.LookBase? then OpenBase else OpenLegacy
  }

  /** Nobody else holds the lock of the root found last. */
  lemma TakesAlone(s: State, start: State, pid: Pid, target: Target, phase: Phase, held: set<Target>, root: Target)
    requires (phase.LookBase? && root == target) || (phase.LookLegacy? && root == LEGACY_BASE && target.Codex?)
    requires Alone(s, start, pid, target, Opened(phase), held) && root !in held
    ensures Enabled(s, pid, Acquire)
    ensures Alone(Apply(s, pid, Acquire), start, pid, target,
      if phase.LookBase? && target.Codex? then LookLegacy else ListStages, held + {root})
  {
    var t := Apply(s, pid, Acquire);
    assert t.locks == s.locks[root := pid];
  }

  /** A lock phase of a run without rivals. */
  lemma LocksAlone(
    start: State, before: seq<(Pid, Action)>, pid: Pid, target: Target, phase: Phase, held: set<Target>, root: Target)
      returns (schedule: seq<(Pid, Action)>)
    requires Alone(Run(start, before), start, pid, target, phase, held)
    requires (phase.LookBase? && root == target) || (phase.LookLegacy? && root == LEGACY_BASE && target.Codex?)
    requires root !in held
    ensures Alone(Run(start, schedule), start, pid, target,
      if phase.LookBase? && target.Codex? then LookLegacy else ListStages,
      held + if root == target || root in start.roots then {root} else {})
  {
    schedule := OneMore(start, before, pid, Look);
    if root == target || root in start.roots {
      TakesAlone(Run(start, schedule), start, pid, target, phase, held, root);
      schedule := OneMore(start, schedule, pid, Acquire);
    } else {
      assert held + {} == held;
    }
  }

  /** From the locks to the first move. */
  lemma MovesAlone(start: State, before: seq<(Pid, Action)>, pid: Pid, target: Target, held: set<Target>)
      returns (schedule: seq<(Pid, Action)>)
    requires Alone(Run(start, before), start, pid, target, ListStages, held)
    ensures Alone(Run(start, schedule), start, pid, target, Move, held)
  {
    schedule := OneMore(start, before, pid, ReadStages);
    schedule := OneMore(start, schedule, pid, FinishDropping);
    schedule := OneMore(start, schedule, pid, CheckOwnership);
    schedule := OneMore(start, schedule, pid, StartMoving);
  }

  /** An install without rivals takes its locks, for Codex that of the portable root too if there is one, and gets to
      move packages. */
  lemma AloneInstallMoves(start: State, pid: Pid, target: Target) returns (schedule: seq<(Pid, Action)>)
    requires Initial(start)
    ensures Alone(Run(start, schedule), start, pid, target, Move,
      {target} + if target.Codex? && LEGACY_BASE in start.roots then {LEGACY_BASE} else {})
  {
    schedule := PlansAlone(start, pid, target);
    schedule := LocksAlone(start, schedule, pid, target, LookBase, {}, target);
    if target.Codex? {
      schedule := LocksAlone(start, schedule, pid, target, LookLegacy, {target}, LEGACY_BASE);
      schedule := MovesAlone(start, schedule, pid, target,
        {target} + if LEGACY_BASE in start.roots then {LEGACY_BASE} else {});
    } else {
      schedule := MovesAlone(start, schedule, pid, target, {target});
    }
  }

  /** A run that stops leaves no lock behind. */
  lemma {:induction false} StopFreesLocks(s: State, schedule: seq<(Pid, Action)>, pid: Pid)
    requires Initial(s) && pid in Run(s, schedule).procs
    ensures var after := Run(s, schedule + [(pid, Stop)]);
      pid !in after.procs && forall root <- after.locks.Keys :: after.locks[root] in after.procs
  {
    var whole := schedule + [(pid, Stop)];
    assert whole[..|whole| - 1] == schedule;
    RunInv(s, whole);
  }
}
