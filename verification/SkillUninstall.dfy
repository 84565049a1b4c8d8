/** The uninstall transaction (internal/agent/install.go): move every package
    out of discovery, clear the receipt, then delete or keep what was moved. */
module SkillUninstall {
  import opened Common
  import opened SkillDisk
  import opened SkillPlans
  import opened SkillInstall

  /** The disk and the plans while an uninstall moves packages. */
  ghost predicate Removing(
    trees: Trees, next: nat, plans: seq<Plan>, lock: Trees, base: Target, planned: seq<Plan>)
  {
    && |plans| == |planned|
    && (forall i | 0 <= i < |plans| :: plans[i] == planned[i].(stage := plans[i].stage))
    && InTransaction(trees, next, AsRemovals(plans), lock, base, AsRemovals(planned))
  }

  /** What planning always produces. */
  ghost predicate UninstallShape(planned: seq<Plan>) {
    && Planned(AsRemovals(planned))
    && forall i | 0 <= i < |planned| ::
         !planned[i].committed && planned[i].stage.None? && planned[i].backup.None?
           && planned[i].skill.sha == planned[i].before
  }

  /** The tree is the bundle, the receipt's own package, or a known legacy release. */
  predicate Discardable(
    path: Path, trees: Trees, receipt: Packages, target: Target, bundle: Bundle, known: set<(Name, Tree)>)
  {
    && path.Package? && path in trees
    && (|| trees[path] == bundle.Files(path.name)
        || (path.base == target && Registers(receipt, path.name, trees[path]))
        || (path.base == LEGACY_BASE && (path.name, trees[path]) in known))
  }

  lemma PlannedShape(target: Target, bundle: Bundle, known: set<(Name, Tree)>, trees: Trees, receipts: Receipts)
    ensures var plans := UninstallPlans(target, bundle, known, trees, receipts);
      && UninstallShape(plans) && |plans| >= 2
      && plans[0].skill.path == Package(target, Tadx) && plans[1].skill.path == Package(target, TadxPulse)
  {
  }

  lemma PlannedUninstall(target: Target, bundle: Bundle, known: set<(Name, Tree)>, trees: Trees, receipts: Receipts)
    ensures var plans := UninstallPlans(target, bundle, known, trees, receipts);
      && UninstallShape(plans) && |plans| >= 2
      && plans[0].skill.path == Package(target, Tadx) && plans[1].skill.path == Package(target, TadxPulse)
      && (forall i | 0 <= i < |plans| && plans[i].skill.status == Remove ::
            plans[i].before.Some? && Discardable(plans[i].skill.path, map[plans[i].skill.path := plans[i].before.value],
                                                 PackagesOf(receipts, target), target, bundle, known))
  {
    PlannedShape(target, bundle, known, trees, receipts);
  }

  /** A successful uninstall: every planned path is empty, the report is true,
      and every earlier tree still exists unless it could be discarded. */
  ghost predicate CompleteUninstall(
    trees: Trees, lock: Trees, target: Target, receipt: Packages, bundle: Bundle, known: set<(Name, Tree)>,
    planned: seq<Plan>, skills: seq<Skill>)
  {
    && (forall i | 0 <= i < |planned| :: At(trees, planned[i].skill.path).None?)
    && ReportsTruth(trees, lock, planned, skills)
    && (forall path | !OwnStage(path, target) ::
      Kept(trees, lock, path) || Discardable(path, lock, receipt, target, bundle, known))
    && Bystanders(trees, lock, target, planned)
  }

  lemma RemovalsVisible(planned: seq<Plan>)
    ensures |Visible(AsRemovals(planned))| == |Visible(planned)|
    ensures forall k | 0 <= k < |Visible(planned)| ::
      Visible(AsRemovals(planned))[k].skill.path == Visible(planned)[k].skill.path
  {
    VisibleSame(AsRemovals(planned), planned);
  }

  lemma PartialUninstall(
    trees: Trees, next: nat, lock: Trees, base: Target, plans: seq<Plan>, planned: seq<Plan>, skills: seq<Skill>)
    requires Removing(trees, next, plans, lock, base, planned) && UninstallShape(planned)
    requires ReportsTruth(trees, lock, plans, skills)
    ensures PartialRun(trees, lock, base, planned, skills)
  {
    RemovalsVisible(plans);
    PartialReport(trees, next, lock, base, AsRemovals(plans), AsRemovals(planned), skills);
    RemovalsVisible(planned);
  }

  /** Once every package has been moved out, planned paths are empty and what
      is gone for good could be discarded. */
  lemma RemovedPackages(
    trees: Trees, landed: Trees, next: nat, lock: Trees, target: Target,
    plans: seq<Plan>, planned: seq<Plan>)
    requires Removing(landed, next, plans, lock, target, planned) && UninstallShape(planned)
    requires forall i | 0 <= i < |plans| :: Landed(AsRemoval(plans[i]), AsRemoval(planned[i]))
    requires Dropping(trees, landed, AsRemovals(plans), |plans|)
    ensures forall i | 0 <= i < |planned| :: At(trees, planned[i].skill.path).None?
    ensures Bystanders(trees, lock, target, planned)
    ensures forall path | !OwnStage(path, target) ::
              || Kept(trees, lock, path)
              || exists i | 0 <= i < |planned| ::
                planned[i].skill.status == Remove && planned[i].skill.path == path
                && At(lock, path) == planned[i].before
  {
    var removals, removed := AsRemovals(planned), AsRemovals(plans);
    forall i | 0 <= i < |planned|
      ensures At(trees, planned[i].skill.path).None? && At(lock, planned[i].skill.path) == planned[i].before
    {
      DroppingSpares(trees, landed, lock, target, removed, i);
      assert Tracked(landed, lock, removed[i]);
    }
    forall path | !OwnStage(path, target)
      ensures Kept(trees, lock, path)
        || exists i | 0 <= i < |planned| ::
          planned[i].skill.status == Remove && planned[i].skill.path == path && At(lock, path) == planned[i].before
    {
      FinalKept(trees, landed, next, lock, target, removed, removals, path);
      if !Kept(trees, lock, path) {
        var i :| 0 <= i < |removals| && removals[i].skill.status == Remove && removals[i].skill.path == path;
        assert planned[i].skill.path == path;
      }
    }
    BystandersSpared(trees, landed, next, lock, target, removed, removals);
    SameBystanders(trees, lock, target, planned);
  }

  lemma CompleteRemoval(
    trees: Trees, landed: Trees, next: nat, lock: Trees, target: Target, bundle: Bundle, known: set<(Name, Tree)>,
    plans: seq<Plan>, planned: seq<Plan>, skills: seq<Skill>, trees0: Trees, receipts0: Receipts)
    requires planned == UninstallPlans(target, bundle, known, trees0, receipts0)
    requires Removing(landed, next, plans, lock, target, planned)
    requires forall i | 0 <= i < |plans| :: Landed(AsRemoval(plans[i]), AsRemoval(planned[i]))
    requires Dropping(trees, landed, AsRemovals(plans), |plans|) && FinalLines(AsRemovals(plans), skills)
    ensures CompleteUninstall(trees, lock, target, PackagesOf(receipts0, target), bundle, known, planned, skills)
  {
    PlannedUninstall(target, bundle, known, trees0, receipts0);
    FinalReport(trees, landed, next, lock, target, AsRemovals(plans), AsRemovals(planned), skills);
    RemovalsVisible(planned);
    RemovedPackages(trees, landed, next, lock, target, plans, planned);
    RemovedDiscardable(trees, lock, target, bundle, known, planned, trees0, receipts0);
  }

  /** The report of a finished uninstall says of each package whether the tree found under the locks was ours, and
      so deleted, or not, and so kept as a backup. */
  lemma {:induction false} UninstallTells(
    landed: Trees, next: nat, lock: Trees, target: Target, bundle: Bundle, known: set<(Name, Tree)>, plans: seq<Plan>,
    planned: seq<Plan>, skills: seq<Skill>, trees0: Trees, receipts0: Receipts)
    requires RemovalsPlanned(planned, target, bundle, known, trees0, receipts0)
    requires Removing(landed, next, plans, lock, target, planned)
    requires forall i | 0 <= i < |plans| :: Landed(AsRemoval(plans[i]), AsRemoval(planned[i]))
    requires FinalLines(AsRemovals(plans), skills)
    ensures ReportsRemovals(skills, target, bundle, known, trees0, receipts0, lock, Removed, BackedUp)
  {
    var paths, removals := Listed(target, trees0, receipts0), AsRemovals(plans);
    assert PlansFor(removals, target, trees0, receipts0) by {
      forall i | 0 <= i < |plans|
        ensures removals[i].skill.path == Looked(target, receipts0)[i]
        ensures removals[i].hidden <==> i >= 2 && Looked(target, receipts0)[i] !in trees0
      {
        assert plans[i] == planned[i].(stage := plans[i].stage);
      }
    }
    VisibleListed(removals, target, trees0, receipts0);
    forall k | 0 <= k < |skills|
      ensures RemovalTold(skills[k], paths[k], target, bundle, known, receipts0, At(lock, paths[k]), Removed, BackedUp)
    {
      var i := ListedPlan(removals, target, trees0, receipts0, k);
      PackageTells(landed, next, lock, target, bundle, known, plans, planned, trees0, receipts0, i, skills[k]);
    }
  }

  lemma {:induction false} PackageTells(
    landed: Trees, next: nat, lock: Trees, target: Target, bundle: Bundle, known: set<(Name, Tree)>, plans: seq<Plan>,
    planned: seq<Plan>, trees0: Trees, receipts0: Receipts, i: nat, line: Skill)
    requires RemovalsPlanned(planned, target, bundle, known, trees0, receipts0) && i < |planned|
    requires Removing(landed, next, plans, lock, target, planned)
    requires Landed(AsRemoval(plans[i]), AsRemoval(planned[i])) && FinalLine(AsRemoval(plans[i]), line)
    ensures var path := Looked(target, receipts0)[i];
      RemovalTold(line, path, target, bundle, known, receipts0, At(lock, path), Removed, BackedUp)
  {
    var path := Looked(target, receipts0)[i];
    assert PlansRemoval(planned[i], path, target, bundle, known, trees0, receipts0);
    assert Tracked(landed, lock, AsRemovals(plans)[i]) && plans[i] == planned[i].(stage := plans[i].stage);
    RemovedJudged(AsRemoval(plans[i]), AsRemoval(planned[i]), path,
      Ours(target, bundle, known, receipts0, path, planned[i].before), line);
  }

  /** What an uninstall deletes could be discarded. */
  lemma RemovedDiscardable(
    trees: Trees, lock: Trees, target: Target, bundle: Bundle, known: set<(Name, Tree)>, planned: seq<Plan>,
    trees0: Trees, receipts0: Receipts)
    requires planned == UninstallPlans(target, bundle, known, trees0, receipts0)
    requires forall path | !OwnStage(path, target) && !Kept(trees, lock, path) ::
      exists i | 0 <= i < |planned| ::
        planned[i].skill.status == Remove && planned[i].skill.path == path && At(lock, path) == planned[i].before
    ensures forall path | !OwnStage(path, target) ::
      Kept(trees, lock, path) || Discardable(path, lock, PackagesOf(receipts0, target), target, bundle, known)
  {
    PlannedUninstall(target, bundle, known, trees0, receipts0);
    forall path | !OwnStage(path, target) && !Kept(trees, lock, path)
      ensures Discardable(path, lock, PackagesOf(receipts0, target), target, bundle, known)
    {
      var i :| 0 <= i < |planned| && planned[i].skill.status == Remove && planned[i].skill.path == path
        && At(lock, path) == planned[i].before;
    }
  }

  lemma SameBystanders(trees: Trees, lock: Trees, base: Target, planned: seq<Plan>)
    requires Bystanders(trees, lock, base, AsRemovals(planned))
    ensures Bystanders(trees, lock, base, planned)
  {
  }

  /** Validated plans start the transaction. */
  lemma ValidatedRemoves(trees: Trees, next: nat, plans: seq<Plan>, lock: Trees, base: Target)
    requires UninstallShape(plans) && Restored(trees, lock, base) && NamesDrawn(trees, next) && NamesDrawn(lock, next)
    requires forall i | 0 <= i < |plans| :: At(trees, plans[i].skill.path) == plans[i].before
    ensures Removing(trees, next, plans, lock, base, plans)
  {
    var removals := AsRemovals(plans);
    forall i | 0 <= i < |removals|
      ensures Tracked(trees, lock, removals[i]) && Evolved(removals[i], removals[i], base)
    {
      assert Fresh(removals[i]) && !OwnStage(removals[i].skill.path, base);
    }
  }

  // ----- The run -----

  method PlanUninstall(run: Installer, target: Target) returns (ok: bool, receipt: Option<Packages>)
    modifies run`plans
    ensures ok ==> run.plans == UninstallPlans(target, run.bundle, run.known, run.disk.trees, run.disk.receipts)
    ensures ok ==> RemovalsPlanned(run.plans, target, run.bundle, run.known, run.disk.trees, run.disk.receipts)
    ensures ok ==> SameReceipt(run.disk.receipts, target, receipt)
    ensures run.disk.smooth && ReadableFor(target, run.disk.receipts) ==> ok
  {
    UninstallPlansMean(target, run.bundle, run.known, run.disk.trees, run.disk.receipts);
    run.plans := [];
    ok := run.disk.Step();
    var read := run.disk.ReadReceipt(target);
    if !ok || read.Err? {
      return false, None;
    }
    receipt := read.value;
    ghost var all := UninstallPlans(target, run.bundle, run.known, run.disk.trees, run.disk.receipts);
    for k := 0 to 2
      invariant run.plans == all[..k]
    {
      ok := run.disk.Step();
      var seen := run.disk.Inspect(Package(target, NAMES[k]));
      if !ok || seen.Err? {
        return false, None;
      }
      var packages := if receipt.Some? then receipt.value else map[];
      run.plans := run.plans + [UninstallPlan(target, NAMES[k], run.bundle.Files(NAMES[k]), seen.value, packages)];
    }
    if target.Codex? {
      ok := run.PlanLegacy();
      return ok, receipt;
    }
    return true, receipt;
  }

  /** Moves one package to the place found for it. */
  method MoveOut(
    run: Installer, base: Target, ghost lock: Trees, ghost planned: seq<Plan>, i: nat, place: Path, ghost next: nat)
      returns (ok: bool)
    requires Removing(run.disk.trees, next, run.plans, lock, base, planned) && UninstallShape(planned)
    requires i < |planned| && run.plans[i] == planned[i] && planned[i].before.Some?
    requires KeepsFor(place, planned[i].skill.path) && next <= place.id < run.disk.next
    requires run.disk.Valid()
    modifies run`plans, run.disk`trees, run.disk`renames
    ensures Removing(run.disk.trees, run.disk.next, run.plans, lock, base, planned)
    ensures run.plans == old(run.plans)[i := if ok then planned[i].(stage := Some(place)) else planned[i]]
    ensures run.disk.smooth ==> ok
  {
    var plan := run.plans[i];
    ghost var trees, removals := run.disk.trees, AsRemovals(run.plans);
    assert Fresh(AsRemovals(planned)[i]) && removals[i] == AsRemoval(plan);
    ok := run.disk.Rename(plan.skill.path, place);
    if !ok {
      assert PlansDrawn(removals, run.disk.next);
      return;
    }
    MoveAsideStep(trees, run.disk.trees, next, run.disk.next, removals, lock, base, AsRemovals(planned), i, place);
    run.plans := run.plans[i := plan.(stage := Some(place))];
    assert AsRemovals(run.plans) == removals[i := removals[i].(backup := Some(place))];
  }

  /** Moves the package of plan `i` out of discovery. */
  method RemovePackage(run: Installer, base: Target, ghost lock: Trees, ghost planned: seq<Plan>, i: nat)
      returns (ok: bool)
    requires Removing(run.disk.trees, run.disk.next, run.plans, lock, base, planned) && UninstallShape(planned)
      && i < |planned|
    requires run.plans[i] == planned[i]
    modifies run`plans, run.disk`trees, run.disk`next, run.disk`renames
    ensures Removing(run.disk.trees, run.disk.next, run.plans, lock, base, planned)
    ensures forall j | 0 <= j < |planned| && j != i :: run.plans[j] == old(run.plans[j])
    ensures ok ==> Landed(AsRemoval(run.plans[i]), AsRemoval(planned[i]))
    ensures run.disk.smooth ==> ok
  {
    var plan := run.plans[i];
    assert Fresh(AsRemovals(planned)[i]);
    if plan.before.None? {
      return true;
    }
    ok := run.disk.Step();
    if !ok {
      return;
    }
    ghost var next := run.disk.next;
    var place := run.RemovalDestination(plan);
    if place.None? {
      assert PlansDrawn(AsRemovals(run.plans), run.disk.next);
      return false;
    }
    ok := MoveOut(run, base, lock, planned, i, place.value, next);
    if !ok {
      return;
    }
    var seen := run.disk.Inspect(place.value);
    ok := seen == Ok(plan.before);
  }

  /** Moves one removed package back. */
  method RestoreOne(run: Installer, base: Target, ghost lock: Trees, ghost planned: seq<Plan>, index: nat)
      returns (ok: bool)
    requires Removing(run.disk.trees, run.disk.next, run.plans, lock, base, planned) && UninstallShape(planned)
    requires index < |run.plans| && run.plans[index].stage.Some?
    modifies run`plans, run.disk`trees, run.disk`renames
    ensures Removing(run.disk.trees, run.disk.next, run.plans, lock, base, planned)
    ensures |run.plans| == old(|run.plans|) && forall i | 0 <= i < |run.plans| && i != index ::
      run.plans[i] == old(run.plans[i])
    ensures ok ==> run.plans[index].stage.None?
  {
    var plan := run.plans[index];
    ghost var trees := run.disk.trees;
    ok := run.disk.Rename(plan.stage.value, plan.skill.path);
    if !ok {
      return;
    }
    ghost var removals := AsRemovals(run.plans);
    RestoreStep(trees, run.disk.trees, run.disk.next, removals, lock, base, AsRemovals(planned), index);
    run.plans := run.plans[index := plan.(stage := None)];
    assert AsRemovals(run.plans) == removals[index := removals[index].(backup := None)];
  }

  /** Puts every moved package back, newest plan first; stops if a move back fails. */
  method RestoreAll(run: Installer, base: Target, ghost lock: Trees, ghost planned: seq<Plan>) returns (complete: bool)
    requires Removing(run.disk.trees, run.disk.next, run.plans, lock, base, planned) && UninstallShape(planned)
    modifies run`plans, run.disk`trees, run.disk`renames
    ensures Removing(run.disk.trees, run.disk.next, run.plans, lock, base, planned)
    ensures complete ==> Restored(run.disk.trees, lock, base)
  {
    var index := |run.plans|;
    while index > 0
      invariant 0 <= index <= |run.plans| && Removing(run.disk.trees, run.disk.next, run.plans, lock, base, planned)
      invariant forall i | index <= i < |run.plans| :: run.plans[i].stage.None?
    {
      index := index - 1;
      if run.plans[index].stage.Some? {
        var ok := RestoreOne(run, base, lock, planned, index);
        if !ok {
          return false;
        }
      }
    }
    UntouchedRestores(run.disk.trees, lock, base, AsRemovals(run.plans));
    return true;
  }

  /** While packages move, each plan tells where its package is. */
  ghost predicate TracksRemoval(trees: Trees, lock: Trees, plan: Plan) {
    Tracked(trees, lock, AsRemoval(plan)) && !plan.committed && plan.skill.sha == plan.before
  }

  lemma RemovalsTracked(
    trees: Trees, next: nat, lock: Trees, base: Target, plans: seq<Plan>, planned: seq<Plan>)
    requires Removing(trees, next, plans, lock, base, planned) && UninstallShape(planned)
    ensures forall i | 0 <= i < |plans| :: TracksRemoval(trees, lock, plans[i])
  {
    var removals := AsRemovals(plans);
    forall i | 0 <= i < |plans|
      ensures TracksRemoval(trees, lock, plans[i])
    {
      assert removals[i] == AsRemoval(plans[i]) && Tracked(trees, lock, removals[i]);
    }
  }

  /** Where each visible package stands when a rollback stops early. */
  method RestoreStates(run: Installer, base: Target, ghost lock: Trees, ghost planned: seq<Plan>)
      returns (skills: seq<Skill>)
    requires Removing(run.disk.trees, run.disk.next, run.plans, lock, base, planned) && UninstallShape(planned)
    ensures PartialRun(run.disk.trees, lock, base, planned, skills)
  {
    skills := [];
    RemovalsTracked(run.disk.trees, run.disk.next, lock, base, run.plans, planned);
    for i := 0 to |run.plans|
      invariant ReportsTruth(run.disk.trees, lock, run.plans[..i], skills)
    {
      var line := UninstallRollbackState(run.plans[i]);
      UninstallRollbackStateTruthful(run.disk.trees, lock, run.plans[i]);
      ReportMore(run.disk.trees, lock, run.plans, i, skills, line);
      if !run.plans[i].hidden {
        skills := skills + [line];
      }
    }
    assert run.plans[..|run.plans|] == run.plans;
    PartialUninstall(run.disk.trees, run.disk.next, lock, base, run.plans, planned, skills);
  }

  /** Finishes plan `i`: keeps an edited package, deletes any other that was moved. */
  method FinishPackage(run: Installer, i: nat)
    requires run.disk.Valid() && i < |run.plans| && (run.plans[i].before.Some? ==> run.plans[i].stage.Some?)
    modifies run`plans, run.disk`trees
    ensures run.disk.Valid() && |run.plans| == old(|run.plans|)
    ensures forall j | 0 <= j < |run.plans| && j != i :: run.plans[j] == old(run.plans[j])
    ensures run.plans[i].hidden == old(run.plans[i].hidden)
    ensures FinalLine(AsRemoval(old(run.plans[i])), run.plans[i].skill)
    ensures forall path: Path | !(Drops(AsRemoval(old(run.plans[i]))) && Some(path) == old(run.plans[i].stage)) ::
              At(run.disk.trees, path) == At(old(run.disk.trees), path)
  {
    if run.plans[i].before.Some? {
      if run.plans[i].skill.status == Divergent {
        var plan := run.plans[i];
        run.plans :=
          run.plans[i := plan.(stage := None, skill := plan.skill.(status := BackedUp, backup := plan.stage))];
      } else {
        run.CleanupRemoval(i);
        run.plans := run.plans[i := run.plans[i].(stage := None, skill := run.plans[i].skill.(status := Removed))];
      }
    }
  }

  method FinishRemovals(run: Installer) returns (skills: seq<Skill>)
    requires run.disk.Valid()
    requires forall i | 0 <= i < |run.plans| && run.plans[i].before.Some? :: run.plans[i].stage.Some?
    modifies run`plans, run.disk`trees
    ensures run.disk.Valid()
    ensures Dropping(run.disk.trees, old(run.disk.trees), AsRemovals(old(run.plans)), |old(run.plans)|)
    ensures FinalLines(AsRemovals(old(run.plans)), skills)
  {
    skills := [];
    ghost var moved := run.plans;
    ghost var removals := AsRemovals(moved);
    for i := 0 to |run.plans|
      invariant run.disk.Valid() && |run.plans| == |moved|
      invariant Dropping(run.disk.trees, old(run.disk.trees), removals, i)
      invariant forall j | i <= j < |run.plans| :: run.plans[j] == moved[j]
      invariant FinalLines(removals[..i], skills)
    {
      FinishPackage(run, i);
      ghost var reported := skills;
      if !run.plans[i].hidden {
        skills := skills + [run.plans[i].skill];
      }
      FinalLinesMore(removals, i, run.plans[i].skill, reported, skills);
    }
    assert removals[..|removals|] == removals;
  }

  /** Finishes an uninstall whose packages have all been moved out. */
  method FinishUninstall(
    run: Installer, target: Target, ghost lock: Trees, ghost planned: seq<Plan>, ghost trees0: Trees,
    ghost receipts0: Receipts)
    returns (skills: seq<Skill>)
    requires planned == UninstallPlans(target, run.bundle, run.known, trees0, receipts0)
    requires Removing(run.disk.trees, run.disk.next, run.plans, lock, target, planned)
    requires forall i | 0 <= i < |planned| :: Landed(AsRemoval(run.plans[i]), AsRemoval(planned[i]))
    modifies run`plans, run.disk`trees
    ensures run.disk.Valid()
    ensures CompleteUninstall(
      run.disk.trees, lock, target, PackagesOf(receipts0, target), run.bundle, run.known, planned, skills)
    ensures ReportsRemovals(skills, target, run.bundle, run.known, trees0, receipts0, lock, Removed, BackedUp)
  {
    ghost var landed, moved := run.disk.trees, run.plans;
    assert forall i | 0 <= i < |moved| :: Landed(AsRemoval(moved[i]), AsRemoval(planned[i]));
    skills := FinishRemovals(run);
    CompleteRemoval(run.disk.trees, landed, run.disk.next, lock, target, run.bundle, run.known, moved, planned,
      skills, trees0, receipts0);
    UninstallPlansMean(target, run.bundle, run.known, trees0, receipts0);
    UninstallTells(
      landed, run.disk.next, lock, target, run.bundle, run.known, moved, planned, skills, trees0, receipts0);
  }

  /** Moves every package out. */
  method RemovePackages(run: Installer, target: Target, ghost lock: Trees, ghost planned: seq<Plan>)
      returns (committed: bool)
    requires Removing(run.disk.trees, run.disk.next, run.plans, lock, target, planned) && UninstallShape(planned)
    requires run.plans == planned
    modifies run`plans, run.disk
    ensures Removing(run.disk.trees, run.disk.next, run.plans, lock, target, planned)
    ensures run.disk.receipts == old(run.disk.receipts)
    ensures committed ==> forall i | 0 <= i < |planned| :: Landed(AsRemoval(run.plans[i]), AsRemoval(planned[i]))
    ensures run.disk.smooth ==> committed
  {
    for i := 0 to |run.plans|
      invariant run.disk.receipts == old(run.disk.receipts)
      invariant Removing(run.disk.trees, run.disk.next, run.plans, lock, target, planned)
      invariant forall j | 0 <= j < i :: Landed(AsRemoval(run.plans[j]), AsRemoval(planned[j]))
      invariant forall j | i <= j < |planned| :: run.plans[j] == planned[j]
    {
      committed := RemovePackage(run, target, lock, planned, i);
      if !committed {
        return;
      }
    }
    committed := true;
  }

  /** Moves every package out, then clears the receipt; undoes every move on a failure. */
  method RemoveOrRestore(
    run: Installer, target: Target, receipt: Option<Packages>, ghost lock: Trees, ghost planned: seq<Plan>)
    returns (committed: bool, complete: bool)
    requires Removing(run.disk.trees, run.disk.next, run.plans, lock, target, planned) && UninstallShape(planned)
    requires run.plans == planned && (receipt.Some? <==> target in run.disk.receipts)
    modifies run`plans, run.disk
    ensures Removing(run.disk.trees, run.disk.next, run.plans, lock, target, planned)
    ensures committed ==> forall i | 0 <= i < |planned| :: Landed(AsRemoval(run.plans[i]), AsRemoval(planned[i]))
    ensures committed ==> run.disk.receipts == Cleared(old(run.disk.receipts), target)
    ensures !committed ==> run.disk.receipts == old(run.disk.receipts)
    ensures !committed && complete ==> Restored(run.disk.trees, lock, target)
    ensures run.disk.smooth ==> committed
  {
    complete := true;
    committed := RemovePackages(run, target, lock, planned);
    if committed && receipt.Some? {
      committed := run.disk.WriteReceipt(target, map[]);
    }
    if !committed {
      complete := RestoreAll(run, target, lock, planned);
    }
  }

  /** An existing receipt now registers nothing; an absent one stays absent. */
  function Cleared(receipts: Receipts, target: Target): Receipts {
    if target in receipts then receipts[target := Receipt(map[])] else receipts
  }

  /** Cleans up after interrupted runs, and checks that planning is still current. */
  method StillCurrent(run: Installer, target: Target, receipt: Option<Packages>) returns (ok: bool)
    requires run.disk.Valid() && UninstallShape(run.plans)
    modifies run.disk`trees
    ensures run.disk.Valid() && Restored(run.disk.trees, old(run.disk.trees), target)
    ensures ok ==>
      Removing(run.disk.trees, run.disk.next, run.plans, old(run.disk.trees), target, run.plans)
    ensures ok ==> SameReceipt(run.disk.receipts, target, receipt)
    ensures ok && (exists i | 0 <= i < |run.plans| :: run.plans[i].remove) ==>
      !Registered(run.disk.receipts, LEGACY_BASE)
    ensures run.disk.smooth && Current(old(run.disk.trees), run.disk.receipts, run.plans, target, receipt) ==> ok
  {
    ghost var lock := run.disk.trees;
    run.RemoveAbandonedStages(target);
    RestoredAsPlanned(run.disk.trees, lock, target, run.plans);
    ok := run.LegacyOwnershipUnchanged();
    if !ok {
      return;
    }
    ok := run.ReceiptUnchanged(target, receipt);
    if !ok {
      return;
    }
    ok := run.ValidateAll();
    if ok {
      ValidatedRemoves(run.disk.trees, run.disk.next, run.plans, lock, target);
    }
  }

  lemma RestoredAsPlanned(trees: Trees, lock: Trees, base: Target, plans: seq<Plan>)
    requires Restored(trees, lock, base) && UninstallShape(plans)
    ensures AsPlanned(lock, plans) ==> AsPlanned(trees, plans)
  {
    forall i | 0 <= i < |plans|
      ensures At(trees, plans[i].skill.path) == At(lock, plans[i].skill.path)
    {
      assert Fresh(AsRemovals(plans)[i]) && !OwnStage(plans[i].skill.path, base);
    }
  }

  /** The whole transaction, from the moment the locks are held. */
  method TransactRemoval(
    run: Installer, target: Target, receipt: Option<Packages>, ghost trees0: Trees, ghost receipts0: Receipts)
    returns (out: Outcome)
    requires run.disk.Valid() && run.plans == UninstallPlans(target, run.bundle, run.known, trees0, receipts0)
    modifies run`plans, run.disk
    ensures run.disk.Valid()
    ensures !out.Done? ==> run.disk.receipts == old(run.disk.receipts)
    ensures out.Failed? ==> Restored(run.disk.trees, old(run.disk.trees), target)
    ensures out.Partial? ==> PartialRun(run.disk.trees, old(run.disk.trees), target, old(run.plans), out.skills)
    ensures out.Done? ==>
      out.status == PackagesUninstalled && run.disk.receipts == Cleared(old(run.disk.receipts), target)
    ensures out.Done? ==>
      CompleteUninstall(
        run.disk.trees, old(run.disk.trees), target, PackagesOf(receipts0, target), run.bundle, run.known,
        old(run.plans), out.skills)
    ensures out.Done? ==>
      ReportsRemovals(
        out.skills, target, run.bundle, run.known, trees0, receipts0, old(run.disk.trees), Removed, BackedUp)
    ensures
      (exists i | 0 <= i < |old(run.plans)| :: old(run.plans)[i].remove)
        && Registered(old(run.disk.receipts), LEGACY_BASE)
      ==> out.Failed? && run.disk.renames == old(run.disk.renames)
    ensures run.disk.smooth && Current(old(run.disk.trees), old(run.disk.receipts), old(run.plans), target, receipt)
      ==> out.Done?
  {
    ghost var lock, planned := run.disk.trees, run.plans;
    PlannedUninstall(target, run.bundle, run.known, trees0, receipts0);
    var ok := StillCurrent(run, target, receipt);
    if !ok {
      return Failed;
    }
    var committed, complete := RemoveOrRestore(run, target, receipt, lock, planned);
    if committed {
      var skills := FinishUninstall(run, target, lock, planned, trees0, receipts0);
      return Done(PackagesUninstalled, skills);
    }
    if complete {
      return Failed;
    }
    var skills := RestoreStates(run, target, lock, planned);
    return Partial(skills);
  }

  /** Where nothing is installed, the report lists nothing but absent packages. */
  lemma {:induction false} NothingTold(
    skills: seq<Skill>, target: Target, bundle: Bundle, known: set<(Name, Tree)>, trees: Trees, receipts: Receipts)
    requires NothingInstalled(target, trees, receipts)
    requires ReportsRemovals(skills, target, bundle, known, trees, receipts, trees, Remove, Divergent)
    ensures ReportsRemovals(skills, target, bundle, known, trees, receipts, trees, Removed, BackedUp)
  {
    var paths := Listed(target, trees, receipts);
    forall k | 0 <= k < |skills|
      ensures RemovalTold(skills[k], paths[k], target, bundle, known, receipts, At(trees, paths[k]), Removed, BackedUp)
    {
      assert RemovalTold(
        skills[k], paths[k], target, bundle, known, receipts, At(trees, paths[k]), Remove, Divergent);
      assert paths[k].name in {Tadx, TadxPulse} && At(trees, paths[k]).None?;
    }
  }

  /** The part of an uninstall under the locks. */
  method LockAndRemove(
    run: Installer, target: Target, receipt: Option<Packages>, ghost trees0: Trees, ghost receipts0: Receipts)
    returns (out: Outcome, ghost locked: Trees, ghost lockedReceipts: Receipts)
    requires run.disk.Valid() && run.plans == UninstallPlans(target, run.bundle, run.known, trees0, receipts0)
    modifies run`plans, run.disk
    ensures run.disk.Valid()
    ensures run.disk.quiet ==> locked == old(run.disk.trees) && lockedReceipts == old(run.disk.receipts)
    ensures !out.Done? ==> run.disk.receipts == lockedReceipts
    ensures out.Failed? ==> Restored(run.disk.trees, locked, target)
    ensures out.Partial? ==> PartialRun(run.disk.trees, locked, target, old(run.plans), out.skills)
    ensures out.Done? ==>
      out.status == PackagesUninstalled && run.disk.receipts == Cleared(lockedReceipts, target)
    ensures out.Done? ==>
      CompleteUninstall(
        run.disk.trees, locked, target, PackagesOf(receipts0, target), run.bundle, run.known, old(run.plans),
        out.skills)
    ensures out.Done? ==>
      ReportsRemovals(out.skills, target, run.bundle, run.known, trees0, receipts0, locked, Removed, BackedUp)
    ensures run.disk.smooth && Current(locked, lockedReceipts, old(run.plans), target, receipt) ==> out.Done?
  {
    var ok := run.disk.AcquireLocks(target);
    locked, lockedReceipts := run.disk.trees, run.disk.receipts;
    if !ok {
      return Failed, locked, lockedReceipts;
    }
    out := TransactRemoval(run, target, receipt, trees0, receipts0);
  }

  /** Plans, locks and runs one uninstall. */
  method Uninstall(run: Installer, target: Target, preview: bool)
      returns (out: Outcome, ghost locked: Trees, ghost lockedReceipts: Receipts)
    requires run.disk.Valid()
    modifies run`plans, run.disk
    ensures run.disk.Valid()
    ensures run.disk.quiet ==> locked == old(run.disk.trees) && lockedReceipts == old(run.disk.receipts)
    ensures preview ==> run.disk.trees == old(run.disk.trees) && run.disk.receipts == old(run.disk.receipts)
    ensures preview ==> out == Failed || out == Done(Preview,
              VisibleSkills(UninstallPlans(target, run.bundle, run.known, old(run.disk.trees), old(run.disk.receipts))))
    ensures preview && out.Done? ==>
              ReportsRemovals(
                out.skills, target, run.bundle, run.known, old(run.disk.trees), old(run.disk.receipts),
                old(run.disk.trees), Remove, Divergent)
    ensures !preview && out.Done? ==>
              ReportsRemovals(
                out.skills, target, run.bundle, run.known, old(run.disk.trees), old(run.disk.receipts), locked, Removed,
                BackedUp)
    ensures !preview && !out.Done? ==> run.disk.receipts == lockedReceipts
    ensures !preview && out.Failed? ==> Restored(run.disk.trees, locked, target)
    ensures !preview && out.Partial? ==>
              PartialRun(run.disk.trees, locked, target,
                UninstallPlans(target, run.bundle, run.known, old(run.disk.trees), old(run.disk.receipts)), out.skills)
    ensures !preview && out.Done? && !NothingInstalled(target, old(run.disk.trees), old(run.disk.receipts)) ==>
              && out.status == PackagesUninstalled
              && run.disk.receipts == Cleared(lockedReceipts, target)
              && CompleteUninstall(
                run.disk.trees, locked, target, PackagesOf(old(run.disk.receipts), target), run.bundle, run.known,
                UninstallPlans(target, run.bundle, run.known, old(run.disk.trees), old(run.disk.receipts)), out.skills)
    ensures !preview && out.Done? && NothingInstalled(target, old(run.disk.trees), old(run.disk.receipts)) ==>
              out == Done(NothingToDo, VisibleSkills(
                UninstallPlans(target, run.bundle, run.known, old(run.disk.trees), old(run.disk.receipts))))
              && run.disk.trees == old(run.disk.trees) && run.disk.receipts == old(run.disk.receipts)
    ensures !preview && out.Done? && run.disk.quiet ==>
              (Registered(run.disk.receipts, target) <==>
                Registered(old(run.disk.receipts), target)
                && NothingInstalled(target, old(run.disk.trees), old(run.disk.receipts)))
    ensures run.disk.smooth && ReadableFor(target, old(run.disk.receipts)) && (preview || run.disk.quiet) ==>
              out.Done?
  {
    locked, lockedReceipts := run.disk.trees, run.disk.receipts;
    ghost var trees0, receipts0 := run.disk.trees, run.disk.receipts;
    var early, receipt := BeforeLocks(run, target, preview);
    if early.Some? {
      return early.value, locked, lockedReceipts;
    }
    if ReadableFor(target, run.disk.receipts) {
      PlannedCurrent(target, run.bundle, run.known, trees0, receipts0, receipt);
    }
    out, locked, lockedReceipts := LockAndRemove(run, target, receipt, trees0, receipts0);
  }

  /** What was just planned is current. */
  lemma PlannedCurrent(
    target: Target, bundle: Bundle, known: set<(Name, Tree)>, trees: Trees, receipts: Receipts,
    receipt: Option<Packages>)
    requires SameReceipt(receipts, target, receipt) && ReadableFor(target, receipts)
    ensures Current(trees, receipts, UninstallPlans(target, bundle, known, trees, receipts), target, receipt)
  {
    UninstallPlansMean(target, bundle, known, trees, receipts);
    var plans, paths := UninstallPlans(target, bundle, known, trees, receipts), Looked(target, receipts);
    forall i | 0 <= i < |plans|
      ensures At(trees, plans[i].skill.path) == plans[i].before
    {
      assert PlansRemoval(plans[i], paths[i], target, bundle, known, trees, receipts);
    }
  }

  /** What an uninstall answers before it takes any lock: a failed plan, a preview, or that there is nothing to do. */
  ghost predicate Early(
    out: Outcome, preview: bool, target: Target, bundle: Bundle, known: set<(Name, Tree)>, trees: Trees,
    receipts: Receipts)
  {
    var skills := VisibleSkills(UninstallPlans(target, bundle, known, trees, receipts));
    || out == Failed
    || (preview && out == Done(Preview, skills)
        && ReportsRemovals(skills, target, bundle, known, trees, receipts, trees, Remove, Divergent))
    || (!preview && NothingInstalled(target, trees, receipts) && out == Done(NothingToDo, skills)
        && ReportsRemovals(skills, target, bundle, known, trees, receipts, trees, Removed, BackedUp))
  }

  /** Planning, and the answers that need no lock. */
  method BeforeLocks(run: Installer, target: Target, preview: bool)
      returns (early: Option<Outcome>, receipt: Option<Packages>)
    modifies run`plans
    ensures early.Some? ==>
      Early(early.value, preview, target, run.bundle, run.known, run.disk.trees, run.disk.receipts)
    ensures early.None? ==>
      && !preview && !NothingInstalled(target, run.disk.trees, run.disk.receipts)
      && run.plans == UninstallPlans(target, run.bundle, run.known, run.disk.trees, run.disk.receipts)
      && SameReceipt(run.disk.receipts, target, receipt)
    ensures early == Some(Failed) ==> !(run.disk.smooth && ReadableFor(target, run.disk.receipts))
  {
    ghost var trees0, receipts0 := run.disk.trees, run.disk.receipts;
    var ok;
    ok, receipt := PlanUninstall(run, target);
    if !ok {
      return Some(Failed), receipt;
    }
    var skills := run.ShowSkills();
    PreviewedRemovals(target, run.bundle, run.known, trees0, receipts0);
    if preview {
      return Some(Done(Preview, skills)), receipt;
    }
    NothingPlanned(target, run.bundle, run.known, trees0, receipts0);
    var changed := exists i | 0 <= i < |run.plans| :: run.plans[i].before.Some?;
    if !changed {
      NothingTold(skills, target, run.bundle, run.known, trees0, receipts0);
      return Some(Done(NothingToDo, skills)), receipt;
    }
    return None, receipt;
  }

  /** No package an uninstall would remove is present. */
  predicate NothingInstalled(target: Target, trees: Trees, receipts: Receipts) {
    && (forall name <- {Tadx, TadxPulse} :: Package(target, name) !in trees)
    && (target.Codex? && !Registered(receipts, LEGACY_BASE) ==> forall name <- {Tadx, TadxPulse} ::
      Package(LEGACY_BASE, name) !in trees)
  }

  /** A receipt can outlive its packages: here both packages are gone, an
      uninstall has nothing to do, and the receipt still registers one. */
  lemma OrphanReceiptSurvives()
    ensures var receipts := map[Claude := Receipt(map[Tadx := map[]])];
      NothingInstalled(Claude, map[], receipts) && Registered(receipts, Claude)
        && !Registered(Cleared(receipts, Claude), Claude)
  {
    assert Tadx in PackagesOf(map[Claude := Receipt(map[Tadx := map[]])], Claude);
  }

  lemma NothingPlanned(target: Target, bundle: Bundle, known: set<(Name, Tree)>, trees: Trees, receipts: Receipts)
    ensures var plans := UninstallPlans(target, bundle, known, trees, receipts);
      NothingInstalled(target, trees, receipts) <==> forall i | 0 <= i < |plans| :: plans[i].before.None?
  {
    var plans := UninstallPlans(target, bundle, known, trees, receipts);
    assert plans[0].before == At(trees, Package(target, Tadx))
      && plans[1].before == At(trees, Package(target, TadxPulse));
    if |plans| > 2 {
      assert plans[2].before == At(trees, Package(LEGACY_BASE, Tadx))
        && plans[3].before == At(trees, Package(LEGACY_BASE, TadxPulse));
    }
  }
}
