/** The install transaction (internal/agent/install.go): stage, validate, back
    up, commit, write the receipt, and roll everything back on any failure. */
module SkillInstall {
  import opened Common
  import opened SkillDisk
  import opened SkillPlans

  datatype RunStatus = Preview | NothingToDo | PackagesInstalled | PackagesUninstalled

  /** A run reports an error alone, an error with the state a stopped rollback
      left behind, or success. */
  datatype Outcome = Failed | Partial(skills: seq<Skill>) | Done(status: RunStatus, skills: seq<Skill>)

  predicate NeedsStage(plan: Plan) {
    plan.skill.status != Unchanged && !plan.remove
  }

  /** A plan as planning leaves it. */
  ghost predicate Fresh(plan: Plan) {
    && plan.skill.path.Package? && plan.skill.path.name == plan.skill.name && plan.stage.None? && plan.backup.None?
    && !plan.committed
    && plan.skill.backup.None?
    && (plan.remove ==> plan.skill.sha == plan.before && plan.skill.status in {Absent, Remove, Divergent})
    && (plan.hidden ==> plan.remove && plan.before.None?)
    && (plan.remove ==> (plan.skill.status == Absent <==> plan.before.None?))
    && (!plan.remove ==> plan.skill.sha == Some(plan.files))
    && (!plan.remove ==> plan.skill.status in {Install, Unchanged, Upgrade, Replace})
    && (!plan.remove ==> (plan.skill.status == Unchanged <==> plan.before == Some(plan.files)))
  }

  /** A planned list: fresh plans for distinct package directories. */
  ghost predicate Planned(plans: seq<Plan>) {
    && (forall i | 0 <= i < |plans| :: Fresh(plans[i]))
    && (forall i, j | 0 <= i < |plans| && 0 <= j < |plans| && i != j :: plans[i].skill.path != plans[j].skill.path)
  }

  /** What a transaction may have changed in a plan so far. */
  ghost predicate Evolved(plan: Plan, planned: Plan, base: Target) {
    && plan == planned.(stage := plan.stage, backup := plan.backup, committed := plan.committed,
                        skill := planned.skill.(status := plan.skill.status, backup := plan.skill.backup))
    && Labelled(plan)
    && (plan.stage.Some? ==> OwnStage(plan.stage.value, base))
    && (plan.remove ==> !plan.committed && plan.stage.None?)
    && (plan.remove || plan.skill.status == Unchanged ==> plan.skill == planned.skill)
  }

  /** A plan whose package has not moved yet. */
  ghost predicate Waiting(plan: Plan, planned: Plan) {
    plan == planned.(stage := plan.stage) && (plan.stage.Some? <==> NeedsStage(planned))
  }

  /** A plan whose package is where a complete install wants it. */
  ghost predicate Landed(plan: Plan, planned: Plan) {
    if NeedsStage(planned) then plan.committed
    else (
      && !plan.committed && plan.skill == planned.skill
      && (plan.backup.Some? <==> planned.remove && planned.before.Some?))
  }

  /** The disk and the plans while the first `made` packages are staged. */
  ghost predicate PartlyStaged(
    trees: Trees, next: nat, plans: seq<Plan>, lock: Trees, base: Target, planned: seq<Plan>, made: nat)
  {
    && NamesDrawn(trees, next) && NamesDrawn(lock, next) && PlansDrawn(plans, next)
    && |plans| == |planned| && made <= |plans|
    && Restored(trees, lock, base)
    && (forall i | 0 <= i < |plans| :: plans[i] == planned[i].(stage := plans[i].stage))
    && (forall i | 0 <= i < |plans| && plans[i].stage.Some? ::
      OwnStage(plans[i].stage.value, base) && NeedsStage(planned[i]))
    && (forall i | 0 <= i < made && NeedsStage(planned[i]) ::
          plans[i].stage.Some? && At(trees, plans[i].stage.value) == Some(planned[i].files))
    && (forall i, j | 0 <= i < |plans| && 0 <= j < |plans| && i != j && plans[i].stage.Some? ::
      plans[j].stage != plans[i].stage)
  }

  /** The disk and the plans while packages move: every plan still describes
      its planned package, and together they describe the whole disk. */
  ghost predicate InTransaction(
    trees: Trees, next: nat, plans: seq<Plan>, lock: Trees, base: Target, planned: seq<Plan>)
  {
    && NamesDrawn(trees, next) && NamesDrawn(lock, next) && PlansDrawn(plans, next)
    && |plans| == |planned|
    && (forall i | 0 <= i < |plans| :: Evolved(plans[i], planned[i], base))
    && Follows(trees, lock, base, plans)
  }

  /** One more package is staged under a name nobody has drawn before. */
  lemma StageStep(
    trees: Trees, trees': Trees, next: nat, next': nat, plans: seq<Plan>,
    lock: Trees, base: Target, planned: seq<Plan>, i: nat, id: nat, ok: bool)
    requires PartlyStaged(trees, next, plans, lock, base, planned, i)
    requires i < |plans| && NeedsStage(planned[i]) && plans[i].stage.None?
    requires id == next && next' == next + 1 && NamesDrawn(trees', next')
    requires forall path: Path | path != Stage(base, id) :: At(trees', path) == At(trees, path)
    requires ok ==> At(trees', Stage(base, id)) == Some(planned[i].files)
    ensures PartlyStaged(trees', next', plans[i := plans[i].(stage := Some(Stage(base, id)))], lock, base, planned,
      if ok then i + 1 else i)
  {
    var plans' := plans[i := plans[i].(stage := Some(Stage(base, id)))];
    forall j | 0 <= j < |plans| && j != i
      ensures plans'[j] == plans[j] && plans'[j].stage != Some(Stage(base, id))
      ensures plans'[j].stage.Some? ==> At(trees', plans'[j].stage.value) == At(trees, plans'[j].stage.value)
    {
      if plans[j].stage.Some? {
        assert OwnStage(plans[j].stage.value, base);
      }
    }
  }

  lemma NothingStaged(trees: Trees, next: nat, plans: seq<Plan>, lock: Trees, base: Target)
    requires Planned(plans) && NamesDrawn(trees, next) && NamesDrawn(lock, next) && Restored(trees, lock, base)
    ensures PartlyStaged(trees, next, plans, lock, base, plans, 0)
    ensures forall i | 0 <= i < |plans| :: plans[i].stage.None?
  {
    assert forall i | 0 <= i < |plans| :: Fresh(plans[i]);
  }

  lemma NoStageNeeded(
    trees: Trees, next: nat, plans: seq<Plan>, lock: Trees, base: Target, planned: seq<Plan>, i: nat)
    requires PartlyStaged(trees, next, plans, lock, base, planned, i) && i < |plans|
    ensures NeedsStage(plans[i]) <==> NeedsStage(planned[i])
    ensures !NeedsStage(planned[i]) ==> PartlyStaged(trees, next, plans, lock, base, planned, i + 1)
  {
    assert plans[i] == planned[i].(stage := plans[i].stage);
  }

  lemma FewerStaged(
    trees: Trees, next: nat, plans: seq<Plan>, lock: Trees, base: Target, planned: seq<Plan>, i: nat)
    requires PartlyStaged(trees, next, plans, lock, base, planned, i)
    ensures PartlyStaged(trees, next, plans, lock, base, planned, 0)
  {
  }

  /** A validated, fully staged list starts the transaction. */
  lemma StagedRuns(trees: Trees, next: nat, plans: seq<Plan>, lock: Trees, base: Target, planned: seq<Plan>)
    requires Planned(planned) && PartlyStaged(trees, next, plans, lock, base, planned, |planned|)
    requires forall i | 0 <= i < |plans| :: At(trees, plans[i].skill.path) == plans[i].before
    ensures InTransaction(trees, next, plans, lock, base, planned)
    ensures AllWaiting(plans, planned)
  {
    forall i | 0 <= i < |plans|
      ensures Tracked(trees, lock, plans[i]) && Evolved(plans[i], planned[i], base) && Waiting(plans[i], planned[i])
    {
      assert Fresh(planned[i]);
      assert !OwnStage(plans[i].skill.path, base);
    }
    forall i, j | 0 <= i < |plans| && 0 <= j < |plans| && i != j
      ensures Owned(plans[i]) !! Owned(plans[j])
    {
      assert Fresh(planned[i]) && Fresh(planned[j]);
    }
  }

  /** What one successful rename does to the disk. */
  ghost predicate Renamed(trees: Trees, trees': Trees, from: Path, to: Path) {
    && from in trees && to !in trees && from !in trees' && At(trees', to) == At(trees, from)
    && forall path: Path | path != from && path != to :: At(trees', path) == At(trees, path)
  }

  lemma RenamedNames(trees: Trees, trees': Trees, from: Path, to: Path, next: nat)
    requires NamesDrawn(trees, next) && Renamed(trees, trees', from, to) && (to.Package? || to.id < next)
    ensures NamesDrawn(trees', next)
  {
    forall path | path in trees'
      ensures path.Package? || path.id < next
    {
      if path != from && path != to {
        assert At(trees', path) == At(trees, path);
      }
    }
  }

  /** A place with a name nobody has drawn yet belongs to no plan and to no directory. */
  lemma FreshPlace(
    trees: Trees, next: nat, plans: seq<Plan>, lock: Trees, base: Target, planned: seq<Plan>, place: Path)
    requires InTransaction(trees, next, plans, lock, base, planned)
    requires !place.Package? && place.id >= next
    ensures place !in lock && place !in trees
    ensures forall j | 0 <= j < |plans| :: place !in Owned(plans[j])
  {
    forall j | 0 <= j < |plans|
      ensures place !in Owned(plans[j])
    {
      assert Tracked(trees, lock, plans[j]);
    }
  }

  /** Moving a plan's package to a fresh place keeps the transaction. */
  lemma MoveAsideStep(
    trees: Trees, trees': Trees, next: nat, next': nat, plans: seq<Plan>,
    lock: Trees, base: Target, planned: seq<Plan>, i: nat, place: Path)
    requires InTransaction(trees, next, plans, lock, base, planned) && i < |plans|
    requires !plans[i].committed && plans[i].backup.None? && plans[i].before.Some?
    requires KeepsFor(place, plans[i].skill.path) && next <= place.id < next'
    requires Renamed(trees, trees', plans[i].skill.path, place)
    ensures InTransaction(trees', next', plans[i := plans[i].(backup := Some(place))], lock, base, planned)
  {
    var plan := plans[i].(backup := Some(place));
    FreshPlace(trees, next, plans, lock, base, planned, place);
    assert Follows(trees', lock, base, plans[i := plan]) by {
      assert Tracked(trees, lock, plans[i]);
      assert Owned(plan) - Owned(plans[i]) == {place};
      assert Owned(plans[i]) - Owned(plan) == {};
      StepFollows(trees, trees', lock, base, plans, i, plan);
    }
    RenamedNames(trees, trees', plan.skill.path, place, next');
  }

  /** Moving a staged package into its empty destination keeps the transaction. */
  lemma CommitStep(
    trees: Trees, trees': Trees, next: nat, plans: seq<Plan>,
    lock: Trees, base: Target, planned: seq<Plan>, i: nat, plan: Plan)
    requires InTransaction(trees, next, plans, lock, base, planned) && i < |plans|
    requires !plans[i].committed && plans[i].stage.Some? && !plans[i].remove && plans[i].skill.status != Unchanged
    requires plans[i].backup.Some? <==> plans[i].before.Some?
    requires plans[i].skill.sha == Some(plans[i].files) && plans[i].skill.backup.None?
    requires Renamed(trees, trees', plans[i].stage.value, plans[i].skill.path)
    requires plan == Committed(plans[i])
    ensures InTransaction(trees', next, plans[i := plan], lock, base, planned)
  {
    assert Tracked(trees, lock, plans[i]);
    assert Owned(plan) == Owned(plans[i]);
    RenamedNames(trees, trees', plan.stage.value, plan.skill.path, next);
    StepFollows(trees, trees', lock, base, plans, i, plan);
  }

  /** Moving a committed package back into its stage keeps the transaction. */
  lemma WithdrawStep(
    trees: Trees, trees': Trees, next: nat, plans: seq<Plan>,
    lock: Trees, base: Target, planned: seq<Plan>, i: nat)
    requires InTransaction(trees, next, plans, lock, base, planned) && i < |plans|
    requires plans[i].committed && Renamed(trees, trees', plans[i].skill.path, plans[i].stage.value)
    ensures InTransaction(trees', next, plans[i := plans[i].(committed := false)], lock, base, planned)
  {
    var plan := plans[i].(committed := false);
    assert Tracked(trees, lock, plans[i]);
    assert Owned(plan) == Owned(plans[i]);
    RenamedNames(trees, trees', plan.skill.path, plan.stage.value, next);
    StepFollows(trees, trees', lock, base, plans, i, plan);
  }

  /** Moving a kept package back to its empty destination keeps the transaction. */
  lemma RestoreStep(
    trees: Trees, trees': Trees, next: nat, plans: seq<Plan>,
    lock: Trees, base: Target, planned: seq<Plan>, i: nat)
    requires InTransaction(trees, next, plans, lock, base, planned) && i < |plans|
    requires !plans[i].committed && plans[i].backup.Some?
    requires Renamed(trees, trees', plans[i].backup.value, plans[i].skill.path)
    ensures InTransaction(trees', next, plans[i := plans[i].(backup := None)], lock, base, planned)
  {
    var plan := plans[i].(backup := None);
    assert Tracked(trees, lock, plans[i]);
    assert Owned(plans[i]) - Owned(plan) <= {plans[i].backup.value};
    RenamedNames(trees, trees', plans[i].backup.value, plan.skill.path, next);
    StepFollows(trees, trees', lock, base, plans, i, plan);
  }

  function Committed(plan: Plan): Plan {
    plan.(committed := true,
          skill := plan.skill.(status := if plan.backup.Some? then Replaced else Installed,
                               backup := if plan.backup.Some? then plan.backup else plan.skill.backup))
  }

  /** A plan with no package to move. */
  predicate Idle(plan: Plan) {
    if plan.remove then plan.before.None? else plan.skill.status == Unchanged
  }

  predicate AllIdle(plans: seq<Plan>) {
    forall i | 0 <= i < |plans| :: Idle(plans[i])
  }

  ghost predicate AllLanded(plans: seq<Plan>, planned: seq<Plan>) {
    |plans| == |planned| && forall i | 0 <= i < |plans| :: Landed(plans[i], planned[i])
  }

  ghost predicate AllWaiting(plans: seq<Plan>, planned: seq<Plan>) {
    |plans| == |planned| && forall i | 0 <= i < |plans| :: Waiting(plans[i], planned[i])
  }

  /** No package is away from where the plans found it. */
  ghost predicate NothingMoved(plans: seq<Plan>) {
    forall i | 0 <= i < |plans| :: !plans[i].committed && plans[i].backup.None?
  }

  /** The line a landed plan reports, before its cleanup is known to have failed. */
  function FinalSkill(plan: Plan): Skill {
    if !plan.remove || plan.before.None? then plan.skill
    else if plan.skill.status == Divergent then plan.skill.(status := BackedUp, backup := plan.backup)
    else plan.skill.(status := Removed)
  }

  ghost predicate FinalLine(plan: Plan, skill: Skill) {
    || skill == FinalSkill(plan)
    || (Drops(plan) && skill == FinalSkill(plan).(backup := plan.backup))
  }

  /** An unedited legacy package, deleted once the receipt is written. */
  predicate Drops(plan: Plan) {
    plan.remove && plan.backup.Some? && plan.skill.status != Divergent
  }

  /** `trees` is `landed` after deleting (in part, perhaps) packages of the first `n` plans that drop theirs. */
  ghost predicate Dropping(trees: Trees, landed: Trees, plans: seq<Plan>, n: nat)
    requires n <= |plans|
  {
    forall path: Path ::
      (forall j | 0 <= j < n :: !(Drops(plans[j]) && plans[j].backup == Some(path))) ==>
      At(trees, path) == At(landed, path)
  }

  /** A package path is not a kept place, so dropping leaves it alone; another
      plan's kept place is not dropped either. */
  lemma DroppingSpares(trees: Trees, landed: Trees, lock: Trees, base: Target, plans: seq<Plan>, i: nat)
    requires Follows(landed, lock, base, plans) && Dropping(trees, landed, plans, |plans|) && i < |plans|
    ensures At(trees, plans[i].skill.path) == At(landed, plans[i].skill.path)
    ensures plans[i].backup.Some? && !Drops(plans[i]) ==>
      At(trees, plans[i].backup.value) == At(landed, plans[i].backup.value)
  {
    forall j | 0 <= j < |plans| && Drops(plans[j])
      ensures plans[j].backup != Some(plans[i].skill.path)
      ensures plans[i].backup.Some? && !Drops(plans[i]) ==> plans[j].backup != plans[i].backup
    {
      assert Tracked(landed, lock, plans[j]) && Tracked(landed, lock, plans[i]);
      if j != i && plans[i].backup.Some? {
        assert plans[i].backup.value in Owned(plans[i]) && plans[j].backup.value in Owned(plans[j]);
      }
    }
  }

  /** Every line of a finished install is true. */
  lemma FinalLineTruthful(
    trees: Trees, landed: Trees, next: nat, lock: Trees, base: Target, plans: seq<Plan>, planned: seq<Plan>, i: nat,
    skill: Skill)
    requires InTransaction(landed, next, plans, lock, base, planned) && i < |plans|
    requires Fresh(planned[i]) && Landed(plans[i], planned[i]) && !plans[i].hidden
    requires Dropping(trees, landed, plans, |plans|) && FinalLine(plans[i], skill)
    ensures Truthful(trees, lock, skill)
  {
    DroppingSpares(trees, landed, lock, base, plans, i);
    assert Tracked(landed, lock, plans[i]);
  }

  ghost predicate FinalLines(plans: seq<Plan>, skills: seq<Skill>) {
    && |skills| == |Visible(plans)|
    && forall k | 0 <= k < |skills| :: FinalLine(Visible(plans)[k], skills[k])
  }

  lemma FinalLinesMore(plans: seq<Plan>, i: nat, skill: Skill, skills: seq<Skill>, skills': seq<Skill>)
    requires i < |plans| && FinalLines(plans[..i], skills) && FinalLine(plans[i], skill)
    requires skills' == if plans[i].hidden then skills else skills + [skill]
    ensures FinalLines(plans[..i + 1], skills')
  {
    assert plans[..i + 1][..i] == plans[..i];
  }

  /** The whole report of a finished install is true. */
  lemma FinalReport(
    trees: Trees, landed: Trees, next: nat, lock: Trees, base: Target, plans: seq<Plan>, planned: seq<Plan>,
    skills: seq<Skill>)
    requires InTransaction(landed, next, plans, lock, base, planned) && Planned(planned)
    requires AllLanded(plans, planned)
    requires Dropping(trees, landed, plans, |plans|) && FinalLines(plans, skills)
    ensures ReportsTruth(trees, lock, planned, skills)
  {
    forall i | 0 <= i < |plans|
      ensures plans[i].hidden == planned[i].hidden && plans[i].skill.path == planned[i].skill.path
    {
      assert Evolved(plans[i], planned[i], base);
    }
    VisibleSame(plans, planned);
    forall k | 0 <= k < |skills|
      ensures skills[k].path == Visible(planned)[k].skill.path && Truthful(trees, lock, skills[k])
    {
      var i := VisibleMember(plans, k);
      FinalLineTruthful(trees, landed, next, lock, base, plans, planned, i, skills[k]);
    }
  }

  /** A legacy package that has left its root is reported as it was judged. */
  lemma RemovedJudged(plan: Plan, planned: Plan, path: Path, ours: bool, line: Skill)
    requires planned.remove && Landed(plan, planned) && plan.remove && plan.before == planned.before
    requires JudgedRemoval(planned.skill, path, planned.before, ours, Remove, Divergent) && FinalLine(plan, line)
    ensures JudgedRemoval(line, path, planned.before, ours, Removed, BackedUp)
  {
  }

  /** A package that was installed is reported as it was judged. */
  lemma InstalledJudged(
    landed: Trees, lock: Trees, base: Target, plan: Plan, planned: Plan, path: Path, receipt: Packages, line: Skill)
    requires !planned.remove && Landed(plan, planned) && Evolved(plan, planned, base) && Tracked(landed, lock, plan)
    requires JudgedInstall(planned.skill, path, planned.before, planned.files, receipt) && FinalLine(plan, line)
    ensures JudgedInstalled(line, path, planned.before, planned.files)
  {
  }

  /** The report of a finished install says of each package what was made of the tree found under the locks. */
  lemma {:induction false} InstallTells(
    landed: Trees, next: nat, lock: Trees, target: Target, bundle: Bundle, known: set<(Name, Tree)>, plans: seq<Plan>,
    planned: seq<Plan>, skills: seq<Skill>, trees0: Trees, receipts0: Receipts)
    requires InstallsPlanned(planned, target, bundle, known, trees0, receipts0)
    requires InTransaction(landed, next, plans, lock, target, planned) && AllLanded(plans, planned)
    requires FinalLines(plans, skills)
    ensures ReportsInstall(skills, target, bundle, known, trees0, receipts0, lock, true)
  {
    var paths := Listed(target, trees0, receipts0);
    InstallPlansFor(lock, target, bundle, known, plans, planned, landed, next, trees0, receipts0);
    VisibleListed(plans, target, trees0, receipts0);
    LineTells(landed, next, lock, target, bundle, known, plans, planned, skills, trees0, receipts0, 0);
    LineTells(landed, next, lock, target, bundle, known, plans, planned, skills, trees0, receipts0, 1);
    forall k | 2 <= k < |skills|
      ensures RemovalTold(skills[k], paths[k], target, bundle, known, receipts0, At(lock, paths[k]), Removed, BackedUp)
    {
      LineTells(landed, next, lock, target, bundle, known, plans, planned, skills, trees0, receipts0, k);
    }
  }

  lemma {:induction false} LineTells(
    landed: Trees, next: nat, lock: Trees, target: Target, bundle: Bundle, known: set<(Name, Tree)>, plans: seq<Plan>,
    planned: seq<Plan>, skills: seq<Skill>, trees0: Trees, receipts0: Receipts, k: nat)
    requires InstallsPlanned(planned, target, bundle, known, trees0, receipts0)
    requires InTransaction(landed, next, plans, lock, target, planned) && AllLanded(plans, planned)
    requires FinalLines(plans, skills) && PlansFor(plans, target, trees0, receipts0)
    requires k < |skills| && |skills| == |Listed(target, trees0, receipts0)|
    ensures var path := Listed(target, trees0, receipts0)[k];
      if k < 2 then
        InstallTold(skills[k], path, At(lock, path), if k == 0 then bundle.tadx else bundle.pulse,
          PackagesOf(receipts0, target), true)
      else
        RemovalTold(skills[k], path, target, bundle, known, receipts0, At(lock, path), Removed, BackedUp)
  {
    var i := ListedPlan(plans, target, trees0, receipts0, k);
    PlanTells(landed, next, lock, target, bundle, known, plans, planned, trees0, receipts0, i, skills[k]);
  }

  lemma InstallPlansFor(
    lock: Trees, target: Target, bundle: Bundle, known: set<(Name, Tree)>, plans: seq<Plan>, planned: seq<Plan>,
    landed: Trees, next: nat, trees0: Trees, receipts0: Receipts)
    requires InstallsPlanned(planned, target, bundle, known, trees0, receipts0)
    requires InTransaction(landed, next, plans, lock, target, planned)
    ensures PlansFor(plans, target, trees0, receipts0)
  {
    forall i | 0 <= i < |plans|
      ensures plans[i].skill.path == Looked(target, receipts0)[i]
      ensures plans[i].hidden <==> i >= 2 && Looked(target, receipts0)[i] !in trees0
    {
      assert Evolved(plans[i], planned[i], target);
    }
  }

  lemma {:induction false} PlanTells(
    landed: Trees, next: nat, lock: Trees, target: Target, bundle: Bundle, known: set<(Name, Tree)>, plans: seq<Plan>,
    planned: seq<Plan>, trees0: Trees, receipts0: Receipts, i: nat, line: Skill)
    requires InstallsPlanned(planned, target, bundle, known, trees0, receipts0)
    requires InTransaction(landed, next, plans, lock, target, planned) && AllLanded(plans, planned)
    requires i < |plans| && FinalLine(plans[i], line)
    ensures var path := Looked(target, receipts0)[i];
      if i < 2 then
        InstallTold(line, path, At(lock, path), if i == 0 then bundle.tadx else bundle.pulse,
          PackagesOf(receipts0, target), true)
      else
        RemovalTold(line, path, target, bundle, known, receipts0, At(lock, path), Removed, BackedUp)
  {
    var path := Looked(target, receipts0)[i];
    assert Evolved(plans[i], planned[i], target) && Tracked(landed, lock, plans[i]);
    if i < 2 {
      InstalledJudged(landed, lock, target, plans[i], planned[i], path, PackagesOf(receipts0, target), line);
    } else {
      RemovedJudged(plans[i], planned[i], path, Ours(target, bundle, known, receipts0, path, planned[i].before), line);
    }
  }

  lemma OwnedKept(
    trees: Trees, landed: Trees, next: nat, lock: Trees, base: Target, plans: seq<Plan>, planned: seq<Plan>, path: Path,
    i: nat)
    requires InTransaction(landed, next, plans, lock, base, planned) && Planned(planned)
    requires AllLanded(plans, planned)
    requires Dropping(trees, landed, plans, |plans|) && !OwnStage(path, base)
    requires i < |plans| && path in Owned(plans[i]) && path in lock
    ensures Kept(trees, lock, path)
      || (planned[i].remove && planned[i].skill.status == Remove && planned[i].skill.path == path)
  {
    assert Tracked(landed, lock, plans[i]) && Fresh(planned[i]);
    DroppingSpares(trees, landed, lock, base, plans, i);
    if Drops(plans[i]) {
      assert planned[i].skill.status == Remove;
    } else {
      var place := if plans[i].backup.Some? then plans[i].backup.value else path;
      assert At(trees, place) == At(lock, path);
    }
  }

  /** After a finished install every earlier tree still exists, unless it was an
      unedited legacy package. */
  lemma FinalKept(
    trees: Trees, landed: Trees, next: nat, lock: Trees, base: Target, plans: seq<Plan>, planned: seq<Plan>, path: Path)
    requires InTransaction(landed, next, plans, lock, base, planned) && Planned(planned)
    requires AllLanded(plans, planned)
    requires Dropping(trees, landed, plans, |plans|) && !OwnStage(path, base)
    ensures Kept(trees, lock, path) || exists i | 0 <= i < |planned| ::
      planned[i].remove && planned[i].skill.status == Remove && planned[i].skill.path == path
  {
    if i :| 0 <= i < |plans| && path in Owned(plans[i]) && path in lock {
      OwnedKept(trees, landed, next, lock, base, plans, planned, path, i);
    } else if path in lock {
      assert Foreign(path, base, plans);
      assert forall j | 0 <= j < |plans| && Drops(plans[j]) :: plans[j].backup.value in Owned(plans[j]);
      assert At(trees, path) == At(lock, path);
    }
  }

  /** Both packages of `target` hold the bundle and no legacy package is left to
      remove: an install has nothing to do. */
  predicate Settled(target: Target, bundle: Bundle, trees: Trees, receipts: Receipts) {
    && At(trees, Package(target, Tadx)) == Some(bundle.tadx)
    && At(trees, Package(target, TadxPulse)) == Some(bundle.pulse)
    && (target.Codex? ==>
         || Registered(receipts, LEGACY_BASE)
         || (At(trees, Package(LEGACY_BASE, Tadx)).None? && At(trees, Package(LEGACY_BASE, TadxPulse)).None?))
  }

  /** A finished install that planned from the disk as it was when the locks were taken leaves nothing to do. */
  lemma CompleteSettles(
    trees: Trees, lock: Trees, target: Target, bundle: Bundle, known: set<(Name, Tree)>, trees0: Trees,
    receipts0: Receipts, skills: seq<Skill>)
    requires CompleteInstall(trees, lock, target, bundle, known,
      InstallPlans(target, bundle, known, trees0, receipts0), skills)
    ensures Settled(target, bundle, trees,
      receipts0[target := Receipt(map[Tadx := bundle.tadx, TadxPulse := bundle.pulse])])
  {
    var planned := InstallPlans(target, bundle, known, trees0, receipts0);
    assert At(trees, Package(target, Tadx)) == Some(bundle.Files(Tadx));
    assert At(trees, Package(target, TadxPulse)) == Some(bundle.Files(TadxPulse));
    if target.Codex? && !Registered(receipts0, LEGACY_BASE) {
      assert planned[2].remove && planned[2].skill.path == Package(LEGACY_BASE, Tadx);
      assert planned[3].remove && planned[3].skill.path == Package(LEGACY_BASE, TadxPulse);
    }
  }

  /** A legacy package that is exactly the bundle or a package of a known release. */
  predicate Unedited(path: Path, trees: Trees, bundle: Bundle, known: set<(Name, Tree)>) {
    && path.Package? && path in trees && path.base == LEGACY_BASE
    && (trees[path] == bundle.Files(path.name) || (path.name, trees[path]) in known)
  }

  /** An install that stopped halfway through its rollback: the report is true,
      nothing is lost, and other directories are untouched. */
  ghost predicate PartialRun(trees: Trees, lock: Trees, base: Target, planned: seq<Plan>, skills: seq<Skill>) {
    && ReportsTruth(trees, lock, planned, skills)
    && (forall path | !OwnStage(path, base) :: Kept(trees, lock, path))
    && Bystanders(trees, lock, base, planned)
  }

  /** A successful install: both packages hold the bundle, every planned legacy
      package has left its root, the report is true, and every earlier tree
      still exists unless it was an unedited legacy package. */
  ghost predicate CompleteInstall(
    trees: Trees, lock: Trees, target: Target, bundle: Bundle, known: set<(Name, Tree)>, planned: seq<Plan>,
    skills: seq<Skill>)
  {
    && (forall name :: At(trees, Package(target, name)) == Some(bundle.Files(name)))
    && (forall i | 0 <= i < |planned| && planned[i].remove :: At(trees, planned[i].skill.path).None?)
    && ReportsTruth(trees, lock, planned, skills)
    && (forall path | !OwnStage(path, target) :: Kept(trees, lock, path) || Unedited(path, lock, bundle, known))
    && Bystanders(trees, lock, target, planned)
  }

  /** Directories that existed and are no planned package stay as they were. */
  ghost predicate Bystanders(trees: Trees, lock: Trees, base: Target, planned: seq<Plan>) {
    forall path | path in lock && !OwnStage(path, base)
      && (forall i | 0 <= i < |planned| :: planned[i].skill.path != path) ::
      At(trees, path) == At(lock, path)
  }

  /** The two packages of the target first, legacy packages after them. */
  ghost predicate InstallShape(plans: seq<Plan>, target: Target, bundle: Bundle) {
    && Planned(plans) && |plans| >= 2
    && (forall i | 0 <= i < |plans| :: plans[i].remove <==> i >= 2)
    && (forall i | 0 <= i < 2 ::
          plans[i].skill.path == Package(target, NAMES[i]) && plans[i].skill.name == NAMES[i]
            && plans[i].files == bundle.Files(NAMES[i]))
    && (forall i | 2 <= i < |plans| :: plans[i].skill.path.base == LEGACY_BASE)
  }

  lemma PlannedShape(target: Target, bundle: Bundle, known: set<(Name, Tree)>, trees: Trees, receipts: Receipts)
    ensures InstallShape(InstallPlans(target, bundle, known, trees, receipts), target, bundle)
  {
  }

  /** What planning always produces. */
  lemma PlannedInstall(target: Target, bundle: Bundle, known: set<(Name, Tree)>, trees: Trees, receipts: Receipts)
    ensures var plans := InstallPlans(target, bundle, known, trees, receipts);
      && InstallShape(plans, target, bundle)
      && (forall i | 2 <= i < |plans| && plans[i].skill.status == Remove ::
            plans[i].before.Some?
              && (plans[i].before.value == bundle.Files(plans[i].skill.name)
              || (plans[i].skill.name, plans[i].before.value) in known))
  {
    PlannedShape(target, bundle, known, trees, receipts);
  }

  /** Landing plans that had nothing to move moved nothing. */
  lemma IdleLanded(plans: seq<Plan>, planned: seq<Plan>)
    requires AllLanded(plans, planned)
    ensures AllIdle(planned) ==> NothingMoved(plans)
  {
  }

  /** A settled root plans nothing but idle packages. */
  lemma SettledIdle(target: Target, bundle: Bundle, known: set<(Name, Tree)>, trees: Trees, receipts: Receipts)
    ensures Settled(target, bundle, trees, receipts) <==> AllIdle(InstallPlans(target, bundle, known, trees, receipts))
  {
    var plans := InstallPlans(target, bundle, known, trees, receipts);
    if AllIdle(plans) {
      assert Idle(plans[0]) && Idle(plans[1]);
      assert |plans| > 2 ==> Idle(plans[2]) && Idle(plans[3]);
    }
  }

  lemma PartialReport(
    trees: Trees, next: nat, lock: Trees, base: Target, plans: seq<Plan>, planned: seq<Plan>, skills: seq<Skill>)
    requires InTransaction(trees, next, plans, lock, base, planned) && Planned(planned)
    requires ReportsTruth(trees, lock, plans, skills)
    ensures PartialRun(trees, lock, base, planned, skills)
  {
    assert forall i | 0 <= i < |plans| :: Evolved(plans[i], planned[i], base);
    VisibleSame(plans, planned);
    forall path | !OwnStage(path, base)
      ensures Kept(trees, lock, path)
    {
      NothingLost(trees, lock, base, plans, path);
    }
    forall path | path in lock && !OwnStage(path, base)
      && (forall i | 0 <= i < |planned| :: planned[i].skill.path != path)
      ensures At(trees, path) == At(lock, path)
    {
      UnplannedForeign(trees, next, lock, base, plans, planned, path);
    }
  }

  /** A directory that existed and is no planned package belongs to no plan. */
  lemma UnplannedForeign(
    trees: Trees, next: nat, lock: Trees, base: Target, plans: seq<Plan>, planned: seq<Plan>, path: Path)
    requires InTransaction(trees, next, plans, lock, base, planned)
    requires path in lock && !OwnStage(path, base) && forall i | 0 <= i < |planned| :: planned[i].skill.path != path
    ensures Foreign(path, base, plans)
  {
    forall i | 0 <= i < |plans|
      ensures path !in Owned(plans[i])
    {
      assert Tracked(trees, lock, plans[i]) && Evolved(plans[i], planned[i], base);
    }
  }

  /** Dropping packages that were moved leaves every other earlier directory alone. */
  lemma BystandersSpared(
    trees: Trees, landed: Trees, next: nat, lock: Trees, base: Target, plans: seq<Plan>, planned: seq<Plan>)
    requires InTransaction(landed, next, plans, lock, base, planned) && Dropping(trees, landed, plans, |plans|)
    ensures Bystanders(trees, lock, base, planned)
  {
    forall path | path in lock && !OwnStage(path, base)
      && (forall i | 0 <= i < |planned| :: planned[i].skill.path != path)
      ensures At(trees, path) == At(lock, path)
    {
      UnplannedForeign(landed, next, lock, base, plans, planned, path);
      forall j | 0 <= j < |plans| && Drops(plans[j])
        ensures plans[j].backup != Some(path)
      {
        assert plans[j].backup.value in Owned(plans[j]);
      }
    }
  }

  lemma KeptStays(trees: Trees, trees': Trees, lock: Trees, base: Target, path: Path)
    requires Kept(trees, lock, path) && Restored(trees', trees, base) && !OwnStage(path, base)
    ensures Kept(trees', lock, path)
  {
    if path in lock {
      var place: Path :| (place == path || KeepsFor(place, path)) && At(trees, place) == At(lock, path);
      assert At(trees', place) == At(lock, path);
    }
  }

  lemma PartialStays(trees': Trees, trees: Trees, lock: Trees, base: Target, planned: seq<Plan>, skills: seq<Skill>)
    requires PartialRun(trees, lock, base, planned, skills) && Restored(trees', trees, base)
    ensures PartialRun(trees', lock, base, planned, skills)
  {
    ReportsStayTrue(trees, trees', lock, base, planned, skills);
    forall path | !OwnStage(path, base)
      ensures Kept(trees', lock, path)
    {
      KeptStays(trees, trees', lock, base, path);
    }
  }

  /** After a finished install every planned path holds what was planned for it. */
  lemma CompletePaths(
    trees: Trees, landed: Trees, next: nat, lock: Trees, target: Target, plans: seq<Plan>, planned: seq<Plan>)
    requires InTransaction(landed, next, plans, lock, target, planned) && Planned(planned)
    requires AllLanded(plans, planned)
    requires Dropping(trees, landed, plans, |plans|)
    ensures forall i | 0 <= i < |plans| ::
      At(trees, planned[i].skill.path) == if planned[i].remove then None else Some(planned[i].files)
  {
    forall i | 0 <= i < |plans|
      ensures At(trees, planned[i].skill.path) == if planned[i].remove then None else Some(planned[i].files)
    {
      DroppingSpares(trees, landed, lock, target, plans, i);
      assert Tracked(landed, lock, plans[i]) && Evolved(plans[i], planned[i], target) && Fresh(planned[i]);
    }
  }

  /** Only an unedited legacy package is deleted by a finished install. */
  lemma CompleteKept(
    trees: Trees, landed: Trees, next: nat, lock: Trees, target: Target, bundle: Bundle, known: set<(Name, Tree)>,
    plans: seq<Plan>, planned: seq<Plan>, trees0: Trees, receipts0: Receipts, path: Path)
    requires planned == InstallPlans(target, bundle, known, trees0, receipts0)
    requires InTransaction(landed, next, plans, lock, target, planned)
    requires AllLanded(plans, planned)
    requires Dropping(trees, landed, plans, |plans|) && !OwnStage(path, target)
    ensures Kept(trees, lock, path) || Unedited(path, lock, bundle, known)
  {
    PlannedInstall(target, bundle, known, trees0, receipts0);
    FinalKept(trees, landed, next, lock, target, plans, planned, path);
    if !Kept(trees, lock, path) {
      var i :| 0 <= i < |planned| && planned[i].remove && planned[i].skill.status == Remove
        && planned[i].skill.path == path;
      assert Tracked(landed, lock, plans[i]) && Evolved(plans[i], planned[i], target);
      assert Fresh(planned[i]);
    }
  }

  lemma CompleteReport(
    trees: Trees, landed: Trees, next: nat, lock: Trees, target: Target, bundle: Bundle, known: set<(Name, Tree)>,
    plans: seq<Plan>, planned: seq<Plan>, skills: seq<Skill>, trees0: Trees, receipts0: Receipts)
    requires planned == InstallPlans(target, bundle, known, trees0, receipts0)
    requires InTransaction(landed, next, plans, lock, target, planned)
    requires AllLanded(plans, planned)
    requires Dropping(trees, landed, plans, |plans|) && ReportsTruth(trees, lock, planned, skills)
    ensures CompleteInstall(trees, lock, target, bundle, known, planned, skills)
  {
    PlannedInstall(target, bundle, known, trees0, receipts0);
    CompletePaths(trees, landed, next, lock, target, plans, planned);
    forall name
      ensures At(trees, Package(target, name)) == Some(bundle.Files(name))
    {
      var i := if name == Tadx then 0 else 1;
      assert planned[i].skill.path == Package(target, name);
    }
    forall path | !OwnStage(path, target)
      ensures Kept(trees, lock, path) || Unedited(path, lock, bundle, known)
    {
      CompleteKept(trees, landed, next, lock, target, bundle, known, plans, planned, trees0, receipts0, path);
    }
    BystandersSpared(trees, landed, next, lock, target, plans, planned);
  }

  /** The stages of a running transaction are all this root's own, and its packages lie at package paths. */
  lemma EvolvedStages(plans: seq<Plan>, planned: seq<Plan>, base: Target)
    requires |plans| == |planned| && forall i | 0 <= i < |plans| :: Evolved(plans[i], planned[i], base)
    requires Planned(planned)
    ensures forall i | 0 <= i < |plans| && plans[i].stage.Some? :: OwnStage(plans[i].stage.value, base)
    ensures forall i | 0 <= i < |planned| :: planned[i].skill.path.Package?
  {
    forall i | 0 <= i < |planned|
      ensures planned[i].skill.path.Package?
    {
      assert Fresh(planned[i]);
    }
    forall i | 0 <= i < |plans| && plans[i].stage.Some?
      ensures OwnStage(plans[i].stage.value, base)
    {
      assert Evolved(plans[i], planned[i], base);
    }
  }

  lemma CompleteStays(
    trees': Trees, trees: Trees, lock: Trees, target: Target, bundle: Bundle, known: set<(Name, Tree)>,
    planned: seq<Plan>, skills: seq<Skill>)
    requires CompleteInstall(trees, lock, target, bundle, known, planned, skills) && Restored(trees', trees, target)
    requires forall i | 0 <= i < |planned| :: planned[i].skill.path.Package?
    ensures CompleteInstall(trees', lock, target, bundle, known, planned, skills)
  {
    ReportsStayTrue(trees, trees', lock, target, planned, skills);
    forall path | !OwnStage(path, target)
      ensures Kept(trees', lock, path) || Unedited(path, lock, bundle, known)
    {
      if Kept(trees, lock, path) {
        KeptStays(trees, trees', lock, target, path);
      }
    }
  }

  /** The receipts that planning reads are undamaged. */
  predicate ReadableFor(target: Target, receipts: Receipts) {
    Readable(receipts, target) && (target.Codex? ==> Readable(receipts, LEGACY_BASE))
  }

  predicate SameReceipt(receipts: Receipts, base: Target, before: Option<Packages>) {
    && (before.Some? <==> base in receipts)
    && (before.Some? ==> receipts[base] == Receipt(before.value))
  }

  /** Every planned path holds what planning found there. */
  predicate AsPlanned(trees: Trees, plans: seq<Plan>) {
    forall i | 0 <= i < |plans| :: At(trees, plans[i].skill.path) == plans[i].before
  }

  /** Nothing that planning read has changed, and legacy packages are still nobody's. */
  ghost predicate Current(
    trees: Trees, receipts: Receipts, plans: seq<Plan>, target: Target, receipt: Option<Packages>)
  {
    && AsPlanned(trees, plans) && SameReceipt(receipts, target, receipt)
    && ((exists i | 0 <= i < |plans| :: plans[i].remove) ==>
          Readable(receipts, LEGACY_BASE) && !Registered(receipts, LEGACY_BASE))
  }

  /** Staging changes no planned path. */
  lemma StagedAsPlanned(trees: Trees, next: nat, plans: seq<Plan>, lock: Trees, base: Target, planned: seq<Plan>)
    requires Planned(planned) && PartlyStaged(trees, next, plans, lock, base, planned, |planned|)
    ensures AsPlanned(lock, planned) ==> AsPlanned(trees, plans)
  {
    if AsPlanned(lock, planned) {
      forall i | 0 <= i < |plans|
        ensures At(trees, plans[i].skill.path) == plans[i].before
      {
        assert Fresh(planned[i]) && !OwnStage(planned[i].skill.path, base);
      }
    }
  }

  /** What was just planned is current. */
  lemma PlannedCurrent(
    target: Target, bundle: Bundle, known: set<(Name, Tree)>, trees: Trees, receipts: Receipts,
    receipt: Option<Packages>)
    requires SameReceipt(receipts, target, receipt) && ReadableFor(target, receipts)
    ensures Current(trees, receipts, InstallPlans(target, bundle, known, trees, receipts), target, receipt)
  {
    InstallPlansMean(target, bundle, known, trees, receipts);
    var plans, paths := InstallPlans(target, bundle, known, trees, receipts), Looked(target, receipts);
    forall i | 0 <= i < |plans|
      ensures At(trees, plans[i].skill.path) == plans[i].before
    {
      assert plans[i].skill.path == paths[i];
    }
  }

  class Installer {
    const disk: Disk
    const bundle: Bundle
    const known: set<(Name, Tree)>
    var plans: seq<Plan>

    constructor (disk: Disk, bundle: Bundle, known: set<(Name, Tree)>)
      ensures this.disk == disk && this.bundle == bundle && this.known == known
    {
      this.disk, this.bundle, this.known, this.plans := disk, bundle, known, [];
    }

    ghost predicate Staging(lock: Trees, base: Target, planned: seq<Plan>, made: nat)
      reads this, disk
    {
      PartlyStaged(disk.trees, disk.next, plans, lock, base, planned, made)
    }

    ghost predicate Running(lock: Trees, base: Target, planned: seq<Plan>)
      reads this, disk
    {
      InTransaction(disk.trees, disk.next, plans, lock, base, planned)
    }

    // ----- Planning -----

    method PlanLegacy() returns (ok: bool)
      modifies this`plans
      ensures ok ==> plans == old(plans) + LegacyPlans(bundle, known, disk.trees, disk.receipts)
      ensures disk.smooth && Readable(disk.receipts, LEGACY_BASE) ==> ok
    {
      ok := disk.Step();
      var receipt := disk.ReadReceipt(LEGACY_BASE);
      if !ok || receipt.Err? {
        return false;
      }
      if receipt.value.Some? && receipt.value.value != map[] {
        return true;
      }
      ghost var legacy := LegacyPlans(bundle, known, disk.trees, disk.receipts);
      for k := 0 to 2
        invariant plans == old(plans) + legacy[..k]
      {
        ok := disk.Step();
        var seen := disk.Inspect(Package(LEGACY_BASE, NAMES[k]));
        if !ok || seen.Err? {
          return false;
        }
        plans := plans + [LegacyPlan(NAMES[k], bundle.Files(NAMES[k]), seen.value, known)];
      }
      return true;
    }

    method PlanInstall(target: Target) returns (ok: bool, receipt: Option<Packages>)
      modifies this`plans
      ensures ok ==> plans == InstallPlans(target, bundle, known, disk.trees, disk.receipts)
      ensures ok ==> InstallsPlanned(plans, target, bundle, known, disk.trees, disk.receipts)
      ensures ok ==> (receipt.Some? <==> target in disk.receipts)
      ensures ok && receipt.Some? ==> disk.receipts[target] == Receipt(receipt.value)
      ensures disk.smooth && ReadableFor(target, disk.receipts) ==> ok
    {
      InstallPlansMean(target, bundle, known, disk.trees, disk.receipts);
      plans := [];
      ok := disk.Step();
      var read := disk.ReadReceipt(target);
      if !ok || read.Err? {
        return false, None;
      }
      receipt := read.value;
      ghost var all := InstallPlans(target, bundle, known, disk.trees, disk.receipts);
      for k := 0 to 2
        invariant plans == all[..k]
      {
        ok := disk.Step();
        var seen := disk.Inspect(Package(target, NAMES[k]));
        if !ok || seen.Err? {
          return false, None;
        }
        var packages := if receipt.Some? then receipt.value else map[];
        plans := plans + [InstallPlan(target, NAMES[k], bundle.Files(NAMES[k]), seen.value, packages)];
      }
      if target.Codex? {
        ok := PlanLegacy();
        return ok, receipt;
      }
      return true, receipt;
    }

    // ----- Steps under the locks -----

    /** Deletes stages an interrupted install left in this root; a stage that
        cannot be deleted stays. */
    method RemoveAbandonedStages(base: Target)
      requires disk.Valid()
      modifies disk`trees
      ensures disk.Valid() && Restored(disk.trees, old(disk.trees), base)
    {
      var entries := set path | path in disk.trees && path.Stage? && path.base == base;
      while entries != {}
        invariant disk.Valid() && Restored(disk.trees, old(disk.trees), base)
        invariant forall path | path in entries :: OwnStage(path, base)
      {
        var entry :| entry in entries;
        ghost var earlier := disk.trees;
        var _ := disk.RemoveAll(entry);
        assert forall path | path in disk.trees ::
          At(disk.trees, path).Some? && (path == entry || At(earlier, path).Some?);
        entries := entries - {entry};
      }
    }

    method LegacyOwnershipUnchanged() returns (ok: bool)
      ensures ok && (exists i | 0 <= i < |plans| :: plans[i].remove) ==> !Registered(disk.receipts, LEGACY_BASE)
      ensures disk.smooth && (forall i | 0 <= i < |plans| :: !plans[i].remove) ==> ok
      ensures disk.smooth && Readable(disk.receipts, LEGACY_BASE) && !Registered(disk.receipts, LEGACY_BASE) ==> ok
    {
      for i := 0 to |plans|
        invariant forall j | 0 <= j < i :: !plans[j].remove
      {
        if plans[i].remove {
          var receipt := disk.ReadReceipt(LEGACY_BASE);
          return receipt.Ok? && (receipt.value.None? || receipt.value.value == map[]);
        }
      }
      return true;
    }

    method ReceiptUnchanged(base: Target, before: Option<Packages>) returns (ok: bool)
      ensures ok ==> (before.Some? <==> base in disk.receipts)
      ensures ok && before.Some? ==> disk.receipts[base] == Receipt(before.value)
      ensures disk.smooth && SameReceipt(disk.receipts, base, before) ==> ok
    {
      var receipt := disk.ReadReceipt(base);
      return receipt == Ok(before);
    }

    /** Writes one package into its stage, file by file. */
    method FillStage(stage: Path, files: Tree) returns (ok: bool)
      requires disk.Valid() && stage.Stage? && stage.id < disk.next
      modifies disk`trees
      ensures disk.Valid()
      ensures forall path | path != stage :: At(disk.trees, path) == At(old(disk.trees), path)
      ensures ok ==> At(disk.trees, stage) == Some(files)
      ensures disk.smooth && stage !in old(disk.trees) ==> ok
    {
      ok := disk.Mkdir(stage);
      if !ok {
        return;
      }
      var names := files.Keys;
      while names != {}
        invariant disk.Valid() && stage in disk.trees && names <= files.Keys
        invariant forall path | path != stage :: At(disk.trees, path) == At(old(disk.trees), path)
        invariant disk.trees[stage] == map name | name in files && name !in names :: files[name]
      {
        var name :| name in names;
        ok := disk.Step();
        if ok {
          ok := disk.WriteFile(stage, name, files[name]);
        }
        if !ok {
          return;
        }
        names := names - {name};
      }
      assert disk.trees[stage] == files;
      ok := disk.Step();
    }

    /** Stages the package of plan `i` under a fresh name. */
    method StageOne(base: Target, ghost lock: Trees, ghost planned: seq<Plan>, i: nat) returns (ok: bool)
      requires Staging(lock, base, planned, i) && i < |plans| && NeedsStage(planned[i])
      requires forall j | i <= j < |plans| :: plans[j].stage.None?
      modifies this`plans, disk`trees, disk`next
      ensures Staging(lock, base, planned, if ok then i + 1 else 0)
      ensures disk.smooth ==> ok
      ensures forall j | i < j < |plans| :: plans[j].stage.None?
    {
      ok := disk.Step();
      if !ok {
        FewerStaged(disk.trees, disk.next, plans, lock, base, planned, i);
        return;
      }
      ghost var trees, next := disk.trees, disk.next;
      var id := disk.Random();
      ghost var unstaged := plans;
      plans := plans[i := plans[i].(stage := Some(Stage(base, id)))];
      ok := FillStage(Stage(base, id), plans[i].files);
      StageStep(trees, disk.trees, next, disk.next, unstaged, lock, base, planned, i, id, ok);
      if !ok {
        FewerStaged(disk.trees, disk.next, plans, lock, base, planned, i);
      }
    }

    method StageAll(base: Target, ghost lock: Trees, ghost planned: seq<Plan>) returns (ok: bool)
      requires disk.Valid() && plans == planned && Planned(planned)
      requires NamesDrawn(lock, disk.next) && Restored(disk.trees, lock, base)
      modifies this`plans, disk`trees, disk`next
      ensures Staging(lock, base, planned, if ok then |planned| else 0)
      ensures disk.smooth ==> ok
    {
      NothingStaged(disk.trees, disk.next, plans, lock, base);
      for i := 0 to |plans|
        invariant Staging(lock, base, planned, i)
        invariant forall j | i <= j < |plans| :: plans[j].stage.None?
      {
        ok := NeedsStage(plans[i]);
        NoStageNeeded(disk.trees, disk.next, plans, lock, base, planned, i);
        if ok {
          ok := StageOne(base, lock, planned, i);
          if !ok {
            return;
          }
        }
      }
      return true;
    }

    /** Confirms that every destination is as planned before the first move. */
    method ValidateAll() returns (ok: bool)
      ensures ok ==> forall i | 0 <= i < |plans| :: At(disk.trees, plans[i].skill.path) == plans[i].before
      ensures disk.smooth && AsPlanned(disk.trees, plans) ==> ok
    {
      for i := 0 to |plans|
        invariant forall j | 0 <= j < i :: At(disk.trees, plans[j].skill.path) == plans[j].before
      {
        var seen := disk.Inspect(plans[i].skill.path);
        if seen != Ok(plans[i].before) {
          return false;
        }
      }
      return true;
    }

    /** Where a package goes when it is only removed: kept outside discovery. */
    method RemovalDestination(plan: Plan) returns (place: Option<Path>)
      requires disk.Valid() && plan.skill.path.Package?
      modifies disk`next
      ensures disk.Valid() && disk.next >= old(disk.next)
      ensures place.Some? ==> KeepsFor(place.value, Package(plan.skill.path.base, plan.skill.name))
      ensures place.Some? ==> old(disk.next) <= place.value.id < disk.next
      ensures place.Some? ==> (place.value.Backup? <==> plan.skill.status == Divergent)
      ensures disk.smooth ==> place.Some?
    {
      var ok := disk.Step();
      if !ok {
        return None;
      }
      var id := disk.Random();
      var base := plan.skill.path.base;
      return Some(if plan.skill.status == Divergent then Backup(base, plan.skill.name, id)
        else Path.Staging(base, plan.skill.name, id));
    }

    // ----- Moving packages -----

    /** Moves the package of plan `i` to a place outside skill discovery. */
    method MoveAside(base: Target, ghost lock: Trees, ghost planned: seq<Plan>, i: nat, place: Path, ghost next: nat)
        returns (ok: bool)
      requires i < |plans| && !plans[i].committed && plans[i].backup.None? && plans[i].before.Some?
      requires KeepsFor(place, plans[i].skill.path) && next <= place.id < disk.next
      requires InTransaction(disk.trees, next, plans, lock, base, planned) && disk.Valid()
      modifies this`plans, disk`trees, disk`renames
      ensures Running(lock, base, planned)
      ensures plans == old(plans) || plans == old(plans)[i := old(plans[i]).(backup := Some(place))]
      ensures disk.smooth ==> ok
      ensures ok ==> plans[i].backup.Some?
    {
      ghost var trees := disk.trees;
      ok := disk.Rename(plans[i].skill.path, place);
      if !ok {
        return;
      }
      MoveAsideStep(trees, disk.trees, next, disk.next, plans, lock, base, planned, i, place);
      plans := plans[i := plans[i].(backup := Some(place))];
      var seen := disk.Inspect(place);
      ok := seen == Ok(plans[i].before);
    }

    /** Removes one legacy package from its root, keeping it for rollback. */
    method RemoveOne(base: Target, ghost lock: Trees, ghost planned: seq<Plan>, i: nat) returns (ok: bool)
      requires Running(lock, base, planned) && i < |plans|
      requires Fresh(planned[i]) && Waiting(plans[i], planned[i]) && plans[i].remove
      modifies this`plans, disk`trees, disk`next, disk`renames
      ensures Running(lock, base, planned)
      ensures |plans| == old(|plans|) && forall j | 0 <= j < |plans| && j != i :: plans[j] == old(plans[j])
      ensures ok ==> Landed(plans[i], planned[i])
      ensures Idle(planned[i]) ==> ok && disk.renames == old(disk.renames)
      ensures disk.smooth ==> ok
    {
      if plans[i].before.None? {
        return true;
      }
      ok := disk.Step();
      if !ok {
        return;
      }
      ghost var next := disk.next;
      var place := RemovalDestination(plans[i]);
      if place.None? {
        return false;
      }
      ok := MoveAside(base, lock, planned, i, place.value, next);
    }

    /** Backs up the installed package of plan `i`, then commits its stage. */
    method ReplaceOne(base: Target, ghost lock: Trees, ghost planned: seq<Plan>, i: nat) returns (ok: bool)
      requires Running(lock, base, planned) && i < |plans|
      requires Fresh(planned[i]) && Waiting(plans[i], planned[i]) && NeedsStage(planned[i])
      modifies this`plans, disk`trees, disk`next, disk`renames
      ensures Running(lock, base, planned)
      ensures |plans| == old(|plans|) && forall j | 0 <= j < |plans| && j != i :: plans[j] == old(plans[j])
      ensures ok ==> Landed(plans[i], planned[i])
      ensures disk.smooth ==> ok
    {
      ok := disk.Step();
      if !ok {
        return;
      }
      if plans[i].before.Some? {
        ok := disk.Step();
        if !ok {
          return;
        }
        ghost var next := disk.next;
        var id := disk.Random();
        ok := MoveAside(base, lock, planned, i, Backup(plans[i].skill.path.base, plans[i].skill.name, id), next);
        if !ok {
          return;
        }
      }
      ghost var trees := disk.trees;
      ok := disk.Rename(plans[i].stage.value, plans[i].skill.path);
      if ok {
        CommitStep(trees, disk.trees, disk.next, plans, lock, base, planned, i, Committed(plans[i]));
        plans := plans[i := Committed(plans[i])];
      }
    }

    /** Moves the package of plan `i`, if it has one to move. */
    method CommitOne(base: Target, ghost lock: Trees, ghost planned: seq<Plan>, i: nat) returns (ok: bool)
      requires Running(lock, base, planned) && i < |plans|
      requires Fresh(planned[i]) && Waiting(plans[i], planned[i])
      modifies this`plans, disk`trees, disk`next, disk`renames
      ensures Running(lock, base, planned)
      ensures |plans| == old(|plans|) && forall j | 0 <= j < |plans| && j != i :: plans[j] == old(plans[j])
      ensures ok ==> Landed(plans[i], planned[i])
      ensures Idle(planned[i]) ==> ok && disk.renames == old(disk.renames)
      ensures disk.smooth ==> ok
    {
      if plans[i].remove {
        ok := RemoveOne(base, lock, planned, i);
      } else if plans[i].skill.status != Unchanged {
        ok := ReplaceOne(base, lock, planned, i);
      } else {
        ok := true;
      }
    }

    /** Moves every package; stops at the first failure. */
    method CommitAll(base: Target, ghost lock: Trees, ghost planned: seq<Plan>) returns (ok: bool)
      requires Running(lock, base, planned) && Planned(planned)
      requires AllWaiting(plans, planned)
      modifies this`plans, disk`trees, disk`next, disk`renames
      ensures Running(lock, base, planned)
      ensures ok ==> AllLanded(plans, planned)
      ensures AllIdle(planned) ==> ok && disk.renames == old(disk.renames)
      ensures disk.smooth ==> ok
    {
      for i := 0 to |plans|
        invariant Running(lock, base, planned)
        invariant AllIdle(planned) ==> disk.renames == old(disk.renames)
        invariant forall j | 0 <= j < i :: Landed(plans[j], planned[j])
        invariant forall j | i <= j < |plans| :: Waiting(plans[j], planned[j])
      {
        assert Fresh(planned[i]);
        ok := CommitOne(base, lock, planned, i);
        if !ok {
          return;
        }
      }
      return true;
    }

    /** Moves the committed package of plan `i` back into its stage. */
    method Withdraw(base: Target, ghost lock: Trees, ghost planned: seq<Plan>, i: nat) returns (ok: bool)
      requires Running(lock, base, planned) && i < |plans| && plans[i].committed
      modifies this`plans, disk`trees, disk`renames
      ensures Running(lock, base, planned)
      ensures plans == old(plans)[i := if ok then old(plans)[i].(committed := false) else old(plans)[i]]
    {
      ghost var trees := disk.trees;
      assert Tracked(trees, lock, plans[i]);
      ok := disk.Rename(plans[i].skill.path, plans[i].stage.value);
      if !ok {
        return;
      }
      WithdrawStep(trees, disk.trees, disk.next, plans, lock, base, planned, i);
      plans := plans[i := plans[i].(committed := false)];
    }

    /** Moves the backup of plan `i` back to its path. */
    method PutBack(base: Target, ghost lock: Trees, ghost planned: seq<Plan>, i: nat) returns (ok: bool)
      requires Running(lock, base, planned) && i < |plans| && !plans[i].committed && plans[i].backup.Some?
      modifies this`plans, disk`trees, disk`renames
      ensures Running(lock, base, planned)
      ensures plans == old(plans)[i := if ok then old(plans)[i].(backup := None) else old(plans)[i]]
    {
      ghost var trees := disk.trees;
      ok := disk.Rename(plans[i].backup.value, plans[i].skill.path);
      if !ok {
        return;
      }
      RestoreStep(trees, disk.trees, disk.next, plans, lock, base, planned, i);
      plans := plans[i := plans[i].(backup := None)];
    }

    /** Undoes the moves of plan `i`: its commit first, then its backup. */
    method Revert(base: Target, ghost lock: Trees, ghost planned: seq<Plan>, i: nat) returns (ok: bool)
      requires Running(lock, base, planned) && i < |plans|
      modifies this`plans, disk`trees, disk`renames
      ensures Running(lock, base, planned)
      ensures |plans| == old(|plans|) && forall j | 0 <= j < |plans| && j != i :: plans[j] == old(plans[j])
      ensures ok ==> !plans[i].committed && plans[i].backup.None?
      ensures old(!plans[i].committed && plans[i].backup.None?) ==> ok && disk.renames == old(disk.renames)
    {
      if plans[i].committed {
        ok := Withdraw(base, lock, planned, i);
        if !ok {
          return;
        }
      }
      if plans[i].backup.Some? {
        ok := PutBack(base, lock, planned, i);
        return;
      }
      return true;
    }

    /** Undoes every move, newest plan first; stops if a move back fails. */
    method Rollback(base: Target, ghost lock: Trees, ghost planned: seq<Plan>) returns (complete: bool)
      requires Running(lock, base, planned)
      modifies this`plans, disk`trees, disk`renames
      ensures Running(lock, base, planned)
      ensures complete ==> Restored(disk.trees, lock, base)
      ensures old(NothingMoved(plans)) ==>
        complete && disk.renames == old(disk.renames)
    {
      var index := |plans|;
      while index > 0
        invariant |plans| == old(|plans|) && forall i | 0 <= i < index :: plans[i] == old(plans[i])
        invariant old(NothingMoved(plans)) ==>
          disk.renames == old(disk.renames)
        invariant 0 <= index <= |plans| && Running(lock, base, planned)
        invariant forall i | index <= i < |plans| :: !plans[i].committed && plans[i].backup.None?
      {
        index := index - 1;
        var ok := Revert(base, lock, planned, index);
        if !ok {
          return false;
        }
      }
      assert forall i | 0 <= i < |plans| :: Evolved(plans[i], planned[i], base);
      UntouchedRestores(disk.trees, lock, base, plans);
      return true;
    }

    /** Where each visible package stands when a rollback stops early. */
    method RollbackStates(base: Target, ghost lock: Trees, ghost planned: seq<Plan>) returns (skills: seq<Skill>)
      requires Running(lock, base, planned)
      ensures ReportsTruth(disk.trees, lock, plans, skills)
    {
      skills := [];
      for i := 0 to |plans|
        invariant ReportsTruth(disk.trees, lock, plans[..i], skills)
      {
        assert plans[..i + 1][..i] == plans[..i];
        if !plans[i].hidden {
          RollbackStateTruthful(disk.trees, lock, plans[i]);
          skills := skills + [RollbackState(plans[i])];
        }
      }
      assert plans[..|plans|] == plans;
    }

    /** The deferred cleanup: deletes the stages this run made, and nothing else. */
    method CleanStages(ghost base: Target)
      requires disk.Valid() && forall i | 0 <= i < |plans| && plans[i].stage.Some? ::
        OwnStage(plans[i].stage.value, base)
      modifies disk`trees
      ensures disk.Valid() && Restored(disk.trees, old(disk.trees), base)
      ensures forall path: Path | (forall i | 0 <= i < |plans| :: plans[i].stage != Some(path)) ::
        At(disk.trees, path) == At(old(disk.trees), path)
    {
      for i := 0 to |plans|
        invariant disk.Valid()
        invariant forall path: Path | (forall j | 0 <= j < |plans| :: plans[j].stage != Some(path)) ::
          At(disk.trees, path) == At(old(disk.trees), path)
      {
        if plans[i].stage.Some? {
          ghost var earlier := disk.trees;
          var _ := disk.RemoveAll(plans[i].stage.value);
          assert forall path | path in disk.trees :: At(disk.trees, path).Some? && At(earlier, path).Some?;
        }
      }
    }

    /** Finishes plan `i`: deletes an unedited legacy package, keeps an edited one. */
    method FinishOne(i: nat)
      requires disk.Valid() && i < |plans|
      requires plans[i].remove && plans[i].before.Some? ==> plans[i].backup.Some? && plans[i].stage.None?
      modifies this`plans, disk`trees
      ensures disk.Valid() && |plans| == old(|plans|)
      ensures forall j | 0 <= j < |plans| && j != i :: plans[j] == old(plans[j])
      ensures plans[i].stage == old(plans[i].stage) && plans[i].hidden == old(plans[i].hidden)
      ensures FinalLine(old(plans[i]), plans[i].skill)
      ensures forall path: Path | !(Drops(old(plans[i])) && Some(path) == old(plans[i].backup)) ::
        At(disk.trees, path) == At(old(disk.trees), path)
    {
      if plans[i].remove && plans[i].before.Some? {
        if plans[i].skill.status == Divergent {
          plans := plans[i := plans[i].(skill := plans[i].skill.(status := BackedUp, backup := plans[i].backup))];
        } else {
          plans := plans[i := plans[i].(stage := plans[i].backup)];
          CleanupRemoval(i);
          plans := plans[i := plans[i].(stage := None, skill := plans[i].skill.(status := Removed))];
        }
      }
    }

    /** Deletes unedited legacy packages, keeps edited ones, and reports. */
    method FinishAll() returns (skills: seq<Skill>)
      requires disk.Valid()
      requires forall i | 0 <= i < |plans| && plans[i].remove && plans[i].before.Some? ::
        plans[i].backup.Some? && plans[i].stage.None?
      modifies this`plans, disk`trees
      ensures disk.Valid() && Dropping(disk.trees, old(disk.trees), old(plans), |old(plans)|)
      ensures |plans| == old(|plans|) && forall i | 0 <= i < |plans| :: plans[i].stage == old(plans[i].stage)
      ensures FinalLines(old(plans), skills)
    {
      skills := [];
      ghost var moved := plans;
      for i := 0 to |plans|
        invariant disk.Valid() && |plans| == |moved|
        invariant Dropping(disk.trees, old(disk.trees), moved, i)
        invariant forall j | 0 <= j < i :: plans[j].stage == moved[j].stage
        invariant forall j | i <= j < |plans| :: plans[j] == moved[j]
        invariant FinalLines(moved[..i], skills)
      {
        FinishOne(i);
        ghost var reported := skills;
        if !plans[i].hidden {
          skills := skills + [plans[i].skill];
        }
        FinalLinesMore(moved, i, plans[i].skill, reported, skills);
      }
      assert moved[..|moved|] == moved;
    }

    method Finish(base: Target, ghost lock: Trees, ghost planned: seq<Plan>) returns (skills: seq<Skill>)
      requires Running(lock, base, planned) && Planned(planned)
      requires AllLanded(plans, planned)
      modifies this`plans, disk`trees
      ensures disk.Valid() && Dropping(disk.trees, old(disk.trees), old(plans), |old(plans)|)
      ensures |plans| == |planned| && forall i | 0 <= i < |plans| :: plans[i].stage == old(plans[i].stage)
      ensures ReportsTruth(disk.trees, lock, planned, skills) && FinalLines(old(plans), skills)
    {
      ghost var landed, moved := disk.trees, plans;
      assert forall i | 0 <= i < |plans| :: Evolved(plans[i], planned[i], base) && Landed(plans[i], planned[i]);
      skills := FinishAll();
      FinalReport(disk.trees, landed, disk.next, lock, base, moved, planned, skills);
    }

    /** Deletes a displaced package; one that cannot be deleted is reported as kept. */
    method CleanupRemoval(i: nat)
      requires disk.Valid() && i < |plans| && plans[i].stage.Some?
      modifies this`plans, disk`trees
      ensures disk.Valid()
      ensures forall path: Path | Some(path) != old(plans[i].stage) :: At(disk.trees, path) == At(old(disk.trees), path)
      ensures plans == old(plans)
        || plans == old(plans)[i := old(plans[i]).(skill := old(plans[i].skill).(backup := old(plans[i].stage)))]
    {
      ghost var earlier := disk.trees;
      var ok := disk.RemoveAll(plans[i].stage.value);
      assert forall path | path in disk.trees :: At(disk.trees, path).Some? && At(earlier, path).Some?;
      if !ok {
        plans := plans[i := plans[i].(skill := plans[i].skill.(backup := plans[i].stage))];
      }
    }

    /** The digests a receipt registers: one for each package that stays. */
    method Digests(ghost base: Target, ghost planned: seq<Plan>) returns (packages: Packages)
      requires |plans| == |planned| >= 2 && forall i | 0 <= i < |plans| :: Evolved(plans[i], planned[i], base)
      requires !planned[0].remove && !planned[1].remove && forall i | 2 <= i < |planned| :: planned[i].remove
      requires planned[0].skill.name == Tadx && planned[1].skill.name == TadxPulse
      requires planned[0].skill.sha.Some? && planned[1].skill.sha.Some?
      ensures packages == map[Tadx := planned[0].skill.sha.value, TadxPulse := planned[1].skill.sha.value]
    {
      packages := map[];
      for i := 0 to |plans|
        invariant i == 0 ==> packages == map[]
        invariant i == 1 ==> packages == map[Tadx := planned[0].skill.sha.value]
        invariant i >= 2 ==>
          packages == map[Tadx := planned[0].skill.sha.value, TadxPulse := planned[1].skill.sha.value]
      {
        assert Evolved(plans[i], planned[i], base);
        if !plans[i].remove {
          packages := packages[plans[i].skill.name := plans[i].skill.sha.value];
        }
      }
    }

    /** Everything before the first move: clean up after interrupted runs, check
        that planning is still current, stage, and validate. */
    method Prepare(target: Target, receipt: Option<Packages>, ghost planned: seq<Plan>) returns (ok: bool)
      requires disk.Valid() && plans == planned && Planned(planned)
      modifies this`plans, disk`trees, disk`next
      ensures disk.Valid() && |plans| == |planned|
      ensures forall i | 0 <= i < |plans| && plans[i].stage.Some? :: OwnStage(plans[i].stage.value, target)
      ensures !ok ==> Restored(disk.trees, old(disk.trees), target)
      ensures ok && (exists i | 0 <= i < |planned| :: planned[i].remove) ==> !Registered(disk.receipts, LEGACY_BASE)
      ensures ok ==> Running(old(disk.trees), target, planned) && AllWaiting(plans, planned)
      ensures disk.smooth && Current(old(disk.trees), old(disk.receipts), planned, target, receipt) ==> ok
    {
      ghost var lock := disk.trees;
      RemoveAbandonedStages(target);
      assert forall i | 0 <= i < |plans| :: Fresh(planned[i]);
      ok := LegacyOwnershipUnchanged();
      if !ok {
        return;
      }
      ok := ReceiptUnchanged(target, receipt);
      if !ok {
        return;
      }
      ok := StageAll(target, lock, planned);
      if !ok {
        return;
      }
      StagedAsPlanned(disk.trees, disk.next, plans, lock, target, planned);
      ok := ValidateAll();
      if ok {
        StagedRuns(disk.trees, disk.next, plans, lock, target, planned);
      }
    }

    /** Registers exactly the packages of this install. */
    method PublishReceipt(target: Target, ghost lock: Trees, ghost planned: seq<Plan>) returns (ok: bool)
      requires Running(lock, target, planned) && InstallShape(planned, target, bundle)
      modifies disk`next, disk`drafts, disk`receipts
      ensures Running(lock, target, planned)
      ensures ok ==>
        disk.receipts == old(disk.receipts)[target := Receipt(map[Tadx := bundle.tadx, TadxPulse := bundle.pulse])]
      ensures !ok ==> disk.receipts == old(disk.receipts)
      ensures disk.smooth ==> ok
    {
      assert forall i | 0 <= i < |plans| :: Evolved(plans[i], planned[i], target);
      assert planned[0].skill.sha == Some(bundle.tadx) && planned[1].skill.sha == Some(bundle.pulse) by {
        assert Fresh(planned[0]) && Fresh(planned[1]);
      }
      var packages := Digests(target, planned);
      ok := disk.WriteReceipt(target, packages);
    }

    /** Moves the packages and writes the receipt, or undoes every move. */
    method CommitOrRollBack(target: Target, ghost lock: Trees, ghost planned: seq<Plan>)
        returns (committed: bool, complete: bool)
      requires Running(lock, target, planned) && InstallShape(planned, target, bundle)
      requires AllWaiting(plans, planned)
      modifies this`plans, disk
      ensures Running(lock, target, planned)
      ensures committed ==> AllLanded(plans, planned)
      ensures committed ==>
        disk.receipts == old(disk.receipts)[target := Receipt(map[Tadx := bundle.tadx, TadxPulse := bundle.pulse])]
      ensures !committed ==> disk.receipts == old(disk.receipts)
      ensures !committed && complete ==> Restored(disk.trees, lock, target)
      ensures AllIdle(planned) ==>
        disk.renames == old(disk.renames) && (!committed ==> complete)
      ensures disk.smooth ==> committed
    {
      complete := true;
      committed := CommitAll(target, lock, planned);
      if committed {
        IdleLanded(plans, planned);
        committed := PublishReceipt(target, lock, planned);
      }
      if !committed {
        complete := Rollback(target, lock, planned);
      }
    }

    /** Reports a rollback that stopped, then deletes this run's stages. */
    method StopHalfway(target: Target, ghost lock: Trees, ghost planned: seq<Plan>) returns (skills: seq<Skill>)
      requires Running(lock, target, planned) && Planned(planned)
      modifies disk`trees
      ensures disk.Valid() && PartialRun(disk.trees, lock, target, planned, skills)
    {
      assert forall i | 0 <= i < |plans| :: Evolved(plans[i], planned[i], target);
      ghost var stopped := disk.trees;
      skills := RollbackStates(target, lock, planned);
      PartialReport(stopped, disk.next, lock, target, plans, planned, skills);
      CleanStages(target);
      PartialStays(disk.trees, stopped, lock, target, planned, skills);
    }

    /** Finishes a committed install, then deletes this run's stages. */
    method Succeed(
      target: Target, ghost lock: Trees, ghost planned: seq<Plan>, ghost trees0: Trees, ghost receipts0: Receipts)
      returns (skills: seq<Skill>)
      requires Running(lock, target, planned) && planned == InstallPlans(target, bundle, known, trees0, receipts0)
      requires AllLanded(plans, planned)
      modifies this`plans, disk`trees
      ensures disk.Valid() && CompleteInstall(disk.trees, lock, target, bundle, known, planned, skills)
      ensures ReportsInstall(skills, target, bundle, known, trees0, receipts0, lock, true)
    {
      PlannedShape(target, bundle, known, trees0, receipts0);
      EvolvedStages(plans, planned, target);
      skills := FinishInstall(target, lock, planned, trees0, receipts0);
      ghost var finished := disk.trees;
      CleanStages(target);
      CompleteStays(disk.trees, finished, lock, target, bundle, known, planned, skills);
    }

    /** Finishes a committed install; the stages are still there. */
    method FinishInstall(
      target: Target, ghost lock: Trees, ghost planned: seq<Plan>, ghost trees0: Trees, ghost receipts0: Receipts)
      returns (skills: seq<Skill>)
      requires Running(lock, target, planned) && planned == InstallPlans(target, bundle, known, trees0, receipts0)
      requires AllLanded(plans, planned) && Planned(planned)
      modifies this`plans, disk`trees
      ensures disk.Valid() && CompleteInstall(disk.trees, lock, target, bundle, known, planned, skills)
      ensures ReportsInstall(skills, target, bundle, known, trees0, receipts0, lock, true)
      ensures |plans| == |old(plans)| && forall i | 0 <= i < |plans| :: plans[i].stage == old(plans)[i].stage
    {
      ghost var landed, moved := disk.trees, plans;
      skills := Finish(target, lock, planned);
      CompleteReport(disk.trees, landed, disk.next, lock, target, bundle, known, moved, planned, skills, trees0,
        receipts0);
      InstallPlansMean(target, bundle, known, trees0, receipts0);
      InstallTells(landed, disk.next, lock, target, bundle, known, moved, planned, skills, trees0, receipts0);
    }

    /** The whole transaction, from the moment the locks are held. `trees0` and
        `receipts0` are what planning saw. */
    method Transact(target: Target, receipt: Option<Packages>, ghost trees0: Trees, ghost receipts0: Receipts)
        returns (out: Outcome)
      requires disk.Valid() && plans == InstallPlans(target, bundle, known, trees0, receipts0)
      modifies this`plans, disk
      ensures disk.Valid()
      ensures !out.Done? ==> disk.receipts == old(disk.receipts)
      ensures out.Failed? ==> Restored(disk.trees, old(disk.trees), target)
      ensures out.Partial? ==> PartialRun(disk.trees, old(disk.trees), target, old(plans), out.skills)
      ensures out.Done? ==>
        disk.receipts == old(disk.receipts)[target := Receipt(map[Tadx := bundle.tadx, TadxPulse := bundle.pulse])]
      ensures out.Done? ==> CompleteInstall(disk.trees, old(disk.trees), target, bundle, known, old(plans), out.skills)
      ensures out.Done? ==>
        ReportsInstall(out.skills, target, bundle, known, trees0, receipts0, old(disk.trees), true)
      ensures out.Done? ==>
        out.status ==
          if AllIdle(old(plans)) then NothingToDo else PackagesInstalled
      ensures AllIdle(old(plans)) ==>
        disk.renames == old(disk.renames) && !out.Partial?
      ensures
        (exists i | 0 <= i < |old(plans)| :: old(plans)[i].remove) && Registered(old(disk.receipts), LEGACY_BASE) ==>
          out.Failed? && disk.renames == old(disk.renames)
      ensures disk.smooth && Current(old(disk.trees), old(disk.receipts), old(plans), target, receipt) ==> out.Done?
    {
      ghost var lock, planned := disk.trees, plans;
      PlannedInstall(target, bundle, known, trees0, receipts0);
      var changed := !AllIdle(plans);
      var ok := Prepare(target, receipt, planned);
      if !ok {
        CleanStages(target);
        return Failed;
      }
      var status := if changed then PackagesInstalled else NothingToDo;
      out := CommitPrepared(target, status, lock, planned, trees0, receipts0);
    }

    /** What is left after a rollback, complete or not. */
    method Undo(target: Target, complete: bool, ghost lock: Trees, ghost planned: seq<Plan>) returns (out: Outcome)
      requires Running(lock, target, planned) && Planned(planned)
      requires complete ==> Restored(disk.trees, lock, target)
      modifies disk`trees
      ensures disk.Valid() && !out.Done? && (complete ==> out.Failed?)
      ensures out.Failed? ==> Restored(disk.trees, lock, target)
      ensures out.Partial? ==> PartialRun(disk.trees, lock, target, planned, out.skills)
    {
      if complete {
        EvolvedStages(plans, planned, target);
        CleanStages(target);
        return Failed;
      }
      var skills := StopHalfway(target, lock, planned);
      return Partial(skills);
    }

    /** The transaction once everything is staged and validated. */
    method CommitPrepared(
      target: Target, status: RunStatus, ghost lock: Trees, ghost planned: seq<Plan>, ghost trees0: Trees,
      ghost receipts0: Receipts)
        returns (out: Outcome)
      requires planned == InstallPlans(target, bundle, known, trees0, receipts0)
      requires InstallShape(planned, target, bundle)
      requires Running(lock, target, planned) && AllWaiting(plans, planned)
      modifies this`plans, disk
      ensures disk.Valid()
      ensures !out.Done? ==> disk.receipts == old(disk.receipts)
      ensures out.Failed? ==> Restored(disk.trees, lock, target)
      ensures out.Partial? ==> PartialRun(disk.trees, lock, target, planned, out.skills)
      ensures out.Done? ==>
        disk.receipts == old(disk.receipts)[target := Receipt(map[Tadx := bundle.tadx, TadxPulse := bundle.pulse])]
      ensures out.Done? ==>
        && CompleteInstall(disk.trees, lock, target, bundle, known, planned, out.skills)
        && ReportsInstall(out.skills, target, bundle, known, trees0, receipts0, lock, true)
        && out.status == status
      ensures AllIdle(planned) ==> disk.renames == old(disk.renames) && !out.Partial?
      ensures disk.smooth ==> out.Done?
    {
      var committed, complete := CommitOrRollBack(target, lock, planned);
      out := Conclude(target, status, committed, complete, lock, planned, trees0, receipts0);
    }

    /** Finishes what was committed, or reports what was undone. */
    method Conclude(
      target: Target, status: RunStatus, committed: bool, complete: bool, ghost lock: Trees, ghost planned: seq<Plan>,
      ghost trees0: Trees, ghost receipts0: Receipts)
        returns (out: Outcome)
      requires planned == InstallPlans(target, bundle, known, trees0, receipts0) && Planned(planned)
      requires Running(lock, target, planned) && (committed ==> AllLanded(plans, planned))
      requires !committed && complete ==> Restored(disk.trees, lock, target)
      modifies this`plans, disk`trees
      ensures disk.Valid() && (out.Done? <==> committed) && (!committed && complete ==> out.Failed?)
      ensures out.Failed? ==> Restored(disk.trees, lock, target)
      ensures out.Partial? ==> PartialRun(disk.trees, lock, target, planned, out.skills)
      ensures out.Done? ==>
        && CompleteInstall(disk.trees, lock, target, bundle, known, planned, out.skills)
        && ReportsInstall(out.skills, target, bundle, known, trees0, receipts0, lock, true)
        && out.status == status
    {
      if committed {
        var skills := Succeed(target, lock, planned, trees0, receipts0);
        out := Done(status, skills);
      } else {
        out := Undo(target, complete, lock, planned);
      }
    }

    /** The planned changes that a preview shows. */
    method ShowSkills() returns (skills: seq<Skill>)
      ensures skills == VisibleSkills(plans)
    {
      skills := [];
      for i := 0 to |plans|
        invariant skills == VisibleSkills(plans[..i])
      {
        assert plans[..i + 1][..i] == plans[..i];
        if !plans[i].hidden {
          skills := skills + [plans[i].skill];
        }
      }
      assert plans[..|plans|] == plans;
    }

    /** Plans, locks and runs one install. `locked` and `lockedReceipts` are the
        disk at the moment the locks were taken, or at the start of a run that
        never took them. */
    method Install(target: Target, preview: bool)
        returns (out: Outcome, ghost locked: Trees, ghost lockedReceipts: Receipts)
      requires disk.Valid()
      modifies this`plans, disk
      ensures disk.Valid()
      ensures disk.quiet ==> locked == old(disk.trees) && lockedReceipts == old(disk.receipts)
      ensures preview ==> disk.trees == old(disk.trees) && disk.receipts == old(disk.receipts)
      ensures preview ==>
                out == Failed
                  || out == Done(Preview, VisibleSkills(plansOf(target, old(disk.trees), old(disk.receipts))))
      ensures preview && out.Done? ==>
        ReportsInstall(out.skills, target, bundle, known, old(disk.trees), old(disk.receipts), old(disk.trees), false)
      ensures !preview && !out.Done? ==> disk.receipts == lockedReceipts
      ensures !preview && out.Failed? ==> Restored(disk.trees, locked, target)
      ensures !preview && out.Partial? ==>
        PartialRun(disk.trees, locked, target, plansOf(target, old(disk.trees), old(disk.receipts)), out.skills)
      ensures !preview && out.Done? ==>
        CompleteInstall(disk.trees, locked, target, bundle, known,
        plansOf(target, old(disk.trees), old(disk.receipts)), out.skills)
      ensures !preview && out.Done? ==>
        ReportsInstall(out.skills, target, bundle, known, old(disk.trees), old(disk.receipts), locked, true)
      ensures !preview && out.Done? ==>
        disk.receipts == lockedReceipts[target := Receipt(map[Tadx := bundle.tadx, TadxPulse := bundle.pulse])]
      ensures !preview && out.Done? && disk.quiet ==> Settled(target, bundle, disk.trees, disk.receipts)
      ensures Settled(target, bundle, old(disk.trees), old(disk.receipts)) ==>
                disk.renames == old(disk.renames) && !out.Partial?
                  && (out.Done? && !preview ==> out.status == NothingToDo)
      ensures disk.smooth && ReadableFor(target, old(disk.receipts)) && (preview || disk.quiet) ==> out.Done?
    {
      locked, lockedReceipts := disk.trees, disk.receipts;
      ghost var trees0, receipts0 := disk.trees, disk.receipts;
      var ok, receipt := PlanInstall(target);
      if !ok {
        return Failed, locked, lockedReceipts;
      }
      if preview {
        var skills := ShowSkills();
        PreviewedInstall(target, bundle, known, trees0, receipts0);
        return Done(Preview, skills), locked, lockedReceipts;
      }
      if ReadableFor(target, disk.receipts) {
        PlannedCurrent(target, bundle, known, trees0, receipts0, receipt);
      }
      out, locked, lockedReceipts := LockAndTransact(target, receipt, trees0, receipts0);
      if out.Done? && disk.quiet {
        CompleteSettles(disk.trees, locked, target, bundle, known, trees0, receipts0, out.skills);
      }
    }

    /** The part of an install under the locks. */
    method LockAndTransact(target: Target, receipt: Option<Packages>, ghost trees0: Trees, ghost receipts0: Receipts)
      returns (out: Outcome, ghost locked: Trees, ghost lockedReceipts: Receipts)
      requires disk.Valid() && plans == plansOf(target, trees0, receipts0)
      modifies this`plans, disk
      ensures disk.Valid()
      ensures disk.quiet ==> locked == old(disk.trees) && lockedReceipts == old(disk.receipts)
      ensures !out.Done? ==> disk.receipts == lockedReceipts
      ensures out.Failed? ==> Restored(disk.trees, locked, target)
      ensures out.Partial? ==> PartialRun(disk.trees, locked, target, plansOf(target, trees0, receipts0), out.skills)
      ensures out.Done? ==>
        CompleteInstall(disk.trees, locked, target, bundle, known, plansOf(target, trees0, receipts0), out.skills)
      ensures out.Done? ==> ReportsInstall(out.skills, target, bundle, known, trees0, receipts0, locked, true)
      ensures out.Done? ==>
        disk.receipts == lockedReceipts[target := Receipt(map[Tadx := bundle.tadx, TadxPulse := bundle.pulse])]
      ensures Settled(target, bundle, trees0, receipts0) ==>
                disk.renames == old(disk.renames) && !out.Partial? && (out.Done? ==> out.status == NothingToDo)
      ensures disk.smooth && Current(locked, lockedReceipts, old(plans), target, receipt) ==> out.Done?
    {
      SettledIdle(target, bundle, known, trees0, receipts0);
      locked, lockedReceipts := disk.trees, disk.receipts;
      var ok := disk.Step();
      if !ok {
        return Failed, locked, lockedReceipts;
      }
      ok := disk.AcquireLocks(target);
      locked, lockedReceipts := disk.trees, disk.receipts;
      if !ok {
        return Failed, locked, lockedReceipts;
      }
      out := Transact(target, receipt, trees0, receipts0);
    }

    ghost function plansOf(target: Target, trees: Trees, receipts: Receipts): seq<Plan> {
      InstallPlans(target, bundle, known, trees, receipts)
    }

    /** Installing twice: the second run finds nothing to do and moves nothing; `moves` counts the renames
        made by the time the first is done. */
    method InstallTwice(target: Target) returns (first: Outcome, second: Outcome, ghost moves: nat)
      requires disk.Valid() && disk.quiet
      modifies this`plans, disk
      ensures first.Done? ==> disk.renames == moves
      ensures first.Done? && second.Done? ==> second.status == NothingToDo
      ensures first.Done? ==> !second.Partial? && Settled(target, bundle, disk.trees, disk.receipts)
      ensures disk.smooth && ReadableFor(target, old(disk.receipts)) ==> first.Done? && second.Done?
    {
      ghost var locked, lockedReceipts;
      first, locked, lockedReceipts := Install(target, false);
      moves := disk.renames;
      second, locked, lockedReceipts := Install(target, false);
    }
  }
}
