/** Package plans (internal/agent), the disk they describe at every point of a
    transaction, and what a report about them claims. */
module SkillPlans {
  import opened Common
  import opened SkillDisk

  datatype Status =
    | Install | Replace | Upgrade | Remove | Divergent          // before the transaction
    | Unchanged | Absent                                        // nothing to do
    | Installed | Replaced | BackedUp | Removed                 // after it

  datatype Skill = Skill(name: Name, path: Path, status: Status, sha: Option<Tree>, files: nat, backup: Option<Path>)

  datatype Plan = Plan(
    skill: Skill, files: Tree, before: Option<Tree>, stage: Option<Path>, backup: Option<Path>,
    committed: bool, remove: bool, hidden: bool)

  /** The embedded packages. */
  datatype Bundle = Bundle(tadx: Tree, pulse: Tree) {
    function Files(name: Name): Tree {
      match name
      case Tadx => tadx
      case TadxPulse => pulse
    }
  }

  const NAMES := [Tadx, TadxPulse]

  predicate Registers(packages: Packages, name: Name, tree: Tree) {
    name in packages && packages[name] == tree
  }

  // ----- Planning -----

  function InstallPlan(target: Target, name: Name, files: Tree, before: Option<Tree>, receipt: Packages): Plan {
    var status :=
      if before == Some(files) then Unchanged
      else if before.None? then Install
      else if Registers(receipt, name, before.value) then Upgrade
      else Replace;
    Plan(Skill(name, Package(target, name), status, Some(files), |files|, None), files, before, None, None, false,
      false, false)
  }

  function UninstallPlan(target: Target, name: Name, files: Tree, before: Option<Tree>, receipt: Packages): Plan {
    var status :=
      if before.None? then Absent
      else if before.value != files && !Registers(receipt, name, before.value) then Divergent
      else Remove;
    Plan(Skill(name, Package(target, name), status, before, 0, None), map[], before, None, None, false, false, false)
  }

  /** A package an older Codex install left in the portable root. */
  function LegacyPlan(name: Name, files: Tree, before: Option<Tree>, known: set<(Name, Tree)>): Plan {
    var status :=
      if before.None? then Absent
      else if before.value == files || (name, before.value) in known then Remove
      else Divergent;
    Plan(Skill(name, Package(LEGACY_BASE, name), status, before, 0, None), map[], before, None, None, false, true,
      before.None?)
  }

  function LegacyPlans(bundle: Bundle, known: set<(Name, Tree)>, trees: Trees, receipts: Receipts): seq<Plan> {
    if Registered(receipts, LEGACY_BASE) then []
    else
      [LegacyPlan(Tadx, bundle.tadx, At(trees, Package(LEGACY_BASE, Tadx)), known),
       LegacyPlan(TadxPulse, bundle.pulse, At(trees, Package(LEGACY_BASE, TadxPulse)), known)]
  }

  function InstallPlans(
    target: Target, bundle: Bundle, known: set<(Name, Tree)>, trees: Trees, receipts: Receipts): seq<Plan>
  {
    var receipt := PackagesOf(receipts, target);
    [InstallPlan(target, Tadx, bundle.tadx, At(trees, Package(target, Tadx)), receipt),
     InstallPlan(target, TadxPulse, bundle.pulse, At(trees, Package(target, TadxPulse)), receipt)]
    + (if target.Codex? then LegacyPlans(bundle, known, trees, receipts) else [])
  }

  function UninstallPlans(
    target: Target, bundle: Bundle, known: set<(Name, Tree)>, trees: Trees, receipts: Receipts): seq<Plan>
  {
    var receipt := PackagesOf(receipts, target);
    [UninstallPlan(target, Tadx, bundle.tadx, At(trees, Package(target, Tadx)), receipt),
     UninstallPlan(target, TadxPulse, bundle.pulse, At(trees, Package(target, TadxPulse)), receipt)]
    + (if target.Codex? then LegacyPlans(bundle, known, trees, receipts) else [])
  }

  // ----- What planning decides -----

  /** The portable root is looked at too: by Codex, unless that root registers packages of its own. */
  predicate LooksBack(target: Target, receipts: Receipts) {
    target.Codex? && PackagesOf(receipts, LEGACY_BASE) == map[]
  }

  /** The packages that planning looks at. */
  function Looked(target: Target, receipts: Receipts): (paths: seq<Path>)
    ensures |paths| == if LooksBack(target, receipts) then 4 else 2
  {
    [Package(target, Tadx), Package(target, TadxPulse)]
    + (if LooksBack(target, receipts) then [Package(LEGACY_BASE, Tadx), Package(LEGACY_BASE, TadxPulse)] else [])
  }

  /** The packages that a report lists: the target's own, and those of the portable root that are there. */
  function Listed(target: Target, trees: Trees, receipts: Receipts): seq<Path> {
    var back := LooksBack(target, receipts);
    [Package(target, Tadx), Package(target, TadxPulse)]
    + (if back && Package(LEGACY_BASE, Tadx) in trees then [Package(LEGACY_BASE, Tadx)] else [])
    + (if back && Package(LEGACY_BASE, TadxPulse) in trees then [Package(LEGACY_BASE, TadxPulse)] else [])
  }

  /** A tree that was found is this program's own: the bundle's, in the target the one its receipt registers, and in
      the portable root one of a known release. */
  predicate Ours(
    target: Target, bundle: Bundle, known: set<(Name, Tree)>, receipts: Receipts, path: Path, found: Option<Tree>)
  {
    && path.Package? && found.Some?
    && var registered := PackagesOf(receipts, target);
      || found.value == (if path.name == Tadx then bundle.tadx else bundle.pulse)
      || (path.base == target && path.name in registered && registered[path.name] == found.value)
      || (path.base != target && (path.name, found.value) in known)
  }

  /** A removal is judged by what was found: absent, to be removed if it is ours, and to be kept otherwise. */
  predicate JudgedRemoval(skill: Skill, path: Path, found: Option<Tree>, ours: bool, remove: Status, keep: Status) {
    && path.Package? && skill.path == path && skill.name == path.name && skill.sha == found
    && (skill.status == Absent <==> found.None?)
    && (skill.status == remove <==> found.Some? && ours)
    && (skill.status == keep <==> found.Some? && !ours)
  }

  /** A package that is to be installed is judged by what was found: what is installed is always the bundle's. */
  predicate JudgedInstall(skill: Skill, path: Path, found: Option<Tree>, files: Tree, receipt: Packages) {
    && path.Package? && skill.path == path && skill.name == path.name && skill.sha == Some(files)
    && skill.files == |files|
    && (skill.status == Unchanged <==> found == Some(files))
    && (skill.status == Install <==> found.None?)
    && var other := found.Some? && found.value != files;
      && (skill.status == Upgrade <==>
        other && path.name in receipt && receipt[path.name] == found.value)
      && (skill.status == Replace <==>
        other && !(path.name in receipt && receipt[path.name] == found.value))
  }

  /** And by the time it is done. */
  predicate JudgedInstalled(skill: Skill, path: Path, found: Option<Tree>, files: Tree) {
    && path.Package? && skill.path == path && skill.name == path.name && skill.sha == Some(files)
    && skill.files == |files|
    && (skill.status == Unchanged <==> found == Some(files))
    && (skill.status == Installed <==> found.None?)
    && (skill.status == Replaced <==> found.Some? && found.value != files)
  }

  /** A plan to remove the package at this path. */
  predicate PlansRemoval(
    plan: Plan, path: Path, target: Target, bundle: Bundle, known: set<(Name, Tree)>, trees: Trees, receipts: Receipts)
  {
    && plan.before == At(trees, path)
    && JudgedRemoval(plan.skill, path, plan.before, Ours(target, bundle, known, receipts, path, plan.before),
                     Remove, Divergent)
    && (plan.hidden <==> path.base != target && path !in trees)
  }

  /** A plan to install the package at this path. */
  predicate PlansInstall(plan: Plan, path: Path, files: Tree, trees: Trees, receipt: Packages) {
    && plan.before == At(trees, path) && plan.files == files && !plan.remove && !plan.hidden
    && JudgedInstall(plan.skill, path, plan.before, files, receipt)
  }

  /** The plans of an uninstall, one for each package that is looked at. */
  ghost predicate RemovalsPlanned(
    plans: seq<Plan>, target: Target, bundle: Bundle, known: set<(Name, Tree)>, trees: Trees, receipts: Receipts)
  {
    var paths := Looked(target, receipts);
    && |plans| == |paths|
    && forall i | 0 <= i < |plans| :: PlansRemoval(plans[i], paths[i], target, bundle, known, trees, receipts)
  }

  /** The plans of an install: the target's packages, and the removal of those in the portable root. */
  ghost predicate InstallsPlanned(
    plans: seq<Plan>, target: Target, bundle: Bundle, known: set<(Name, Tree)>, trees: Trees, receipts: Receipts)
  {
    var paths, receipt := Looked(target, receipts), PackagesOf(receipts, target);
    && |plans| == |paths|
    && PlansInstall(plans[0], paths[0], bundle.tadx, trees, receipt)
    && PlansInstall(plans[1], paths[1], bundle.pulse, trees, receipt)
    && forall i | 2 <= i < |plans| ::
      plans[i].remove && PlansRemoval(plans[i], paths[i], target, bundle, known, trees, receipts)
  }

  lemma InstallPlanMeans(target: Target, name: Name, files: Tree, trees: Trees, receipt: Packages)
    ensures var path := Package(target, name);
      PlansInstall(InstallPlan(target, name, files, At(trees, path), receipt), path, files, trees, receipt)
  {
  }

  lemma UninstallPlanMeans(
    target: Target, name: Name, bundle: Bundle, known: set<(Name, Tree)>, trees: Trees, receipts: Receipts)
    ensures var path := Package(target, name);
      PlansRemoval(UninstallPlan(target, name, bundle.Files(name), At(trees, path), PackagesOf(receipts, target)), path,
        target, bundle, known, trees, receipts)
  {
  }

  lemma LegacyPlanMeans(
    name: Name, target: Target, bundle: Bundle, known: set<(Name, Tree)>, trees: Trees, receipts: Receipts)
    requires target != LEGACY_BASE
    ensures var path, plan := Package(LEGACY_BASE, name),
      LegacyPlan(name, bundle.Files(name), At(trees, Package(LEGACY_BASE, name)), known);
      PlansRemoval(plan, path, target, bundle, known, trees, receipts) && plan.remove
  {
  }

  lemma {:induction false} LegacyPlansMean(
    target: Target, bundle: Bundle, known: set<(Name, Tree)>, trees: Trees, receipts: Receipts)
    requires target.Codex?
    ensures var plans, paths := LegacyPlans(bundle, known, trees, receipts), Looked(target, receipts)[2..];
      && |plans| == |paths|
      && forall i | 0 <= i < |plans| ::
        plans[i].remove && PlansRemoval(plans[i], paths[i], target, bundle, known, trees, receipts)
  {
    LegacyPlanMeans(Tadx, target, bundle, known, trees, receipts);
    LegacyPlanMeans(TadxPulse, target, bundle, known, trees, receipts);
  }

  /** An uninstall plans to remove exactly the packages that are ours, and to keep the others. */
  lemma {:induction false} UninstallPlansMean(
    target: Target, bundle: Bundle, known: set<(Name, Tree)>, trees: Trees, receipts: Receipts)
    ensures RemovalsPlanned(UninstallPlans(target, bundle, known, trees, receipts), target, bundle, known, trees,
      receipts)
  {
    UninstallPlanMeans(target, Tadx, bundle, known, trees, receipts);
    UninstallPlanMeans(target, TadxPulse, bundle, known, trees, receipts);
    if target.Codex? {
      LegacyPlansMean(target, bundle, known, trees, receipts);
    }
  }

  /** An install tells unchanged, new, upgraded and replaced packages apart, and removes legacy ones that are ours. */
  lemma {:induction false} InstallPlansMean(
    target: Target, bundle: Bundle, known: set<(Name, Tree)>, trees: Trees, receipts: Receipts)
    ensures InstallsPlanned(InstallPlans(target, bundle, known, trees, receipts), target, bundle, known, trees,
      receipts)
  {
    InstallPlanMeans(target, Tadx, bundle.tadx, trees, PackagesOf(receipts, target));
    InstallPlanMeans(target, TadxPulse, bundle.pulse, trees, PackagesOf(receipts, target));
    if target.Codex? {
      LegacyPlansMean(target, bundle, known, trees, receipts);
      var plans, legacy := InstallPlans(target, bundle, known, trees, receipts),
        LegacyPlans(bundle, known, trees, receipts);
      assert forall i | 2 <= i < |plans| :: plans[i] == legacy[i - 2];
    }
  }

  /** Plans for the packages that are looked at, where only absent ones of the portable root are hidden. */
  ghost predicate PlansFor(plans: seq<Plan>, target: Target, trees: Trees, receipts: Receipts) {
    var paths := Looked(target, receipts);
    && |plans| == |paths|
    && (forall i | 0 <= i < |plans| :: plans[i].skill.path == paths[i])
    && (forall i | 0 <= i < |plans| :: plans[i].hidden <==> i >= 2 && paths[i] !in trees)
  }

  lemma VisibleMore(plans: seq<Plan>, plan: Plan)
    ensures Visible(plans + [plan]) == Visible(plans) + if plan.hidden then [] else [plan]
  {
    assert (plans + [plan])[..|plans|] == plans;
  }

  /** The visible ones of such plans are for the packages that a report lists. */
  lemma {:induction false} VisibleListed(plans: seq<Plan>, target: Target, trees: Trees, receipts: Receipts)
    requires PlansFor(plans, target, trees, receipts)
    ensures |Visible(plans)| == |Listed(target, trees, receipts)|
    ensures forall k | 0 <= k < |Visible(plans)| :: Visible(plans)[k].skill.path == Listed(target, trees, receipts)[k]
  {
    var own := [plans[0]] + [plans[1]];
    VisibleMore([], plans[0]);
    VisibleMore([plans[0]], plans[1]);
    assert [] + [plans[0]] == [plans[0]];
    if |plans| == 4 {
      VisibleMore(own, plans[2]);
      VisibleMore(own + [plans[2]], plans[3]);
      assert plans == own + [plans[2]] + [plans[3]];
    } else {
      assert plans == own;
    }
  }

  // ----- The disk behind a set of plans -----

  ghost predicate OwnStage(path: Path, base: Target) {
    path.Stage? && path.base == base
  }

  ghost function Owned(plan: Plan): set<Path> {
    {plan.skill.path}
    + (if plan.stage.Some? then {plan.stage.value} else {})
    + (if plan.backup.Some? then {plan.backup.value} else {})
  }

  /** A place outside skill discovery that keeps the package found at `path`. */
  ghost predicate KeepsFor(place: Path, path: Path) {
    path.Package? && (place.Backup? || place.Staging?) && place.base == path.base && place.name == path.name
  }

  /** `trees` shows this plan's package exactly where the plan says it is, given
      the disk `lock` at the moment the locks were taken. */
  ghost predicate Tracked(trees: Trees, lock: Trees, plan: Plan) {
    var path := plan.skill.path;
    && path.Package?
    && At(lock, path) == plan.before
    && (plan.backup.Some? ==>
         && plan.before.Some?
         && KeepsFor(plan.backup.value, path)
         && plan.backup.value !in lock
         && At(trees, plan.backup.value) == plan.before)
    && (plan.stage.Some? ==>
         && plan.stage.value.Stage?
         && At(trees, plan.stage.value) == if plan.committed then None else Some(plan.files))
    && (plan.committed ==> plan.stage.Some? && (plan.backup.Some? <==> plan.before.Some?))
    && At(trees, path) ==
       if plan.committed then Some(plan.files) else if plan.backup.Some? then None else plan.before
  }

  ghost predicate Separate(plans: seq<Plan>) {
    forall i, j | 0 <= i < |plans| && 0 <= j < |plans| && i != j :: Owned(plans[i]) !! Owned(plans[j])
  }

  ghost predicate Foreign(path: Path, base: Target, plans: seq<Plan>) {
    !OwnStage(path, base) && forall i | 0 <= i < |plans| :: path !in Owned(plans[i])
  }

  /** The transaction invariant: every plan is tracked, no two plans share a
      directory, and every other directory is as it was under the locks. */
  ghost predicate Follows(trees: Trees, lock: Trees, base: Target, plans: seq<Plan>) {
    && (forall i | 0 <= i < |plans| :: Tracked(trees, lock, plans[i]))
    && Separate(plans)
    && (forall path: Path :: Foreign(path, base, plans) ==> At(trees, path) == At(lock, path))
  }

  /** Random names owned by plans were drawn before `next`. */
  ghost predicate PlansDrawn(plans: seq<Plan>, next: nat) {
    forall i | 0 <= i < |plans| ::
      && (plans[i].stage.Some? && !plans[i].stage.value.Package? ==> plans[i].stage.value.id < next)
      && (plans[i].backup.Some? && !plans[i].backup.value.Package? ==> plans[i].backup.value.id < next)
  }

  /** Every directory except this root's stages is as it was under the locks. */
  ghost predicate Restored(trees: Trees, lock: Trees, base: Target) {
    forall path: Path :: !OwnStage(path, base) ==> At(trees, path) == At(lock, path)
  }

  /** The tree found at `path` still exists, there or at a kept place. */
  ghost predicate Kept(trees: Trees, lock: Trees, path: Path) {
    path in lock ==>
      exists place: Path :: (place == path || KeepsFor(place, path)) && At(trees, place) == At(lock, path)
  }

  /** A changed plan that takes over no directory of another stays apart from it. */
  lemma Apart(plans: seq<Plan>, i: nat, plan: Plan, j: nat)
    requires i < |plans| && j < |plans| && i != j && Separate(plans)
    requires forall path, k | path in Owned(plan) - Owned(plans[i]) && 0 <= k < |plans| :: path !in Owned(plans[k])
    ensures Owned(plans[j]) !! Owned(plan)
    ensures Owned(plans[j]) !! Owned(plans[i])
  {
    forall path | path in Owned(plan)
      ensures path !in Owned(plans[j])
    {
      if path in Owned(plans[i]) {
        assert Owned(plans[j]) !! Owned(plans[i]);
      } else {
        assert path in Owned(plan) - Owned(plans[i]);
      }
    }
  }

  /** One plan changes, and with it only directories it owns before or after. */
  lemma StepFollows(trees: Trees, trees': Trees, lock: Trees, base: Target, plans: seq<Plan>, i: nat, plan: Plan)
    requires i < |plans| && Follows(trees, lock, base, plans)
    requires plan.skill.path == plans[i].skill.path
    requires Tracked(trees', lock, plan)
    requires forall path: Path :: path !in Owned(plans[i]) + Owned(plan) ==> At(trees', path) == At(trees, path)
    requires forall path | path in Owned(plan) - Owned(plans[i]) :: Foreign(path, base, plans) || OwnStage(path, base)
    requires forall path, j | path in Owned(plan) - Owned(plans[i]) && 0 <= j < |plans| :: path !in Owned(plans[j])
    requires forall path | path in Owned(plans[i]) - Owned(plan) ::
      OwnStage(path, base) || At(trees', path) == At(lock, path)
    ensures Follows(trees', lock, base, plans[i := plan])
  {
    var plans' := plans[i := plan];
    forall j | 0 <= j < |plans'| && j != i
      ensures Tracked(trees', lock, plans'[j])
    {
      Apart(plans, i, plan, j);
      assert forall path | path in Owned(plans[j]) :: At(trees', path) == At(trees, path);
    }
    forall j, k | 0 <= j < |plans'| && 0 <= k < |plans'| && j != k
      ensures Owned(plans'[j]) !! Owned(plans'[k])
    {
      if j == i {
        Apart(plans, i, plan, k);
      } else if k == i {
        Apart(plans, i, plan, j);
      }
    }
    forall path: Path | Foreign(path, base, plans')
      ensures At(trees', path) == At(lock, path)
    {
      assert path !in Owned(plans'[i]);
      if path !in Owned(plans[i]) {
        assert forall j | 0 <= j < |plans| && j != i :: plans'[j] == plans[j];
        assert Foreign(path, base, plans);
      }
    }
  }

  /** Nothing moved, nothing changed: plans without a backup or a commit leave
      every directory but this root's stages as it was. */
  lemma UntouchedRestores(trees: Trees, lock: Trees, base: Target, plans: seq<Plan>)
    requires Follows(trees, lock, base, plans)
    requires forall i | 0 <= i < |plans| :: !plans[i].committed && plans[i].backup.None?
    requires forall i | 0 <= i < |plans| :: plans[i].stage.Some? ==> OwnStage(plans[i].stage.value, base)
    ensures Restored(trees, lock, base)
  {
    forall path: Path | !OwnStage(path, base)
      ensures At(trees, path) == At(lock, path)
    {
      if i :| 0 <= i < |plans| && path in Owned(plans[i]) {
        assert Tracked(trees, lock, plans[i]);
      } else {
        assert Foreign(path, base, plans);
      }
    }
  }

  /** At every point of a transaction each earlier tree still exists. */
  lemma NothingLost(trees: Trees, lock: Trees, base: Target, plans: seq<Plan>, path: Path)
    requires Follows(trees, lock, base, plans)
    requires forall i | 0 <= i < |plans| :: plans[i].stage.Some? ==> OwnStage(plans[i].stage.value, base)
    requires !OwnStage(path, base)
    ensures Kept(trees, lock, path)
  {
    if path in lock {
      if i :| 0 <= i < |plans| && path in Owned(plans[i]) {
        assert Tracked(trees, lock, plans[i]);
        var plan := plans[i];
        var place := if plan.backup.Some? then plan.backup.value else path;
        assert path == plan.skill.path;
        assert At(trees, place) == At(lock, path);
      } else {
        assert Foreign(path, base, plans);
      }
    }
  }

  // ----- Reports -----

  /** What a reported package state means on disk. */
  ghost predicate Truthful(trees: Trees, lock: Trees, skill: Skill) {
    var now, was := At(trees, skill.path), At(lock, skill.path);
    && skill.path.Package?
    && (skill.backup.Some? ==> KeepsFor(skill.backup.value, skill.path))
    && match skill.status
    case Installed => now.Some? && now == skill.sha && was.None? && skill.backup.None?
    case Replaced =>
      now.Some? && now == skill.sha && was.Some? && skill.backup.Some? && At(trees, skill.backup.value) == was
    case BackedUp =>
      now.None? && was.Some? && was == skill.sha && skill.backup.Some? && At(trees, skill.backup.value) == was
    case Unchanged => now.Some? && now == was && now == skill.sha && skill.backup.None?
    case Absent => now.None? && was.None? && skill.sha.None? && skill.backup.None?
    case Removed => now.None? && was.Some? && was == skill.sha
    case _ => false
  }

  /** The plans a report shows. */
  function Visible(plans: seq<Plan>): (visible: seq<Plan>)
    ensures |visible| <= |plans|
  {
    if plans == [] then []
    else Visible(plans[..|plans| - 1]) + (if plans[|plans| - 1].hidden then [] else [plans[|plans| - 1]])
  }

  /** One truthful line for every visible plan, in order. */
  ghost predicate ReportsTruth(trees: Trees, lock: Trees, plans: seq<Plan>, skills: seq<Skill>) {
    && |skills| == |Visible(plans)|
    && forall k | 0 <= k < |skills| ::
         skills[k].path == Visible(plans)[k].skill.path && Truthful(trees, lock, skills[k])
  }

  /** One more plan, with a true line of its own if it is visible. */
  lemma ReportMore(trees: Trees, lock: Trees, plans: seq<Plan>, i: nat, skills: seq<Skill>, line: Skill)
    requires i < |plans| && ReportsTruth(trees, lock, plans[..i], skills)
    ensures plans[i].hidden ==> ReportsTruth(trees, lock, plans[..i + 1], skills)
    ensures !plans[i].hidden && line.path == plans[i].skill.path && Truthful(trees, lock, line) ==>
      ReportsTruth(trees, lock, plans[..i + 1], skills + [line])
  {
    assert plans[..i + 1][..i] == plans[..i];
  }

  /** The skills a preview shows. */
  function VisibleSkills(plans: seq<Plan>): seq<Skill> {
    if plans == [] then []
    else
      var last := plans[|plans| - 1];
      VisibleSkills(plans[..|plans| - 1]) + if last.hidden then [] else [last.skill]
  }

  lemma {:induction false} VisibleSkillsAre(plans: seq<Plan>)
    ensures |VisibleSkills(plans)| == |Visible(plans)|
    ensures forall k | 0 <= k < |Visible(plans)| :: VisibleSkills(plans)[k] == Visible(plans)[k].skill
    decreases |plans|
  {
    if plans != [] {
      VisibleSkillsAre(plans[..|plans| - 1]);
    }
  }

  /** A report on removals: the packages that are listed, each judged by what was found of it. What was planned from
      `trees` is judged by `found`, as it was before the transaction or under its locks. */
  ghost predicate ReportsRemovals(
    skills: seq<Skill>, target: Target, bundle: Bundle, known: set<(Name, Tree)>, trees: Trees, receipts: Receipts,
    found: Trees, remove: Status, keep: Status)
  {
    var paths := Listed(target, trees, receipts);
    && |skills| == |paths|
    && forall k | 0 <= k < |skills| ::
      RemovalTold(skills[k], paths[k], target, bundle, known, receipts, At(found, paths[k]), remove, keep)
  }

  predicate RemovalTold(
    skill: Skill, path: Path, target: Target, bundle: Bundle, known: set<(Name, Tree)>, receipts: Receipts,
    found: Option<Tree>, remove: Status, keep: Status)
  {
    JudgedRemoval(skill, path, found, Ours(target, bundle, known, receipts, path, found), remove, keep)
  }

  /** A report on an install: the target's two packages, then the removals from the portable root. */
  ghost predicate ReportsInstall(
    skills: seq<Skill>, target: Target, bundle: Bundle, known: set<(Name, Tree)>, trees: Trees, receipts: Receipts,
    found: Trees, done: bool)
  {
    var paths, receipt := Listed(target, trees, receipts), PackagesOf(receipts, target);
    && |skills| == |paths|
    && InstallTold(skills[0], paths[0], At(found, paths[0]), bundle.tadx, receipt, done)
    && InstallTold(skills[1], paths[1], At(found, paths[1]), bundle.pulse, receipt, done)
    && forall k | 2 <= k < |skills| ::
      RemovalTold(skills[k], paths[k], target, bundle, known, receipts, At(found, paths[k]),
        if done then Removed else Remove, if done then BackedUp else Divergent)
  }

  predicate InstallTold(
    skill: Skill, path: Path, found: Option<Tree>, files: Tree, receipt: Packages, done: bool)
  {
    if done then JudgedInstalled(skill, path, found, files) else JudgedInstall(skill, path, found, files, receipt)
  }

  /** A visible plan is for the package that the report lists in its place. */
  lemma {:induction false} ListedPlan(plans: seq<Plan>, target: Target, trees: Trees, receipts: Receipts, k: nat)
      returns (i: nat)
    requires PlansFor(plans, target, trees, receipts) && k < |Listed(target, trees, receipts)|
    ensures k < |Visible(plans)| && i < |plans| && plans[i] == Visible(plans)[k] && !plans[i].hidden
    ensures Looked(target, receipts)[i] == Listed(target, trees, receipts)[k] && (i < 2 <==> k < 2)
      && (k < 2 ==> i == k)
  {
    VisibleListed(plans, target, trees, receipts);
    i := VisibleMember(plans, k);
  }

  /** The preview of an uninstall tells what would be removed and what would be kept. */
  lemma {:induction false} PreviewedRemovals(
    target: Target, bundle: Bundle, known: set<(Name, Tree)>, trees: Trees, receipts: Receipts)
    ensures ReportsRemovals(VisibleSkills(UninstallPlans(target, bundle, known, trees, receipts)), target, bundle,
      known,
      trees, receipts, trees, Remove, Divergent)
  {
    var plans, paths := UninstallPlans(target, bundle, known, trees, receipts), Listed(target, trees, receipts);
    var skills := VisibleSkills(plans);
    UninstallPlansMean(target, bundle, known, trees, receipts);
    VisibleListed(plans, target, trees, receipts);
    VisibleSkillsAre(plans);
    forall k | 0 <= k < |skills|
      ensures RemovalTold(skills[k], paths[k], target, bundle, known, receipts, At(trees, paths[k]), Remove, Divergent)
    {
      var i := ListedPlan(plans, target, trees, receipts, k);
      assert PlansRemoval(plans[i], Looked(target, receipts)[i], target, bundle, known, trees, receipts);
    }
  }

  /** The preview of an install tells what would be installed, upgraded or replaced. */
  lemma {:induction false} PreviewedInstall(
    target: Target, bundle: Bundle, known: set<(Name, Tree)>, trees: Trees, receipts: Receipts)
    ensures ReportsInstall(VisibleSkills(InstallPlans(target, bundle, known, trees, receipts)), target, bundle, known,
      trees, receipts, trees, false)
  {
    var plans, paths := InstallPlans(target, bundle, known, trees, receipts), Listed(target, trees, receipts);
    var skills := VisibleSkills(plans);
    InstallPlansMean(target, bundle, known, trees, receipts);
    VisibleListed(plans, target, trees, receipts);
    VisibleSkillsAre(plans);
    var first := ListedPlan(plans, target, trees, receipts, 0);
    var second := ListedPlan(plans, target, trees, receipts, 1);
    forall k | 2 <= k < |skills|
      ensures RemovalTold(skills[k], paths[k], target, bundle, known, receipts, At(trees, paths[k]), Remove, Divergent)
    {
      var i := ListedPlan(plans, target, trees, receipts, k);
      assert PlansRemoval(plans[i], Looked(target, receipts)[i], target, bundle, known, trees, receipts);
    }
  }

  /** Reports never speak of stages, so changing this root's stages leaves them true. */
  lemma ReportsStayTrue(trees: Trees, trees': Trees, lock: Trees, base: Target, plans: seq<Plan>, skills: seq<Skill>)
    requires ReportsTruth(trees, lock, plans, skills) && Restored(trees', trees, base)
    ensures ReportsTruth(trees', lock, plans, skills)
  {
    forall k | 0 <= k < |skills|
      ensures Truthful(trees', lock, skills[k])
    {
      assert At(trees', skills[k].path) == At(trees, skills[k].path);
      assert skills[k].backup.Some? ==> At(trees', skills[k].backup.value) == At(trees, skills[k].backup.value);
    }
  }

  /** Every visible plan is one of the plans. */
  lemma VisibleMember(plans: seq<Plan>, k: nat) returns (i: nat)
    requires k < |Visible(plans)|
    ensures i < |plans| && plans[i] == Visible(plans)[k] && !plans[i].hidden
  {
    var front := Visible(plans[..|plans| - 1]);
    if k < |front| {
      i := VisibleMember(plans[..|plans| - 1], k);
    } else {
      i := |plans| - 1;
    }
  }

  /** Changing plans without changing what identifies them changes no report's shape. */
  lemma {:induction false} VisibleSame(plans: seq<Plan>, plans': seq<Plan>)
    requires |plans| == |plans'|
    requires forall i | 0 <= i < |plans| ::
      plans[i].hidden == plans'[i].hidden && plans[i].skill.path == plans'[i].skill.path
    ensures |Visible(plans)| == |Visible(plans')|
    ensures forall k | 0 <= k < |Visible(plans)| :: Visible(plans)[k].skill.path == Visible(plans')[k].skill.path
  {
    if plans != [] {
      var n := |plans| - 1;
      var front, front' := plans[..n], plans'[..n];
      VisibleSame(front, front');
      assert Visible(plans) == Visible(front) + (if plans[n].hidden then [] else [plans[n]]);
      assert Visible(plans') == Visible(front') + (if plans'[n].hidden then [] else [plans'[n]]);
    }
  }

  /** A committed plan already carries its own report line. */
  ghost predicate Labelled(plan: Plan) {
    plan.committed ==>
      && plan.skill.status == (if plan.backup.Some? then Replaced else Installed)
      && plan.skill.backup == plan.backup
      && plan.skill.sha == Some(plan.files)
  }

  /** A plan's line when an install rollback stops early (rollbackStates). */
  function RollbackState(plan: Plan): Skill {
    if plan.committed then plan.skill
    else if plan.backup.Some? then
      plan.skill.(status := BackedUp, backup := plan.backup, sha := plan.before, files := 0)
    else if plan.before.None? then plan.skill.(status := Absent, backup := None, sha := None, files := 0)
    else plan.skill.(status := Unchanged, backup := None, sha := plan.before, files := 0)
  }

  lemma RollbackStateTruthful(trees: Trees, lock: Trees, plan: Plan)
    requires Tracked(trees, lock, plan) && Labelled(plan)
    ensures Truthful(trees, lock, RollbackState(plan))
  {
  }

  /** An uninstall keeps a displaced package in `stage` and commits nothing:
      each of its plans is read as a removal whose `stage` is where the package is kept. */
  function AsRemoval(plan: Plan): Plan {
    plan.(backup := plan.stage, stage := None, remove := true)
  }

  function AsRemovals(plans: seq<Plan>): (removals: seq<Plan>)
    ensures |removals| == |plans|
    ensures forall i | 0 <= i < |plans| :: removals[i] == AsRemoval(plans[i])
  {
    seq(|plans|, i requires 0 <= i < |plans| => AsRemoval(plans[i]))
  }

  /** A plan's line when an uninstall rollback stops early (uninstallRollbackStates). */
  function UninstallRollbackState(plan: Plan): Skill {
    if plan.stage.Some? then plan.skill.(status := BackedUp, backup := plan.stage)
    else if plan.before.None? then plan.skill.(status := Absent, backup := None)
    else plan.skill.(status := Unchanged, backup := None)
  }

  lemma UninstallRollbackStateTruthful(trees: Trees, lock: Trees, plan: Plan)
    requires Tracked(trees, lock, AsRemoval(plan)) && !plan.committed
    requires plan.skill.sha == plan.before
    ensures Truthful(trees, lock, UninstallRollbackState(plan))
  {
  }
}
