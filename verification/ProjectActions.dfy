/** The project move and create actions (actions/project/move.go, create.go)
    against a remote site whose reads and writes may fail. */
module ProjectActions {
  import opened Common
  import opened ProjectForest

  /** How a caller names a project; an empty selector is the top level. */
  datatype Selector = ByLuid(luid: Luid) | ByPath(path: string) | TopLevel

  datatype Error =
    | Unavailable        // a read failed
    | Cycle              // the project would become its own ancestor
    | BrokenAncestry     // the destination's ancestry repeats or is incomplete
    | Collision          // the name is taken in the destination
    | Changed            // the project or parent changed since planning
    | WriteFailed        // the outcome of the write is unknown
    | Usage

  datatype Applied = Previewed | NoOp | Written(project: Project)

  /** The remote site. */
  class Site {
    var projects: Projects
    /** How many reads failed. */
    ghost var failures: nat
    const fold: string -> string

    constructor (fold: string -> string)
      ensures projects == map[] && this.fold == fold
    {
      this.projects, this.fold, failures := map[], fold, 0;
    }

    /** Exact resolution; it may fail, but it never invents a project. */
    method Resolve(selector: Selector) returns (r: Result<Project, Error>)
      requires Keyed(projects) && !selector.TopLevel?
      modifies `failures
      ensures failures == old(failures) + if r.Err? then 1 else 0
      ensures r.Ok? ==> r.value.luid in projects && projects[r.value.luid] == r.value
      ensures r.Ok? && selector.ByLuid? ==> r.value.luid == selector.luid
      ensures r.Ok? && selector.ByPath? ==> r.value.path == selector.path
      ensures r.Err? ==> r.error == Unavailable
    {
      var reachable: bool := *;
      if reachable && selector.ByLuid? && selector.luid in projects {
        return Ok(projects[selector.luid]);
      }
      if reachable && selector.ByPath? && exists luid <- projects.Keys :: projects[luid].path == selector.path {
        var luid :| luid in projects.Keys && projects[luid].path == selector.path;
        return Ok(projects[luid]);
      }
      failures := failures + 1;
      return Err(Unavailable);
    }

    /** Projects under `parent` whose folded name equals the folded `name`. */
    method FindCollisions(name: string, parent: Luid) returns (r: Result<set<Luid>, Error>)
      modifies `failures
      ensures failures == old(failures) + if r.Err? then 1 else 0
      ensures r.Ok? ==>
        r.value == set luid | luid in projects && projects[luid].parent == parent
        && fold(projects[luid].name) == fold(name)
      ensures r.Err? ==> r.error == Unavailable
    {
      if * {
        failures := failures + 1;
        return Err(Unavailable);
      }
      return Ok(set luid | luid in projects && projects[luid].parent == parent
        && fold(projects[luid].name) == fold(name));
    }

    /** Other writers act between two phases of an action, keeping the site well formed. */
    method Interfere()
      requires WellFormed(projects, fold)
      modifies `projects
      ensures WellFormed(projects, fold)
    {
      // Nothing to do here: callers see only that another well-formed site may be in place.
    }

    /** The write request; when it fails, it may have been applied all the same. */
    method MoveProject(luid: Luid, parent: Luid) returns (r: Result<Project, Error>)
      requires luid in projects
      modifies `projects
      ensures projects == old(projects) || projects == Moved(old(projects), luid, parent)
      ensures r.Ok? ==> projects == Moved(old(projects), luid, parent) && r.value == projects[luid]
      ensures r.Err? ==> r.error == WriteFailed
    {
      var applied: bool := *;
      var answered: bool := *;
      if applied {
        projects := Moved(projects, luid, parent);
      }
      return if applied && answered then Ok(projects[luid]) else Err(WriteFailed);
    }

    /** The create request; the site chooses a new identity. */
    method CreateProject(name: string, parent: Luid) returns (r: Result<Project, Error>)
      modifies `projects
      ensures projects == old(projects) || exists project: Project ::
                && project.luid !in old(projects) && project.luid != "" && project.name == name
                && project.parent == parent
                && projects == old(projects)[project.luid := project]
      ensures r.Ok? ==>
                && r.value.luid !in old(projects) && r.value.luid != "" && r.value.name == name
                && r.value.parent == parent
                && projects == old(projects)[r.value.luid := r.value]
      ensures r.Err? ==> r.error == WriteFailed
    {
      var luid: string := *;
      var path: string := *;
      var applied: bool := *;
      var answered: bool := *;
      var project := Project(luid, name, path, parent);
      if luid in projects || luid == "" || !applied {
        return Err(WriteFailed);
      }
      projects := projects[luid := project];
      return if answered then Ok(project) else Err(WriteFailed);
    }
  }

  // ----- Validation of a move -----

  /** The destination's ancestry is complete and leaves out the source. */
  ghost predicate SafeDestination(ps: Projects, source: Luid, parent: Luid) {
    parent == "" || (Rooted(ps, parent) && !Under(ps, parent, source))
  }

  /** What validation decides when every read succeeds. */
  ghost predicate MoveAllowed(ps: Projects, fold: string -> string, source: Project, parent: Luid) {
    && SafeDestination(ps, source.luid, parent)
    && (source.parent == parent || !SlotTaken(ps, fold, source.name, parent, source.luid))
  }

  /** The ancestors visited so far: the first `k`, all different, none of them the source. */
  ghost predicate Visited(ps: Projects, start: Luid, source: Luid, seen: set<Luid>, k: nat) {
    && (forall i: nat | i < k :: AncestorAt(ps, start, i).Some? && AncestorAt(ps, start, i).value in seen)
    && (forall luid <- seen :: luid in ps && luid != source && exists i: nat ::
      i < k && AncestorAt(ps, start, i) == Some(luid))
  }

  /** A chain of known depth that was checked up to its top contains no other project. */
  lemma CheckedChain(ps: Projects, start: Luid, source: Luid, k: nat)
    requires Keyed(ps) && RootedIn(ps, start, k)
    requires forall i: nat | i <= k :: AncestorAt(ps, start, i) != Some(source)
    ensures !Under(ps, start, source)
  {
    forall i: nat
      ensures AncestorAt(ps, start, i) != Some(source)
    {
      if AncestorAt(ps, start, i).Some? {
        AncestorDepth(ps, start, k, i);
      }
    }
  }

  /** Walks from the destination to the top level. The walk ends even when the
      observed parents form a cycle: every step adds a new identity to `seen`. */
  method CheckAncestry(site: Site, source: Luid, destination: Project) returns (r: Result<(), Error>)
    requires Keyed(site.projects) && destination.luid in site.projects && site.projects[destination.luid] == destination
    modifies site`failures
    ensures site.failures == old(site.failures) + if r == Err(Unavailable) then 1 else 0
    ensures r.Ok? ==> SafeDestination(site.projects, source, destination.luid)
    ensures r == Err(Cycle) ==> Under(site.projects, destination.luid, source)
    ensures r == Err(BrokenAncestry) ==> !Rooted(site.projects, destination.luid)
    ensures r.Err? ==> r.error in {Cycle, BrokenAncestry, Unavailable}
  {
    var ps, start := site.projects, destination.luid;
    var seen: set<Luid>, ancestor := {}, destination;
    ghost var k: nat := 0;
    while true
      invariant site.failures == old(site.failures)
      invariant AncestorAt(ps, start, k) == Some(ancestor.luid) && ancestor.luid in ps && ps[ancestor.luid] == ancestor
      invariant Visited(ps, start, source, seen, k) && seen <= ps.Keys
      decreases ps.Keys - seen
    {
      if ancestor.luid == source {
        return Err(Cycle);
      }
      if ancestor.luid in seen {
        Repeats(ps, start, source, seen, k);
        return Err(BrokenAncestry);
      }
      seen := seen + {ancestor.luid};
      VisitNext(ps, start, source, seen, k, ancestor);
      if ancestor.parent == "" {
        TopReached(ps, start, source, seen, k, ancestor);
        return Ok(());
      }
      var parent := site.Resolve(ByLuid(ancestor.parent));
      if parent.Err? {
        return Err(parent.error);
      }
      if parent.value.luid != ancestor.parent {
        return Err(BrokenAncestry);
      }
      ancestor := parent.value;
      k := k + 1;
    }
  }

  lemma {:induction false} Repeats(ps: Projects, start: Luid, source: Luid, seen: set<Luid>, k: nat)
    requires Keyed(ps) && Visited(ps, start, source, seen, k)
    requires AncestorAt(ps, start, k).Some? && AncestorAt(ps, start, k).value in seen
    ensures !Rooted(ps, start)
  {
    var i: nat :| i < k && AncestorAt(ps, start, i) == AncestorAt(ps, start, k);
    RepeatNeverRoots(ps, start, i, k);
  }

  lemma {:induction false} VisitNext(
    ps: Projects, start: Luid, source: Luid, seen: set<Luid>, k: nat, ancestor: Project)
    requires Visited(ps, start, source, seen - {ancestor.luid}, k) && ancestor.luid in seen && ancestor.luid != source
    requires AncestorAt(ps, start, k) == Some(ancestor.luid) && ancestor.luid in ps && ps[ancestor.luid] == ancestor
    ensures Visited(ps, start, source, seen, k + 1)
    ensures ancestor.parent in ps ==> AncestorAt(ps, start, k + 1) == Some(ancestor.parent)
  {
    AncestorNext(ps, start, k);
    forall luid <- seen
      ensures luid in ps && luid != source && exists i: nat :: i < k + 1 && AncestorAt(ps, start, i) == Some(luid)
    {
      if luid == ancestor.luid {
        assert AncestorAt(ps, start, k) == Some(luid);
      } else {
        assert luid in seen - {ancestor.luid};
      }
    }
  }

  lemma {:induction false} TopReached(
    ps: Projects, start: Luid, source: Luid, seen: set<Luid>, k: nat, ancestor: Project)
    requires Keyed(ps) && Visited(ps, start, source, seen, k + 1)
    requires AncestorAt(ps, start, k) == Some(ancestor.luid) && ancestor.luid in ps && ps[ancestor.luid].parent == ""
    ensures SafeDestination(ps, source, start)
  {
    TopGivesDepth(ps, start, k);
    CheckedChain(ps, start, source, k);
  }

  /** A collision search that finds nobody else shows the slot is free. */
  lemma FreeSlot(ps: Projects, fold: string -> string, name: string, parent: Luid, except: Luid, matches: set<Luid>)
    requires matches == set luid | luid in ps && ps[luid].parent == parent && fold(ps[luid].name) == fold(name)
    requires matches <= {except}
    ensures !SlotTaken(ps, fold, name, parent, except)
  {
    forall luid <- ps.Keys
      ensures !(luid != except && ps[luid].parent == parent && fold(ps[luid].name) == fold(name))
    {
      assert luid in matches <==> ps[luid].parent == parent && fold(ps[luid].name) == fold(name);
    }
  }

  /** validateMove: self-parent, ancestry, then the sibling name unless the parent stays the same. */
  method ValidateMove(site: Site, source: Project, destination: Option<Project>) returns (r: Result<(), Error>)
    requires Keyed(site.projects)
    requires destination.Some? ==>
      destination.value.luid in site.projects && site.projects[destination.value.luid] == destination.value
    modifies site`failures
    ensures site.failures == old(site.failures) + if r == Err(Unavailable) then 1 else 0
    ensures r.Err? ==> r.error in {Unavailable, Cycle, BrokenAncestry, Collision}
    ensures var parent := if destination.Some? then destination.value.luid else "";
      && (r.Ok? ==> MoveAllowed(site.projects, site.fold, source, parent))
      && (r.Err? && r.error != Unavailable ==> !MoveAllowed(site.projects, site.fold, source, parent))
      && (r == Err(Cycle) ==> Under(site.projects, parent, source.luid))
      && (r == Err(BrokenAncestry) ==> parent != "" && !Rooted(site.projects, parent))
      && (r == Err(Collision) ==> SlotTaken(site.projects, site.fold, source.name, parent, source.luid))
  {
    var parent := if destination.Some? then destination.value.luid else "";
    if destination.Some? {
      if parent == source.luid {
        assert AncestorAt(site.projects, parent, 0) == Some(source.luid);
        return Err(Cycle);
      }
      r := CheckAncestry(site, source.luid, destination.value);
      if r.Err? {
        return;
      }
    }
    if source.parent == parent {
      return Ok(());
    }
    var matches := site.FindCollisions(source.name, parent);
    if matches.Err? {
      return Err(matches.error);
    }
    if exists found <- matches.value :: found != source.luid {
      return Err(Collision);
    }
    FreeSlot(site.projects, site.fold, source.name, parent, source.luid, matches.value);
    return Ok(());
  }

  // ----- The actions -----

  /** The project that a caller's selector names; the empty identity is the top level. */
  ghost predicate Selected(ps: Projects, selector: Selector, luid: Luid) {
    match selector
    case TopLevel => luid == ""
    case ByLuid(asked) => luid == asked && luid in ps
    case ByPath(path) => luid in ps && ps[luid].path == path
  }

  function ParentLuid(parent: Option<Project>): Luid {
    if parent.Some? then parent.value.luid else ""
  }

  method ResolveParent(site: Site, selector: Selector) returns (r: Result<Option<Project>, Error>)
    requires Keyed(site.projects)
    modifies site`failures
    ensures site.failures == old(site.failures) + if r.Err? then 1 else 0
    ensures r.Ok? ==> (r.value.None? <==> selector.TopLevel?)
    ensures r.Ok? && r.value.Some? ==>
      r.value.value.luid in site.projects && site.projects[r.value.value.luid] == r.value.value
    ensures r.Ok? && selector.ByLuid? ==> r.value.value.luid == selector.luid
    ensures r.Ok? ==> Selected(site.projects, selector, ParentLuid(r.value))
    ensures r.Err? ==> r.error == Unavailable
  {
    if selector.TopLevel? {
      return Ok(None);
    }
    var project := site.Resolve(selector);
    return if project.Ok? then Ok(Some(project.value)) else Err(project.error);
  }

  /** What a move was asked for: its project before and at revalidation, and its parent when it was planned. */
  ghost predicate MoveSelected(
    start: Projects, seen: Projects, source: Selector, parent: Selector, luid: Luid, destination: Luid)
  {
    && luid in seen && Selected(start, source, luid) && Selected(seen, source, luid)
    && Selected(start, parent, destination) && (destination == "" || destination in seen)
  }

  /** Why a move is refused on this site: the project would be its own ancestor, the destination's ancestry is broken,
      or the name is taken there. */
  ghost predicate RefusedOn(ps: Projects, fold: string -> string, project: Project, destination: Luid, error: Error) {
    && !MoveAllowed(ps, fold, project, destination)
    && match error
      case Cycle => Under(ps, destination, project.luid)
      case BrokenAncestry => destination != "" && !Rooted(ps, destination)
      case Collision => SlotTaken(ps, fold, project.name, destination, project.luid)
      case _ => false
  }

  /** A move is refused for what it would do to the site as it was planned, or as it was revalidated. */
  ghost predicate MoveRefused(
    start: Projects, seen: Projects, fold: string -> string, source: Selector, parent: Selector, error: Error)
  {
    exists luid, destination :: Selected(start, source, luid) && luid in start && Selected(start, parent, destination)
      && (RefusedOn(start, fold, start[luid], destination, error)
          || (luid in seen && RefusedOn(seen, fold, seen[luid], destination, error)))
  }

  /** The selected project was renamed, or moved, since it was planned. */
  ghost predicate ProjectChanged(start: Projects, seen: Projects, source: Selector) {
    exists luid :: luid in start && luid in seen && Selected(start, source, luid) && Differs(seen[luid], start[luid])
  }

  /** Planning: the project, its new parent, and whether the move is allowed now. */
  method PlanMove(site: Site, source: Selector, parent: Selector)
      returns (r: Result<(Project, Option<Project>), Error>)
    requires Keyed(site.projects) && !source.TopLevel?
    modifies site`failures
    ensures site.failures == old(site.failures) + if r == Err(Unavailable) then 1 else 0
    ensures r.Ok? ==> var (project, to) := r.value;
      && project.luid in site.projects && site.projects[project.luid] == project
      && Selected(site.projects, source, project.luid) && Selected(site.projects, parent, ParentLuid(to))
      && (to.Some? ==> to.value.luid != "")
    ensures r.Err? ==> r.error in {Unavailable, Cycle, BrokenAncestry, Collision}
    ensures r.Err? && r.error != Unavailable ==> exists luid, to ::
      && luid in site.projects && Selected(site.projects, source, luid) && Selected(site.projects, parent, to)
      && RefusedOn(site.projects, site.fold, site.projects[luid], to, r.error)
  {
    var planned := site.Resolve(source);
    if planned.Err? {
      return Err(planned.error);
    }
    var destination := ResolveParent(site, parent);
    if destination.Err? {
      return Err(destination.error);
    }
    var valid := ValidateMove(site, planned.value, destination.value);
    if valid.Err? {
      assert valid.error != Unavailable ==>
        RefusedOn(site.projects, site.fold, planned.value, ParentLuid(destination.value), valid.error);
      return Err(valid.error);
    }
    return Ok((planned.value, destination.value));
  }

  predicate Differs(a: Project, b: Project) {
    a.name != b.name || a.path != b.path || a.parent != b.parent
  }

  /** Revalidation: the same project and the same parent, and the move is still allowed. */
  method RevalidateMove(site: Site, planned: Project, to: Option<Project>) returns (r: Result<Project, Error>)
    requires Keyed(site.projects) && planned.luid != "" && (to.Some? ==> to.value.luid != "")
    modifies site`failures
    ensures site.failures == old(site.failures) + if r == Err(Unavailable) then 1 else 0
    ensures r.Ok? ==>
      && r.value.luid == planned.luid && r.value.luid in site.projects && site.projects[r.value.luid] == r.value
      && r.value.name == planned.name && r.value.path == planned.path && r.value.parent == planned.parent
      && (to.Some? ==> to.value.luid in site.projects)
      && MoveAllowed(site.projects, site.fold, r.value, ParentLuid(to))
    ensures r.Err? ==> r.error in {Unavailable, Cycle, BrokenAncestry, Collision, Changed}
    ensures r == Err(Changed) ==> planned.luid in site.projects && Differs(site.projects[planned.luid], planned)
    ensures r.Err? && r.error in {Cycle, BrokenAncestry, Collision} ==>
      && planned.luid in site.projects
      && RefusedOn(site.projects, site.fold, site.projects[planned.luid], ParentLuid(to), r.error)
  {
    var current := site.Resolve(ByLuid(planned.luid));
    if current.Err? {
      return Err(current.error);
    }
    if current.value.name != planned.name || current.value.path != planned.path
      || current.value.parent != planned.parent {
      return Err(Changed);
    }
    var destination := ResolveParent(site, if to.None? then TopLevel else ByLuid(to.value.luid));
    if destination.Err? {
      return Err(destination.error);
    }
    var valid := ValidateMove(site, current.value, destination.value);
    return if valid.Err? then Err(valid.error) else Ok(current.value);
  }

  /** Moves one project. `seen` is the site at revalidation; nothing else writes
      between revalidation and the write. The project is the one the caller selected, at planning and at
      revalidation, and its new parent the one the caller's parent selector named at planning. */
  method Move(site: Site, source: Selector, parent: Selector, preview: bool)
      returns (r: Result<Applied, Error>, ghost seen: Projects)
    requires WellFormed(site.projects, site.fold)
    modifies site
    ensures WellFormed(site.projects, site.fold)
    ensures preview ==> site.projects == old(site.projects)
    ensures r.Ok? ==> (r.value.Previewed? <==> preview)
    ensures r == Err(Usage) <==> source.TopLevel?
    ensures site.failures == old(site.failures) + if r == Err(Unavailable) then 1 else 0
    ensures r.Err? && r.error in {Cycle, BrokenAncestry, Collision} ==>
      MoveRefused(old(site.projects), seen, site.fold, source, parent, r.error)
    ensures r == Err(Changed) ==> ProjectChanged(old(site.projects), seen, source)
    ensures r.Ok? && r.value.Written? ==>
              var luid, destination := r.value.project.luid, r.value.project.parent;
              && MoveSelected(old(site.projects), seen, source, parent, luid, destination)
              && Allowed(seen, site.fold, ProjectForest.Move(luid, destination))
              && seen[luid].parent != destination
              && site.projects == Moved(seen, luid, destination)
    ensures r.Ok? && r.value.NoOp? ==>
              exists luid ::
                luid in seen && MoveSelected(old(site.projects), seen, source, parent, luid, seen[luid].parent)
    ensures r == Err(WriteFailed) ==> (
              || site.projects == seen
              || exists luid, destination :: MoveSelected(old(site.projects), seen, source, parent, luid, destination)
                   && site.projects == Moved(seen, luid, destination))
    ensures r.Ok? && !r.value.Written? ==> site.projects == seen
    ensures r.Err? && r.error != WriteFailed ==> site.projects == seen
  {
    seen := site.projects;
    if source.TopLevel? {
      return Err(Usage), seen;
    }
    var planned := PlanMove(site, source, parent);
    if planned.Err? {
      return Err(planned.error), seen;
    }
    if preview {
      return Ok(Previewed), seen;
    }
    var (project, destination) := planned.value;
    site.Interfere();
    seen := site.projects;
    var current := RevalidateMove(site, project, destination);
    if current.Err? {
      return Err(current.error), seen;
    }
    var to := ParentLuid(destination);
    if current.value.parent == to {
      return Ok(NoOp), seen;
    }
    WriteKeepsSite(seen, site.fold, ProjectForest.Move(current.value.luid, to));
    var result := site.MoveProject(current.value.luid, to);
    return if result.Ok? then Ok(Written(result.value)) else Err(result.error), seen;
  }

  /** A new project with the name that was asked for, under the parent that the caller's selector named at
      planning and at revalidation. */
  ghost predicate Requested(start: Projects, seen: Projects, name: string, parent: Selector, project: Project) {
    && project.luid !in seen && project.name == name
    && Selected(start, parent, project.parent) && Selected(seen, parent, project.parent)
  }

  /** The name is taken under the parent that the caller's selector names. */
  ghost predicate NameTaken(ps: Projects, fold: string -> string, name: string, parent: Selector) {
    exists under :: Selected(ps, parent, under) && SlotTaken(ps, fold, name, under, "")
  }

  /** The caller's selector names another parent than it did. */
  ghost predicate ParentChanged(start: Projects, seen: Projects, parent: Selector) {
    exists before, now :: Selected(start, parent, before) && Selected(seen, parent, now) && before != now
  }

  lemma TakenSlot(ps: Projects, fold: string -> string, name: string, under: Luid, matches: set<Luid>)
    requires Keyed(ps) && "" !in ps
    requires matches == set luid | luid in ps && ps[luid].parent == under && fold(ps[luid].name) == fold(name)
    requires matches != {}
    ensures SlotTaken(ps, fold, name, under, "")
  {
    var luid :| luid in matches;
  }

  /** Creates one project under a parent whose identity did not change since planning. */
  method Create(site: Site, name: string, parent: Selector, preview: bool)
      returns (r: Result<Applied, Error>, ghost seen: Projects)
    requires WellFormed(site.projects, site.fold)
    modifies site
    ensures WellFormed(site.projects, site.fold)
    ensures preview ==> site.projects == old(site.projects)
    ensures r.Ok? ==> (r.value.Previewed? <==> preview) && !r.value.NoOp?
    ensures site.failures == old(site.failures) + if r == Err(Unavailable) then 1 else 0
    ensures r.Err? ==> r.error in {Unavailable, Collision, Changed, WriteFailed}
    ensures r == Err(Collision) ==>
      NameTaken(old(site.projects), site.fold, name, parent) || NameTaken(seen, site.fold, name, parent)
    ensures r == Err(Changed) ==> ParentChanged(old(site.projects), seen, parent)
    ensures r.Ok? && r.value.Written? ==>
              && Allowed(seen, site.fold, ProjectForest.Create(r.value.project))
              && Requested(old(site.projects), seen, name, parent, r.value.project)
              && site.projects == seen[r.value.project.luid := r.value.project]
    ensures r == Err(WriteFailed) ==> (
              || site.projects == seen
              || exists project :: Requested(old(site.projects), seen, name, parent, project)
                   && site.projects == seen[project.luid := project])
    ensures r.Ok? && !r.value.Written? ==> site.projects == seen
    ensures r.Err? && r.error != WriteFailed ==> site.projects == seen
  {
    seen := site.projects;
    var planned := ResolveParent(site, parent);
    if planned.Err? {
      return Err(planned.error), seen;
    }
    var under := ParentLuid(planned.value);
    var taken := site.FindCollisions(name, under);
    if taken.Err? || taken.value != {} {
      if taken.Ok? {
        TakenSlot(seen, site.fold, name, under, taken.value);
      }
      return Err(if taken.Err? then taken.error else Collision), seen;
    }
    if preview {
      return Ok(Previewed), seen;
    }
    site.Interfere();
    seen := site.projects;
    var current := ResolveParent(site, parent);
    if current.Err? {
      return Err(current.error), seen;
    }
    if ParentLuid(current.value) != under {
      return Err(Changed), seen;
    }
    taken := site.FindCollisions(name, under);
    if taken.Err? || taken.value != {} {
      if taken.Ok? {
        TakenSlot(seen, site.fold, name, under, taken.value);
      }
      return Err(if taken.Err? then taken.error else Collision), seen;
    }
    forall project: Project | project.luid !in seen && project.luid != "" && project.name == name
      && project.parent == under
      ensures Allowed(seen, site.fold, ProjectForest.Create(project))
        && WellFormed(seen[project.luid := project], site.fold)
    {
      FreeSlot(seen, site.fold, name, under, project.luid, taken.value);
      WriteKeepsSite(seen, site.fold, ProjectForest.Create(project));
    }
    var result := site.CreateProject(name, under);
    return if result.Ok? then Ok(Written(result.value)) else Err(result.error), seen;
  }
}
