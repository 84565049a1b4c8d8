/** Publishing a workbook (actions/workbook/publish.go, publish_preparation.go) to a
    site that may change between any two calls: plan, verify the target, prepare,
    verify again, commit, and confirm where it went. */
module WorkbookPublish {
  import opened Common
  import opened ByteText
  import DB = DatasourceBindings

  datatype Selector = Selector(luid: Bytes, path: Bytes)

  /** The exact state a publication is meant to change. */
  datatype Destination = Destination(environment: Bytes, site: Bytes, project: Bytes, name: Bytes, existing: Bytes)

  datatype Input = Input(
    artifactPath: Bytes, file: Bytes, artifactId: Bytes, artifactName: Bytes, environment: Bytes, site: Bytes,
    targetResolved: bool, sourceDefaulted: bool, name: Bytes, selector: Selector, projectLuid: Bytes,
    projectPath: Bytes, overwrite: bool, bindings: seq<DB.Binding>, expected: Option<Destination>, workspace: Bytes)

  /** The local workbook, with the source it was pulled from. */
  datatype Artifact = Artifact(
    name: Bytes, tableauId: Bytes, sourceProjectName: Bytes, sourceProjectId: Bytes,
    datasources: seq<DB.Reference>, content: Bytes)

  datatype Project = Project(luid: Bytes, path: Bytes)

  datatype Plan = Plan(
    destination: Destination, projectPath: Bytes, overwrite: bool, artifact: Artifact,
    bindings: seq<DB.Binding>, rewrite: map<Bytes, Bytes>, workspace: Bytes)

  datatype Published = Published(succeeded: bool, name: Bytes, project: Bytes)

  datatype Error =
    | Invalid | ArtifactUnread | BadBindings(cause: DB.Error) | SourceIncomplete | NoName | ProjectUnresolved
    | LookupFailed | SourceChanged | AmbiguousTarget | Conflict | DestinationChanged | TargetUnread
    | NotAPlan | RevalidationFailed | TargetChanged | PreparationFailed

  datatype Effect = NotAttempted | NotApplied | Unknown

  datatype Outcome =
    | Refused(error: Error)
    | Previewed(plan: Plan)
    | CommitFailed(plan: Plan, effect: Effect)
    | Submitted(plan: Plan, published: Published)
    | Confirmed(plan: Plan, published: Published)
    | Misplaced(plan: Plan, published: Published)

  // ----- The world outside -----

  datatype Request =
    | ReadWorkbook(path: Bytes)
    | ResolveProject(selector: Selector)
    | FindWorkbooks(name: Bytes, project: Bytes)
    | ReadDatasource(luid: Bytes)
    | Prepare(plan: Plan)
    | Commit(plan: Plan)

  datatype Reply =
    | Failure(effect: Effect)
    | OneArtifact(artifact: Artifact)
    | OneProject(project: Project)
    | Workbooks(luids: seq<Bytes>)
    | ContentUrl(url: Bytes)
    | Ready
    | Done(published: Published)

  datatype Call = Call(request: Request, reply: Reply)

  predicate Fits(request: Request, reply: Reply) {
    reply.Failure? || match request
      case ReadWorkbook(_) => reply.OneArtifact?
      case ResolveProject(_) => reply.OneProject?
      case FindWorkbooks(_, _) => reply.Workbooks?
      case ReadDatasource(_) => reply.ContentUrl?
      case Prepare(_) => reply.Ready?
      case Commit(_) => reply.Done?
  }

  class Remote {
    /** Every call made, with its reply. */
    ghost var log: seq<Call>

    constructor ()
      ensures log == []
    {
      log := [];
    }

    method Ask(request: Request) returns (reply: Reply)
      modifies this
      ensures log == old(log) + [Call(request, reply)] && Fits(request, reply)
    {
      reply := *;
      if !Fits(request, reply) {
        reply := Failure(Unknown);
      }
      log := log + [Call(request, reply)];
    }
  }

  // ----- Pieces of the plan -----

  predicate ValidInput(input: Input) {
    && !(TrimSpace(input.artifactPath) == [] && TrimSpace(input.file) == []
      && TrimSpace(input.artifactId) == [] && TrimSpace(input.artifactName) == [])
    && !(input.selector.luid != [] && input.selector.path != [] && !input.sourceDefaulted)
    && input.environment != []
    && (input.site != [] || input.targetResolved)
    && input.artifactPath != []
  }

  /** Where to publish: back to the recorded source, or as the caller says. */
  function Choice(input: Input, artifact: Artifact): Result<(Bytes, Selector), Error> {
    if input.sourceDefaulted && artifact.sourceProjectId == [] && artifact.sourceProjectName == [] then
      Err(SourceIncomplete)
    else
      var name := if input.sourceDefaulted || input.name == [] then artifact.name else input.name;
      var given :=
        if input.selector.luid == [] && input.selector.path == [] then Selector(input.projectLuid, input.projectPath)
        else input.selector;
      var selector :=
        if input.sourceDefaulted then Selector(artifact.sourceProjectId, artifact.sourceProjectName) else given;
      if name == [] then Err(NoName) else Ok((name, selector))
  }

  /** What the workbooks of that name in the project mean for the publication. */
  function Collision(input: Input, artifact: Artifact, found: seq<Bytes>): Result<Bytes, Error> {
    if input.sourceDefaulted then
      if |found| != 1 || found[0] != artifact.tableauId then Err(SourceChanged) else Ok(found[0])
    else if |found| > 1 then Err(AmbiguousTarget)
    else if |found| == 1 && !input.overwrite then Err(Conflict)
    else Ok(if |found| == 1 then found[0] else [])
  }

  function Draft(
    input: Input, artifact: Artifact, bindings: seq<DB.Binding>, name: Bytes, project: Project, existing: Bytes): Plan
  {
    Plan(Destination(input.environment, input.site, project.luid, name, existing), project.path,
      input.overwrite || input.sourceDefaulted, artifact, bindings, map[], input.workspace)
  }

  /** The overwrite check: nothing there and nothing expected, or exactly the planned workbook. */
  predicate TargetStands(plan: Plan, found: seq<Bytes>) {
    || (found == [] && plan.destination.existing == [])
    || (|found| == 1 && found[0] == plan.destination.existing)
  }

  // ----- The protocol -----

  datatype Phase =
    | Reading
    | Resolving(artifact: Artifact, bindings: seq<DB.Binding>)
    | Looking(artifact: Artifact, bindings: seq<DB.Binding>, project: Project)
    | Targeting(plan: Plan, read: nat)
    | Verifying(plan: Plan)
    | Preparing(plan: Plan)
    | VerifyingAgain(plan: Plan)
    | Committing(plan: Plan)
    | Over(outcome: Outcome)

  /** A phase this input can reach. */
  predicate Sound(input: Input, phase: Phase) {
    && (phase.Resolving? ==> Choice(input, phase.artifact).Ok?)
    && (phase.Looking? ==> Choice(input, phase.artifact).Ok?)
    && (phase.Targeting? ==> phase.read < |phase.plan.bindings|)
  }

  function RequestOf(input: Input, phase: Phase): Request
    requires Sound(input, phase) && !phase.Over?
  {
    match phase
    case Reading => ReadWorkbook(input.artifactPath)
    case Resolving(artifact, _) => ResolveProject(Choice(input, artifact).value.1)
    case Looking(artifact, _, project) => FindWorkbooks(Choice(input, artifact).value.0, project.luid)
    case Targeting(plan, read) => ReadDatasource(plan.bindings[read].target)
    case Verifying(plan) => FindWorkbooks(plan.destination.name, plan.destination.project)
    case Preparing(plan) => Prepare(plan)
    case VerifyingAgain(plan) => FindWorkbooks(plan.destination.name, plan.destination.project)
    case Committing(plan) => Commit(plan)
  }

  /** A plan that names its destination, as an application demands. */
  predicate Applicable(plan: Plan) {
    plan.destination.name != [] && plan.destination.project != []
  }

  /** A plan whose targets are read up to here. */
  function Targeted(preview: bool, plan: Plan, read: nat): (phase: Phase)
    requires read <= |plan.bindings|
  {
    if read < |plan.bindings| then Targeting(plan, read)
    else if preview then Over(Previewed(plan))
    else if !Applicable(plan) then Over(Refused(NotAPlan))
    else if plan.overwrite then Verifying(plan)
    else Preparing(plan)
  }

  /** A destination was found. */
  function Located(
    input: Input, preview: bool, artifact: Artifact, bindings: seq<DB.Binding>, project: Project, found: seq<Bytes>):
      (phase: Phase)
    requires Choice(input, artifact).Ok?
    ensures Sound(input, phase)
  {
    match Collision(input, artifact, found)
    case Err(e) => Over(Refused(e))
    case Ok(existing) =>
      var plan := Draft(input, artifact, bindings, Choice(input, artifact).value.0, project, existing);
      if input.expected.Some? && input.expected.value != plan.destination then Over(Refused(DestinationChanged))
      else Targeted(preview, plan, 0)
  }

  /** The commit came back: confirm the destination. */
  function Completed(plan: Plan, published: Published): Outcome {
    if !published.succeeded then Submitted(plan, published)
    else if published.name != plan.destination.name || published.project != plan.destination.project then
      Misplaced(plan, published)
    else Confirmed(plan, published)
  }

  function Advance(input: Input, preview: bool, phase: Phase, reply: Reply): (next: Phase)
    requires Sound(input, phase)
    ensures Sound(input, next)
  {
    match phase
    case Reading =>
      if !reply.OneArtifact? then Over(Refused(ArtifactUnread))
      else (match DB.Matched(input.bindings, reply.artifact.datasources)
        case Err(e) => Over(Refused(BadBindings(e)))
        case Ok(bindings) => match Choice(input, reply.artifact)
          case Err(e) => Over(Refused(e))
          case Ok(_) => Resolving(reply.artifact, bindings))
    case Resolving(artifact, bindings) =>
      if !reply.OneProject? then Over(Refused(ProjectUnresolved)) else Looking(artifact, bindings, reply.project)
    case Looking(artifact, bindings, project) =>
      if !reply.Workbooks? then Over(Refused(LookupFailed))
      else Located(input, preview, artifact, bindings, project, reply.luids)
    case Targeting(plan, read) =>
      if !reply.ContentUrl? || reply.url == [] then Over(Refused(TargetUnread))
      else Targeted(preview, plan.(rewrite := plan.rewrite[plan.bindings[read].source := reply.url]), read + 1)
    case Verifying(plan) =>
      if !reply.Workbooks? then Over(Refused(RevalidationFailed))
      else if TargetStands(plan, reply.luids) then Preparing(plan) else Over(Refused(TargetChanged))
    case Preparing(plan) =>
      if !reply.Ready? then Over(Refused(PreparationFailed))
      else if plan.overwrite then VerifyingAgain(plan) else Committing(plan)
    case VerifyingAgain(plan) =>
      if !reply.Workbooks? then Over(Refused(RevalidationFailed))
      else if TargetStands(plan, reply.luids) then Committing(plan) else Over(Refused(TargetChanged))
    case Committing(plan) =>
      (match reply
        case Failure(effect) => Over(CommitFailed(plan, effect))
        case Done(published) => Over(Completed(plan, published))
        case _ => Over(CommitFailed(plan, Unknown)))
    case Over(_) => phase
  }

  function Start(input: Input): Phase {
    if ValidInput(input) then Reading else Over(Refused(Invalid))
  }

  function After(input: Input, preview: bool, calls: seq<Call>): (phase: Phase)
    ensures Sound(input, phase)
  {
    if calls == [] then Start(input)
    else Advance(input, preview, After(input, preview, calls[..|calls| - 1]), calls[|calls| - 1].reply)
  }

  /** A run of the protocol: each call is the one its phase makes, with a reply of the right shape. */
  ghost predicate Follows(input: Input, preview: bool, calls: seq<Call>) {
    calls == [] || (
      var before, last := calls[..|calls| - 1], calls[|calls| - 1];
      var phase := After(input, preview, before);
      Follows(input, preview, before) && !phase.Over? && last.request == RequestOf(input, phase)
        && Fits(last.request, last.reply))
  }

  lemma OneCallMore(input: Input, preview: bool, calls: seq<Call>, reply: Reply)
    requires Follows(input, preview, calls) && !After(input, preview, calls).Over?
    requires Fits(RequestOf(input, After(input, preview, calls)), reply)
    ensures var more := calls + [Call(RequestOf(input, After(input, preview, calls)), reply)];
      Follows(input, preview, more)
      && After(input, preview, more) == Advance(input, preview, After(input, preview, calls), reply)
  {
    var more := calls + [Call(RequestOf(input, After(input, preview, calls)), reply)];
    assert more[..|more| - 1] == calls;
  }

  ghost predicate LastCall(calls: seq<Call>, call: Call) {
    calls != [] && calls[|calls| - 1] == call
  }

  /** A run that has come to this phase. */
  ghost predicate Reached(input: Input, preview: bool, calls: seq<Call>, phase: Phase) {
    Follows(input, preview, calls) && After(input, preview, calls) == phase
  }

  // ----- The publication -----

  /** The next call of a run. */
  method MakeCall(
    remote: Remote, input: Input, preview: bool, ghost phase: Phase, request: Request,
    ghost start: seq<Call>, ghost before: seq<Call>)
      returns (reply: Reply, ghost calls: seq<Call>)
    requires Sound(input, phase) && !phase.Over? && request == RequestOf(input, phase)
    requires Reached(input, preview, before, phase) && remote.log == start + before
    modifies remote
    ensures remote.log == start + calls && LastCall(calls, Call(request, reply)) && Fits(request, reply)
    ensures Reached(input, preview, calls, Advance(input, preview, phase, reply))
  {
    reply := remote.Ask(request);
    OneCallMore(input, preview, before, reply);
    calls := before + [Call(request, reply)];
  }

  /** The first reads of a plan: the artifact, the project and the workbooks of that name. */
  method Locate(remote: Remote, input: Input, preview: bool)
      returns (result: Result<Plan, Error>, ghost calls: seq<Call>)
    modifies remote
    ensures remote.log == old(remote.log) + calls
    ensures result.Ok? ==> result.value.rewrite == map[]
    ensures Reached(input, preview, calls,
      if result.Ok? then Targeted(preview, result.value, 0) else Over(Refused(result.error)))
  {
    ghost var start := remote.log;
    calls := [];
    if !ValidInput(input) {
      return Err(Invalid), calls;
    }
    var read: Reply;
    read, calls := MakeCall(remote, input, preview, Reading, ReadWorkbook(input.artifactPath), start, calls);
    if read.Failure? {
      return Err(ArtifactUnread), calls;
    }
    result, calls := Resolve(remote, input, preview, read.artifact, start, calls);
  }

  /** The bindings, the choice of a destination and its project. */
  method Resolve(
    remote: Remote, input: Input, preview: bool, artifact: Artifact, ghost start: seq<Call>, ghost before: seq<Call>)
      returns (result: Result<Plan, Error>, ghost calls: seq<Call>)
    requires Reached(input, preview, before, Advance(input, preview, Reading, OneArtifact(artifact)))
    requires remote.log == start + before
    modifies remote
    ensures remote.log == start + calls
    ensures result.Ok? ==> result.value.rewrite == map[]
    ensures Reached(input, preview, calls,
      if result.Ok? then Targeted(preview, result.value, 0) else Over(Refused(result.error)))
  {
    var matched := DB.MatchDatasourceBindings(input.bindings, artifact.datasources);
    if matched.Err? {
      return Err(BadBindings(matched.error)), before;
    }
    var choice := Choice(input, artifact);
    if choice.Err? {
      return Err(choice.error), before;
    }
    var selector := choice.value.1;
    var resolved: Reply;
    resolved, calls := MakeCall(
      remote, input, preview, Resolving(artifact, matched.value), ResolveProject(selector), start, before);
    if resolved.Failure? {
      return Err(ProjectUnresolved), calls;
    }
    result, calls := Settle(remote, input, preview, artifact, matched.value, resolved.project, start, calls);
  }

  /** The collision check and the pinned destination. */
  method Settle(
    remote: Remote, input: Input, preview: bool, artifact: Artifact, bindings: seq<DB.Binding>, project: Project,
    ghost start: seq<Call>, ghost before: seq<Call>)
      returns (result: Result<Plan, Error>, ghost calls: seq<Call>)
    requires Choice(input, artifact).Ok? && Reached(input, preview, before, Looking(artifact, bindings, project))
    requires remote.log == start + before
    modifies remote
    ensures remote.log == start + calls
    ensures result.Ok? ==> result.value.rewrite == map[]
    ensures Reached(input, preview, calls,
      if result.Ok? then Targeted(preview, result.value, 0) else Over(Refused(result.error)))
  {
    var name := Choice(input, artifact).value.0;
    var lookup: Reply;
    lookup, calls := MakeCall(
      remote, input, preview, Looking(artifact, bindings, project), FindWorkbooks(name, project.luid), start, before);
    if lookup.Failure? {
      return Err(LookupFailed), calls;
    }
    result := Place(input, preview, artifact, bindings, project, lookup.luids);
  }

  /** The plan that the workbooks of that name leave possible. */
  method Place(
    input: Input, ghost preview: bool, artifact: Artifact, bindings: seq<DB.Binding>, project: Project,
    existing: seq<Bytes>)
      returns (result: Result<Plan, Error>)
    requires Choice(input, artifact).Ok?
    ensures result.Ok? ==> result.value.rewrite == map[]
    ensures Located(input, preview, artifact, bindings, project, existing)
      == if result.Ok? then Targeted(preview, result.value, 0) else Over(Refused(result.error))
  {
    if input.sourceDefaulted {
      if |existing| != 1 || existing[0] != artifact.tableauId {
        return Err(SourceChanged);
      }
    } else {
      if |existing| > 1 {
        return Err(AmbiguousTarget);
      }
      if |existing| == 1 && !input.overwrite {
        return Err(Conflict);
      }
    }
    var existingLuid := if |existing| == 1 then existing[0] else [];
    var plan := Draft(input, artifact, bindings, Choice(input, artifact).value.0, project, existingLuid);
    if input.expected.Some? && input.expected.value != plan.destination {
      return Err(DestinationChanged);
    }
    return Ok(plan);
  }

  /** Reading the target of one binding. */
  method ReadTarget(
    remote: Remote, input: Input, preview: bool, plan: Plan, read: nat, ghost start: seq<Call>, ghost before: seq<Call>)
      returns (further: Option<Plan>, ghost calls: seq<Call>)
    requires read < |plan.bindings| && Reached(input, preview, before, Targeting(plan, read))
    requires remote.log == start + before
    modifies remote
    ensures remote.log == start + calls
    ensures further.Some? ==> further.value.bindings == plan.bindings
    ensures Reached(input, preview, calls,
      if further.Some? then Targeted(preview, further.value, read + 1) else Over(Refused(TargetUnread)))
  {
    var binding := plan.bindings[read];
    var target: Reply;
    target, calls := MakeCall(
      remote, input, preview, Targeting(plan, read), ReadDatasource(binding.target), start, before);
    if target.Failure? || target.url == [] {
      return None, calls;
    }
    return Some(plan.(rewrite := plan.rewrite[binding.source := target.url])), calls;
  }

  /** Reading the targets of the bindings. */
  method ReadTargets(
    remote: Remote, input: Input, preview: bool, draft: Plan, ghost start: seq<Call>, ghost before: seq<Call>)
      returns (result: Result<Plan, Error>, ghost calls: seq<Call>)
    requires Reached(input, preview, before, Targeted(preview, draft, 0))
    requires remote.log == start + before
    modifies remote
    ensures remote.log == start + calls
    ensures Reached(input, preview, calls,
      if result.Ok? then Targeted(preview, result.value, |result.value.bindings|) else Over(Refused(result.error)))
  {
    var plan := draft;
    calls := before;
    for i := 0 to |draft.bindings|
      invariant plan.bindings == draft.bindings
      invariant remote.log == start + calls && Reached(input, preview, calls, Targeted(preview, plan, i))
    {
      var further: Option<Plan>;
      further, calls := ReadTarget(remote, input, preview, plan, i, start, calls);
      if further.None? {
        return Err(TargetUnread), calls;
      }
      plan := further.value;
    }
    return Ok(plan), calls;
  }

  /** The overwrite check, before the preparation or after it. */
  method VerifyOverwriteTarget(
    remote: Remote, input: Input, plan: Plan, ghost phase: Phase, ghost start: seq<Call>, ghost before: seq<Call>)
      returns (error: Option<Error>, ghost reply: Reply, ghost calls: seq<Call>)
    requires phase == Verifying(plan) || phase == VerifyingAgain(plan)
    requires Reached(input, false, before, phase) && remote.log == start + before
    modifies remote
    ensures remote.log == start + calls
    ensures LastCall(calls, Call(FindWorkbooks(plan.destination.name, plan.destination.project), reply))
    ensures error ==
      if !reply.Workbooks? then Some(RevalidationFailed)
      else if TargetStands(plan, reply.luids) then None else Some(TargetChanged)
    ensures Reached(input, false, calls,
      if error.Some? then Over(Refused(error.value))
      else if phase.Verifying? then Preparing(plan) else Committing(plan))
  {
    var current: Reply;
    current, calls := MakeCall(
      remote, input, false, phase, FindWorkbooks(plan.destination.name, plan.destination.project), start, before);
    reply := current;
    if current.Failure? {
      return Some(RevalidationFailed), reply, calls;
    }
    var expected := plan.destination.existing;
    if |current.luids| == 0 && expected == [] {
      return None, reply, calls;
    }
    if |current.luids| == 1 && current.luids[0] == expected {
      return None, reply, calls;
    }
    return Some(TargetChanged), reply, calls;
  }

  /** The phase after a preparation. */
  function Prepared(plan: Plan): Phase {
    if plan.overwrite then VerifyingAgain(plan) else Committing(plan)
  }

  /** Check the plan, verify an overwrite, and prepare. */
  method VerifyAndPrepare(remote: Remote, input: Input, plan: Plan, ghost start: seq<Call>, ghost before: seq<Call>)
      returns (error: Option<Error>, ghost calls: seq<Call>)
    requires Reached(input, false, before, Targeted(false, plan, |plan.bindings|))
    requires remote.log == start + before
    modifies remote
    ensures remote.log == start + calls
    ensures Reached(input, false, calls, if error.Some? then Over(Refused(error.value)) else Prepared(plan))
  {
    calls := before;
    if !Applicable(plan) {
      return Some(NotAPlan), calls;
    }
    if plan.overwrite {
      ghost var reply: Reply;
      error, reply, calls := VerifyOverwriteTarget(remote, input, plan, Verifying(plan), start, calls);
      if error.Some? {
        return;
      }
    }
    var prepared: Reply;
    prepared, calls := MakeCall(remote, input, false, Preparing(plan), Prepare(plan), start, calls);
    error := if prepared.Failure? then Some(PreparationFailed) else None;
  }

  /** Verify an overwrite again, and commit. */
  method VerifyAndCommit(remote: Remote, input: Input, plan: Plan, ghost start: seq<Call>, ghost before: seq<Call>)
      returns (outcome: Outcome, ghost calls: seq<Call>)
    requires Reached(input, false, before, Prepared(plan)) && remote.log == start + before
    modifies remote
    ensures remote.log == start + calls && Reached(input, false, calls, Over(outcome))
    ensures !outcome.Refused? ==>
      exists reply :: LastCall(calls, Call(Commit(plan), reply)) && CommitTold(Call(Commit(plan), reply), outcome)
  {
    calls := before;
    if plan.overwrite {
      var error: Option<Error>;
      ghost var reply: Reply;
      error, reply, calls := VerifyOverwriteTarget(remote, input, plan, VerifyingAgain(plan), start, calls);
      if error.Some? {
        return Refused(error.value), calls;
      }
    }
    var committed: Reply;
    committed, calls := MakeCall(remote, input, false, Committing(plan), Commit(plan), start, calls);
    outcome := if committed.Failure? then CommitFailed(plan, committed.effect)
      else Completed(plan, committed.published);
    assert CommitTold(Call(Commit(plan), committed), outcome);
  }

  /** Planning: the authoritative reads. */
  method MakePlan(remote: Remote, input: Input, preview: bool)
      returns (result: Result<Plan, Error>, ghost calls: seq<Call>)
    modifies remote
    ensures remote.log == old(remote.log) + calls
    ensures Reached(input, preview, calls,
      if result.Ok? then Targeted(preview, result.value, |result.value.bindings|) else Over(Refused(result.error)))
  {
    ghost var start := remote.log;
    result, calls := Locate(remote, input, preview);
    if result.Ok? {
      result, calls := ReadTargets(remote, input, preview, result.value, start, calls);
    }
  }

  /** Applying a plan, and confirming where it went. */
  method Apply(remote: Remote, input: Input, plan: Plan, ghost start: seq<Call>, ghost before: seq<Call>)
      returns (outcome: Outcome, ghost calls: seq<Call>)
    requires Reached(input, false, before, Targeted(false, plan, |plan.bindings|))
    requires remote.log == start + before
    modifies remote
    ensures remote.log == start + calls && Reached(input, false, calls, Over(outcome))
  {
    var error: Option<Error>;
    error, calls := VerifyAndPrepare(remote, input, plan, start, before);
    if error.Some? {
      return Refused(error.value), calls;
    }
    outcome, calls := VerifyAndCommit(remote, input, plan, start, calls);
  }

  /** Every invocation plans afresh, and publishes unless a preview is asked for. */
  method Execute(remote: Remote, input: Input, preview: bool) returns (outcome: Outcome, ghost calls: seq<Call>)
    modifies remote
    ensures remote.log == old(remote.log) + calls && Follows(input, preview, calls)
    ensures After(input, preview, calls) == Over(outcome)
    ensures Told(input, preview, calls, outcome) && Ended(input, preview, calls, outcome) && Commits(calls) <= 1
  {
    ghost var start := remote.log;
    var planned: Result<Plan, Error>;
    planned, calls := MakePlan(remote, input, preview);
    if planned.Err? {
      outcome := Refused(planned.error);
    } else if preview {
      outcome := Previewed(planned.value);
    } else {
      outcome, calls := Apply(remote, input, planned.value, start, calls);
    }
    RunKeepsShape(input, preview, calls);
    RunTells(input, preview, calls, outcome);
  }

  /** How many stages of planning are left. */
  function Stage(phase: Phase): nat {
    match phase
    case Reading => 4
    case Resolving(_, _) => 3
    case Looking(_, _, _) => 2
    case Targeting(_, _) => 1
    case _ => 0
  }

  // ----- What every run keeps -----

  function Commits(calls: seq<Call>): nat {
    if calls == [] then 0
    else Commits(calls[..|calls| - 1]) + if calls[|calls| - 1].request.Commit? then 1 else 0
  }

  /** What a plan made from this input can be. */
  ghost predicate Grounded(input: Input, plan: Plan) {
    && plan.overwrite == (input.overwrite || input.sourceDefaulted)
    && (plan.destination.existing != [] ==> plan.overwrite)
    && (input.sourceDefaulted ==>
      plan.destination.existing == plan.artifact.tableauId && plan.destination.name == plan.artifact.name)
    && (input.expected.Some? ==> plan.destination == input.expected.value)
    && plan.destination.environment == input.environment && plan.destination.site == input.site
    && plan.destination.name != []
    && (!input.sourceDefaulted && input.name != [] ==> plan.destination.name == input.name)
    && DB.Matched(input.bindings, plan.artifact.datasources) == Ok(plan.bindings)
    && DB.Canonical(plan.bindings, plan.artifact.datasources)
  }

  /** A plan made from this input that is carried out. */
  ghost predicate Applied(input: Input, preview: bool, plan: Plan) {
    Grounded(input, plan) && !preview && Applicable(plan)
  }

  /** The last call prepared this plan. */
  ghost predicate PreparedLast(calls: seq<Call>, plan: Plan) {
    calls != [] && calls[|calls| - 1].request == Prepare(plan)
  }

  /** The last call looked the planned destination up and found it as planned. */
  ghost predicate StandsLast(calls: seq<Call>, plan: Plan) {
    calls != [] && var last := calls[|calls| - 1];
      && last.request == FindWorkbooks(plan.destination.name, plan.destination.project)
      && last.reply.Workbooks? && TargetStands(plan, last.reply.luids)
  }

  /** Nothing stands between the checks and the commit: a plan that overwrites was looked up before
      and right after it was prepared, and one that does not has nothing to overwrite. */
  ghost predicate Cleared(calls: seq<Call>, plan: Plan) {
    if plan.overwrite then
      && |calls| >= 3 && StandsLast(calls, plan) && PreparedLast(calls[..|calls| - 1], plan)
      && StandsLast(calls[..|calls| - 2], plan)
    else
      plan.destination.existing == [] && PreparedLast(calls, plan)
  }

  ghost predicate Shape(input: Input, preview: bool, calls: seq<Call>, phase: Phase) {
    match phase
    case Reading => calls == []
    case Resolving(artifact, bindings) =>
      Commits(calls) == 0 && DB.Matched(input.bindings, artifact.datasources) == Ok(bindings)
    case Looking(artifact, bindings, _) =>
      Commits(calls) == 0 && DB.Matched(input.bindings, artifact.datasources) == Ok(bindings)
    case Targeting(plan, _) => Commits(calls) == 0 && Grounded(input, plan)
    case Verifying(plan) => Commits(calls) == 0 && Applied(input, preview, plan) && plan.overwrite
    case Preparing(plan) =>
      Commits(calls) == 0 && Applied(input, preview, plan) && (plan.overwrite ==> StandsLast(calls, plan))
    case VerifyingAgain(plan) =>
      && Commits(calls) == 0 && Applied(input, preview, plan) && plan.overwrite
      && PreparedLast(calls, plan) && StandsLast(calls[..|calls| - 1], plan)
    case Committing(plan) => Commits(calls) == 0 && Applied(input, preview, plan) && Cleared(calls, plan)
    case Over(outcome) => Ended(input, preview, calls, outcome)
  }

  /** The run's last call committed this plan, and nothing was committed before. */
  ghost predicate CommittedLast(input: Input, preview: bool, calls: seq<Call>, plan: Plan) {
    && Commits(calls) == 1 && calls != [] && calls[|calls| - 1].request == Commit(plan)
    && Applied(input, preview, plan) && Cleared(calls[..|calls| - 1], plan)
  }

  ghost predicate Ended(input: Input, preview: bool, calls: seq<Call>, outcome: Outcome) {
    match outcome
    case Refused(_) => Commits(calls) == 0
    case Previewed(plan) => Commits(calls) == 0 && preview && Grounded(input, plan)
    case CommitFailed(plan, _) => CommittedLast(input, preview, calls, plan)
    case Submitted(plan, published) => CommittedLast(input, preview, calls, plan) && !published.succeeded
    case Confirmed(plan, published) =>
      && CommittedLast(input, preview, calls, plan)
      && published == Published(true, plan.destination.name, plan.destination.project)
    case Misplaced(plan, published) =>
      && CommittedLast(input, preview, calls, plan)
      && published.succeeded && (published.name, published.project) != (plan.destination.name, plan.destination.project)
  }

  /** Over every history a publication commits at most once, never in a preview, and only a plan that
      was cleared just before; a refusal or a preview means that nothing was committed. */
  lemma {:induction false} RunKeepsShape(input: Input, preview: bool, calls: seq<Call>)
    requires Follows(input, preview, calls)
    ensures Shape(input, preview, calls, After(input, preview, calls))
    decreases |calls|
  {
    if calls != [] {
      var init, last := calls[..|calls| - 1], calls[|calls| - 1];
      RunKeepsShape(input, preview, init);
      StepKeepsShape(input, preview, init, last);
      assert init + [last] == calls;
    }
  }

  lemma {:induction false} StepKeepsShape(input: Input, preview: bool, init: seq<Call>, last: Call)
    requires Follows(input, preview, init + [last]) && Shape(input, preview, init, After(input, preview, init))
    ensures Shape(input, preview, init + [last], After(input, preview, init + [last]))
  {
    var calls, phase := init + [last], After(input, preview, init);
    assert calls[..|calls| - 1] == init && calls[|calls| - 1] == last;
    assert Commits(calls) == Commits(init) + if last.request.Commit? then 1 else 0;
    if Stage(phase) > 0 {
      EarlyStep(input, preview, init, last, phase);
    } else {
      LateStep(input, preview, init, last, phase);
    }
  }

  lemma {:induction false} EarlyStep(input: Input, preview: bool, init: seq<Call>, last: Call, phase: Phase)
    requires Stage(phase) > 0 && Sound(input, phase) && Shape(input, preview, init, phase)
    requires Commits(init + [last]) == Commits(init)
    ensures Shape(input, preview, init + [last], Advance(input, preview, phase, last.reply))
  {
    match phase {
      case Reading =>
      case Resolving(_, _) =>
      case Looking(_, _, _) =>
        LookingStep(input, preview, init, last, phase);
      case Targeting(plan, read) =>
        TargetingStep(input, preview, init, last, plan, read);
    }
  }

  lemma LookingStep(input: Input, preview: bool, init: seq<Call>, last: Call, phase: Phase)
    requires phase.Looking? && Sound(input, phase) && Shape(input, preview, init, phase)
    requires Commits(init + [last]) == Commits(init)
    ensures Shape(input, preview, init + [last], Advance(input, preview, phase, last.reply))
  {
    DB.MatchedCanonical(input.bindings, phase.artifact.datasources);
    if last.reply.Workbooks? {
      LocatedGrounded(input, preview, phase.artifact, phase.bindings, phase.project, last.reply.luids);
    }
  }

  lemma TargetingStep(input: Input, preview: bool, init: seq<Call>, last: Call, plan: Plan, read: nat)
    requires read < |plan.bindings| && Commits(init) == 0 && Grounded(input, plan)
    requires Commits(init + [last]) == Commits(init)
    ensures Shape(input, preview, init + [last], Advance(input, preview, Targeting(plan, read), last.reply))
  {
    if last.reply.ContentUrl? {
      RewriteGrounded(input, plan, plan.rewrite[plan.bindings[read].source := last.reply.url]);
    }
  }

  lemma RewriteGrounded(input: Input, plan: Plan, rewrite: map<Bytes, Bytes>)
    requires Grounded(input, plan)
    ensures Grounded(input, plan.(rewrite := rewrite))
  {
  }

  lemma {:induction false} LateStep(input: Input, preview: bool, init: seq<Call>, last: Call, phase: Phase)
    requires Stage(phase) == 0 && !phase.Over? && Sound(input, phase) && Shape(input, preview, init, phase)
    requires last.request == RequestOf(input, phase)
    requires Commits(init + [last]) == Commits(init) + if last.request.Commit? then 1 else 0
    ensures Shape(input, preview, init + [last], Advance(input, preview, phase, last.reply))
  {
    var calls := init + [last];
    assert calls[..|calls| - 1] == init && calls[|calls| - 1] == last;
    match phase {
      case Verifying(plan) =>
      case Preparing(plan) =>
      case VerifyingAgain(plan) =>
        assert calls[..|calls| - 2] == init[..|init| - 1];
        assert StandsLast(init[..|init| - 1], plan);
      case Committing(plan) =>
    }
  }

  lemma LocatedGrounded(
    input: Input, preview: bool, artifact: Artifact, bindings: seq<DB.Binding>, project: Project, found: seq<Bytes>)
    requires Choice(input, artifact).Ok? && DB.Matched(input.bindings, artifact.datasources) == Ok(bindings)
    requires DB.Canonical(bindings, artifact.datasources)
    ensures var phase := Located(input, preview, artifact, bindings, project, found);
      match phase
        case Over(Refused(_)) => true
        case Over(Previewed(plan)) => preview && Grounded(input, plan)
        case Targeting(plan, _) => Grounded(input, plan)
        case Verifying(plan) => plan.overwrite && Applied(input, preview, plan)
        case Preparing(plan) => !plan.overwrite && Applied(input, preview, plan)
        case _ => false
  {
  }

  // ----- Where a plan comes from -----

  /** The first call read the artifact. */
  ghost predicate ArtifactRead(input: Input, calls: seq<Call>, artifact: Artifact) {
    calls != [] && calls[0] == Call(ReadWorkbook(input.artifactPath), OneArtifact(artifact))
  }

  /** The selector that decides the project: the recorded source if that was defaulted to, and otherwise what the
      caller selected, or the project it named outside the selector. */
  ghost predicate Decides(input: Input, artifact: Artifact, selector: Selector) {
    && (input.sourceDefaulted ==> selector == Selector(artifact.sourceProjectId, artifact.sourceProjectName))
    && (!input.sourceDefaulted && input.selector != Selector([], []) ==> selector == input.selector)
    && (!input.sourceDefaulted && input.selector == Selector([], []) ==>
      selector == Selector(input.projectLuid, input.projectPath))
  }

  /** The second call resolved the project. */
  ghost predicate ProjectResolved(input: Input, calls: seq<Call>, artifact: Artifact, project: Project) {
    && |calls| >= 2 && calls[1].request.ResolveProject? && Decides(input, artifact, calls[1].request.selector)
    && calls[1].reply == OneProject(project)
  }

  /** The third call looked the name up in the project: nothing was there, or one workbook that may be replaced. */
  ghost predicate NameLookedUp(input: Input, calls: seq<Call>, plan: Plan) {
    && |calls| >= 3 && calls[2].request == FindWorkbooks(plan.destination.name, plan.destination.project)
    && calls[2].reply.Workbooks?
    && plan.destination.name == (
      if input.sourceDefaulted || input.name == [] then plan.artifact.name else input.name)
    && var found := calls[2].reply.luids;
      && |found| <= 1 && (found != [] ==> input.overwrite || input.sourceDefaulted)
      && plan.destination.existing == (if found == [] then [] else found[0])
      && (input.sourceDefaulted ==> found == [plan.artifact.tableauId])
  }

  /** The target of a binding was read, and the rewrite leads the source to it. */
  ghost predicate TargetRead(calls: seq<Call>, bindings: seq<DB.Binding>, rewrite: map<Bytes, Bytes>, i: nat)
    requires i < |bindings|
  {
    && i + 3 < |calls| && calls[i + 3].request == ReadDatasource(bindings[i].target)
    && calls[i + 3].reply.ContentUrl? && calls[i + 3].reply.url != []
    && bindings[i].source in rewrite && rewrite[bindings[i].source] == calls[i + 3].reply.url
  }

  /** The calls after the first three read the targets of n bindings, and the rewrite is what they answered. */
  ghost predicate TargetsRead(calls: seq<Call>, bindings: seq<DB.Binding>, rewrite: map<Bytes, Bytes>, n: nat)
    requires n <= |bindings|
  {
    && (forall i: nat | i < n :: TargetRead(calls, bindings, rewrite, i))
    && forall source <- rewrite :: exists i: nat :: i < n && bindings[i].source == source
  }

  ghost predicate DistinctSources(bindings: seq<DB.Binding>) {
    forall i, j | 0 <= i < j < |bindings| :: bindings[i].source != bindings[j].source
  }

  /** A plan, with the targets of n bindings read, carries what its calls answered and the input asked for. */
  ghost predicate PlannedBy(input: Input, calls: seq<Call>, plan: Plan, n: nat)
    requires n <= |plan.bindings|
  {
    && ArtifactRead(input, calls, plan.artifact)
    && ProjectResolved(input, calls, plan.artifact, Project(plan.destination.project, plan.projectPath))
    && NameLookedUp(input, calls, plan)
    && TargetsRead(calls, plan.bindings, plan.rewrite, n) && DistinctSources(plan.bindings)
    && plan.overwrite == (input.overwrite || input.sourceDefaulted) && plan.workspace == input.workspace
    && plan.destination.environment == input.environment && plan.destination.site == input.site
  }

  /** A finished plan of a run. */
  ghost predicate Planned(input: Input, calls: seq<Call>, plan: Plan) {
    |calls| >= 3 + |plan.bindings| && PlannedBy(input, calls, plan, |plan.bindings|)
  }

  ghost predicate Origin(input: Input, calls: seq<Call>, phase: Phase) {
    match phase
    case Reading => calls == []
    case Resolving(artifact, bindings) =>
      |calls| == 1 && ArtifactRead(input, calls, artifact) && DistinctSources(bindings)
    case Looking(artifact, bindings, project) =>
      && |calls| == 2 && ArtifactRead(input, calls, artifact) && ProjectResolved(input, calls, artifact, project)
      && DistinctSources(bindings)
    case Targeting(plan, read) =>
      |calls| == 3 + read && read <= |plan.bindings| && PlannedBy(input, calls, plan, read)
    case Verifying(plan) => Planned(input, calls, plan)
    case Preparing(plan) => Planned(input, calls, plan)
    case VerifyingAgain(plan) => Planned(input, calls, plan)
    case Committing(plan) => Planned(input, calls, plan)
    case Over(outcome) => !outcome.Refused? ==> Planned(input, calls, outcome.plan)
  }

  lemma PlannedMore(input: Input, init: seq<Call>, last: Call, plan: Plan, n: nat)
    requires n <= |plan.bindings| && PlannedBy(input, init, plan, n)
    ensures PlannedBy(input, init + [last], plan, n)
  {
    forall i: nat | i < n
      ensures TargetRead(init + [last], plan.bindings, plan.rewrite, i)
    {
      assert TargetRead(init, plan.bindings, plan.rewrite, i);
    }
  }

  lemma TargetsMore(
    init: seq<Call>, last: Call, bindings: seq<DB.Binding>, rewrite: map<Bytes, Bytes>, n: nat)
    requires n < |bindings| && |init| == n + 3 && TargetsRead(init, bindings, rewrite, n) && DistinctSources(bindings)
    requires last.request == ReadDatasource(bindings[n].target) && last.reply.ContentUrl? && last.reply.url != []
    ensures TargetsRead(init + [last], bindings, rewrite[bindings[n].source := last.reply.url], n + 1)
  {
    var calls, further := init + [last], rewrite[bindings[n].source := last.reply.url];
    forall i: nat | i < n + 1
      ensures TargetRead(calls, bindings, further, i)
    {
      if i < n {
        assert TargetRead(init, bindings, rewrite, i);
      }
    }
    forall source <- further
      ensures exists i: nat :: i < n + 1 && bindings[i].source == source
    {
      if source != bindings[n].source {
        var i: nat :| i < n && bindings[i].source == source;
      } else {
        assert bindings[n].source == source;
      }
    }
  }

  lemma {:induction false} LookingOrigin(input: Input, preview: bool, init: seq<Call>, last: Call, phase: Phase)
    requires phase.Looking? && Sound(input, phase) && Origin(input, init, phase)
    requires last.request == RequestOf(input, phase)
    ensures Origin(input, init + [last], Advance(input, preview, phase, last.reply))
  {
  }

  lemma {:induction false} TargetingOrigin(
    input: Input, preview: bool, init: seq<Call>, last: Call, plan: Plan, read: nat)
    requires read < |plan.bindings| && Origin(input, init, Targeting(plan, read))
    requires last.request == ReadDatasource(plan.bindings[read].target)
    ensures Origin(input, init + [last], Advance(input, preview, Targeting(plan, read), last.reply))
  {
    if last.reply.ContentUrl? && last.reply.url != [] {
      PlannedMore(input, init, last, plan, read);
      TargetsMore(init, last, plan.bindings, plan.rewrite, read);
    }
  }

  lemma {:induction false} StepKeepsOrigin(input: Input, preview: bool, init: seq<Call>, last: Call, phase: Phase)
    requires Sound(input, phase) && !phase.Over? && Origin(input, init, phase)
    requires last.request == RequestOf(input, phase)
    ensures Origin(input, init + [last], Advance(input, preview, phase, last.reply))
  {
    match phase {
      case Reading =>
        if last.reply.OneArtifact? && DB.Matched(input.bindings, last.reply.artifact.datasources).Ok? {
          DB.MatchedCanonical(input.bindings, last.reply.artifact.datasources);
        }
      case Resolving(artifact, _) =>
      case Looking(_, _, _) =>
        LookingOrigin(input, preview, init, last, phase);
      case Targeting(plan, read) =>
        TargetingOrigin(input, preview, init, last, plan, read);
      case Verifying(plan) =>
        PlannedMore(input, init, last, plan, |plan.bindings|);
      case Preparing(plan) =>
        PlannedMore(input, init, last, plan, |plan.bindings|);
      case VerifyingAgain(plan) =>
        PlannedMore(input, init, last, plan, |plan.bindings|);
      case Committing(plan) =>
        PlannedMore(input, init, last, plan, |plan.bindings|);
    }
  }

  /** Every plan of a run carries the artifact that was read, the project that the caller's selector resolved to,
      what was found under its name there, and exactly what the targets of its bindings answered. */
  lemma {:induction false} RunKeepsOrigin(input: Input, preview: bool, calls: seq<Call>)
    requires Follows(input, preview, calls)
    ensures Origin(input, calls, After(input, preview, calls))
    decreases |calls|
  {
    if calls != [] {
      var init, last := calls[..|calls| - 1], calls[|calls| - 1];
      RunKeepsOrigin(input, preview, init);
      StepKeepsOrigin(input, preview, init, last, After(input, preview, init));
      assert init + [last] == calls;
    }
  }

  // ----- What the last call decides -----

  /** What a committed plan comes to, by the reply to its commit alone. */
  ghost predicate CommitTold(last: Call, outcome: Outcome)
    requires last.request.Commit?
  {
    var plan := last.request.plan;
    match last.reply
    case Failure(effect) => outcome == CommitFailed(plan, effect)
    case Done(published) =>
      var there := published.name == plan.destination.name && published.project == plan.destination.project;
      && (outcome == Submitted(plan, published) <==> !published.succeeded)
      && (outcome == Confirmed(plan, published) <==> published.succeeded && there)
      && (outcome == Misplaced(plan, published) <==> published.succeeded && !there)
    case _ => false
  }

  /** A lookup found just what the lookup of the plan found. */
  ghost predicate FoundAgain(planned: seq<Bytes>, found: seq<Bytes>) {
    var existing := if planned == [] then [] else planned[0];
    (found == [] && existing == []) || found == [existing]
  }

  /** Why a run was refused, by its last call: before the plan was finished. */
  ghost predicate PlanRefused(input: Input, last: Call, error: Error) {
    && (error == ArtifactUnread <==> last.request.ReadWorkbook? && last.reply.Failure?)
    && (error.BadBindings? || error == SourceIncomplete || error == NoName
        <==> last.request.ReadWorkbook? && last.reply.OneArtifact?)
    && (error.BadBindings? ==>
      DB.Matched(input.bindings, last.reply.artifact.datasources) == Err(error.cause))
    && (error == SourceIncomplete ==>
      input.sourceDefaulted && last.reply.artifact.sourceProjectId == last.reply.artifact.sourceProjectName == [])
    && (error == NoName ==> last.reply.artifact.name == [] && (input.name == [] || input.sourceDefaulted))
    && (error == ProjectUnresolved <==> last.request.ResolveProject? && last.reply.Failure?)
    && (error == TargetUnread <==>
      last.request.ReadDatasource? && (last.reply.Failure? || last.reply == ContentUrl([])))
  }

  /** Why the first lookup refused a run. */
  ghost predicate LookupRefused(input: Input, calls: seq<Call>, last: Call, error: Error) {
    var looked, found := |calls| == 3, if last.reply.Workbooks? then last.reply.luids else [];
    && (error == LookupFailed <==> looked && last.reply.Failure?)
    && (error == SourceChanged <==>
      && looked && last.reply.Workbooks? && input.sourceDefaulted && calls[0].reply.OneArtifact?
      && found != [calls[0].reply.artifact.tableauId])
    && (error == AmbiguousTarget <==> looked && !input.sourceDefaulted && |found| > 1)
    && (error == Conflict <==> looked && !input.sourceDefaulted && |found| == 1 && !input.overwrite)
    && (error == DestinationChanged ==> looked && last.reply.Workbooks? && input.expected.Some?)
  }

  /** Why a finished plan was refused. */
  ghost predicate ApplyRefused(calls: seq<Call>, last: Call, error: Error) {
    && (error == PreparationFailed <==> last.request.Prepare? && last.reply.Failure?)
    && (error == RevalidationFailed <==> last.request.FindWorkbooks? && |calls| > 3 && last.reply.Failure?)
    && (error == TargetChanged <==>
      && last.request.FindWorkbooks? && |calls| > 3 && last.reply.Workbooks?
      && !(calls[2].reply.Workbooks? && FoundAgain(calls[2].reply.luids, last.reply.luids)))
  }

  /** What the last call of a run says of its outcome. */
  ghost predicate LastTold(input: Input, calls: seq<Call>, last: Call, outcome: Outcome) {
    && (last.request.Commit? <==> !outcome.Refused? && !outcome.Previewed?)
    && (last.request.Commit? ==> CommitTold(last, outcome))
    && (outcome.Refused? ==>
      && PlanRefused(input, last, outcome.error) && LookupRefused(input, calls, last, outcome.error)
      && ApplyRefused(calls, last, outcome.error))
  }

  /** The project that was resolved has no identifier. */
  ghost predicate NoProject(calls: seq<Call>) {
    |calls| >= 2 && calls[1].reply.OneProject? && calls[1].reply.project.luid == []
  }

  /** What a run comes to, by its calls: a commit is always reported as one, and nothing else is. */
  ghost predicate Told(input: Input, preview: bool, calls: seq<Call>, outcome: Outcome) {
    && (!outcome.Refused? ==> Planned(input, calls, outcome.plan))
    && (outcome.Previewed? ==> preview)
    && (outcome == Refused(NotAPlan) ==> NoProject(calls))
    && (!outcome.Refused? && !outcome.Previewed? ==> outcome.plan.destination.project != [])
    && (calls == [] <==> outcome == Refused(Invalid))
    && (calls == [] <==> !ValidInput(input))
    && (calls != [] ==> LastTold(input, calls, calls[|calls| - 1], outcome))
  }

  /** The last call ended the planning. */
  lemma {:induction false} EarlyTells(
    input: Input, preview: bool, calls: seq<Call>, init: seq<Call>, last: Call, phase: Phase, outcome: Outcome)
    requires Stage(phase) > 0 && Sound(input, phase) && Origin(input, init, phase) && calls == init + [last]
    requires last.request == RequestOf(input, phase) && Fits(last.request, last.reply)
    requires Advance(input, preview, phase, last.reply) == Over(outcome)
    ensures LastTold(input, calls, last, outcome)
  {
    match phase {
      case Reading =>
      case Resolving(_, _) =>
      case Looking(_, _, _) =>
        LookingTells(input, preview, calls, init, last, phase, outcome);
      case Targeting(plan, read) =>
    }
  }

  /** What the workbooks of that name rule out. */
  lemma LocatedRefuses(
    input: Input, preview: bool, artifact: Artifact, bindings: seq<DB.Binding>, project: Project, found: seq<Bytes>,
    outcome: Outcome)
    requires Choice(input, artifact).Ok?
    requires Located(input, preview, artifact, bindings, project, found) == Over(outcome)
    ensures outcome.Previewed? || outcome.Refused?
    ensures outcome.Refused? ==> var error := outcome.error;
      && (error == SourceChanged <==> input.sourceDefaulted && found != [artifact.tableauId])
      && (error == AmbiguousTarget <==> !input.sourceDefaulted && |found| > 1)
      && (error == Conflict <==> !input.sourceDefaulted && |found| == 1 && !input.overwrite)
      && (error == DestinationChanged ==> input.expected.Some?)
      && error in {SourceChanged, AmbiguousTarget, Conflict, DestinationChanged, NotAPlan}
  {
  }

  lemma {:induction false} LookingTells(
    input: Input, preview: bool, calls: seq<Call>, init: seq<Call>, last: Call, phase: Phase, outcome: Outcome)
    requires phase.Looking? && Sound(input, phase) && Origin(input, init, phase) && calls == init + [last]
    requires last.request == RequestOf(input, phase) && Fits(last.request, last.reply)
    requires Advance(input, preview, phase, last.reply) == Over(outcome)
    ensures LastTold(input, calls, last, outcome)
  {
    assert calls[0] == init[0] && |calls| == 3;
    if last.reply.Workbooks? {
      LocatedRefuses(input, preview, phase.artifact, phase.bindings, phase.project, last.reply.luids, outcome);
    }
  }

  /** The last call ended the publication of a finished plan. */
  lemma {:induction false} LateTells(
    input: Input, preview: bool, calls: seq<Call>, init: seq<Call>, last: Call, phase: Phase, outcome: Outcome)
    requires Stage(phase) == 0 && !phase.Over? && Origin(input, init, phase) && calls == init + [last]
    requires Sound(input, phase) && last.request == RequestOf(input, phase) && Fits(last.request, last.reply)
    requires Advance(input, preview, phase, last.reply) == Over(outcome)
    ensures LastTold(input, calls, last, outcome)
  {
    assert |init| >= 3 && calls[2] == init[2];
  }

  lemma {:induction false} StartedValid(input: Input, preview: bool, calls: seq<Call>)
    requires Follows(input, preview, calls) && calls != []
    ensures ValidInput(input)
    decreases |calls|
  {
    var init := calls[..|calls| - 1];
    if init != [] {
      StartedValid(input, preview, init);
    }
  }

  /** The last call of a run that is over. */
  lemma {:induction false} LastStep(input: Input, preview: bool, calls: seq<Call>, outcome: Outcome)
      returns (init: seq<Call>, last: Call, phase: Phase)
    requires Reached(input, preview, calls, Over(outcome)) && calls != []
    ensures calls == init + [last] && calls[|calls| - 1] == last && Origin(input, init, phase) && Sound(input, phase)
      && !phase.Over?
    ensures last.request == RequestOf(input, phase) && Fits(last.request, last.reply)
    ensures Advance(input, preview, phase, last.reply) == Over(outcome)
    ensures phase.Targeting? ==> Grounded(input, phase.plan)
  {
    init, last := calls[..|calls| - 1], calls[|calls| - 1];
    phase := After(input, preview, init);
    RunKeepsOrigin(input, preview, init);
    RunKeepsShape(input, preview, init);
  }

  lemma {:induction false} LastExplains(input: Input, preview: bool, calls: seq<Call>, outcome: Outcome)
    requires Reached(input, preview, calls, Over(outcome)) && calls != []
    ensures LastTold(input, calls, calls[|calls| - 1], outcome)
  {
    var init, last, phase := LastStep(input, preview, calls, outcome);
    if Stage(phase) > 0 {
      EarlyTells(input, preview, calls, init, last, phase, outcome);
    } else {
      LateTells(input, preview, calls, init, last, phase, outcome);
    }
  }

  lemma {:induction false} RunPlanned(input: Input, preview: bool, calls: seq<Call>, outcome: Outcome)
    requires Reached(input, preview, calls, Over(outcome))
    ensures !outcome.Refused? ==> Planned(input, calls, outcome.plan)
    ensures outcome.Previewed? ==> preview
    ensures calls == [] <==> outcome == Refused(Invalid)
    ensures calls == [] <==> !ValidInput(input)
    ensures !outcome.Refused? && !outcome.Previewed? ==> outcome.plan.destination.project != []
  {
    RunKeepsOrigin(input, preview, calls);
    RunKeepsShape(input, preview, calls);
    if calls != [] {
      StartedValid(input, preview, calls);
    }
  }

  /** A plan is not applied only because its project has no identifier. */
  lemma {:induction false} NotAPlanMeans(input: Input, preview: bool, calls: seq<Call>, outcome: Outcome)
    requires Reached(input, preview, calls, Over(outcome)) && calls != []
    ensures outcome == Refused(NotAPlan) ==> NoProject(calls)
  {
    var init, last, phase := LastStep(input, preview, calls, outcome);
    if outcome != Refused(NotAPlan) {
      return;
    }
    if phase.Looking? {
      NoProjectLooked(input, preview, phase, last.reply);
    } else if phase.Targeting? {
      assert Grounded(input, phase.plan);
    }
  }

  lemma NoProjectLooked(input: Input, preview: bool, phase: Phase, reply: Reply)
    requires phase.Looking? && Sound(input, phase)
    requires Advance(input, preview, phase, reply) == Over(Refused(NotAPlan))
    ensures phase.project.luid == []
  {
  }

  /** The calls of a run that is over explain its outcome. */
  lemma {:induction false} RunTells(input: Input, preview: bool, calls: seq<Call>, outcome: Outcome)
    requires Reached(input, preview, calls, Over(outcome))
    ensures Told(input, preview, calls, outcome)
  {
    RunPlanned(input, preview, calls, outcome);
    if calls != [] {
      LastExplains(input, preview, calls, outcome);
      NotAPlanMeans(input, preview, calls, outcome);
    }
  }

  // ----- Planning again -----

  /** The input of a batch, pinned to a plan. */
  function ExpectDestination(input: Input, expected: Destination): Input {
    input.(environment := expected.environment, site := expected.site, name := expected.name,
      projectLuid := expected.project, projectPath := [], selector := Selector(expected.project, []),
      expected := Some(expected))
  }

  function PrepareInput(plan: Plan, input: Input): Input {
    var pinned := ExpectDestination(input, plan.destination);
    if plan.workspace != [] then pinned.(workspace := plan.workspace) else pinned
  }

  /** A pinned input only ever plans the pinned destination. */
  lemma {:induction false} PinnedDestination(input: Input, plan: Plan, preview: bool, calls: seq<Call>)
    requires Follows(PrepareInput(plan, input), preview, calls)
    ensures match After(PrepareInput(plan, input), preview, calls)
      case Over(Previewed(again)) => again.destination == plan.destination
      case Over(CommitFailed(again, _)) => again.destination == plan.destination
      case Over(Submitted(again, _)) => again.destination == plan.destination
      case Over(Confirmed(again, _)) => again.destination == plan.destination
      case Over(Misplaced(again, _)) => again.destination == plan.destination
      case _ => true
  {
    RunKeepsShape(PrepareInput(plan, input), preview, calls);
  }

  /** A site and a workspace in which nothing changes. */
  datatype World = World(
    read: Bytes -> Option<Artifact>, resolve: Selector -> Option<Project>,
    find: (Bytes, Bytes) -> Option<seq<Bytes>>, url: Bytes -> Option<Bytes>)

  /** What the unchanging world answers. */
  function ReplyIn(world: World, request: Request): (reply: Reply)
    ensures Fits(request, reply)
  {
    match request
    case ReadWorkbook(path) => (match world.read(path) case None => Failure(Unknown) case Some(a) => OneArtifact(a))
    case ResolveProject(selector) =>
      (match world.resolve(selector) case None => Failure(Unknown) case Some(p) => OneProject(p))
    case FindWorkbooks(name, project) =>
      (match world.find(name, project) case None => Failure(Unknown) case Some(f) => Workbooks(f))
    case ReadDatasource(luid) => (match world.url(luid) case None => Failure(Unknown) case Some(u) => ContentUrl(u))
    case _ => Failure(Unknown)
  }

  function Unread(phase: Phase): int {
    if phase.Targeting? then |phase.plan.bindings| - phase.read else 0
  }

  /** Where a preview ends in an unchanging world. */
  function EndIn(world: World, input: Input, phase: Phase): Phase
    requires Sound(input, phase)
    decreases Stage(phase), Unread(phase)
  {
    if Stage(phase) == 0 then phase
    else EndIn(world, input, Advance(input, true, phase, ReplyIn(world, RequestOf(input, phase))))
  }

  /** A preview in an unchanging world is determined by it. */
  lemma {:induction false} PreviewIn(world: World, input: Input, calls: seq<Call>)
    requires Follows(input, true, calls) && forall k | 0 <= k < |calls| ::
      calls[k].reply == ReplyIn(world, calls[k].request)
    ensures EndIn(world, input, After(input, true, calls)) == EndIn(world, input, Start(input))
    decreases |calls|
  {
    if calls != [] {
      var init := calls[..|calls| - 1];
      PreviewIn(world, input, init);
      RunKeepsShape(input, true, init);
    }
  }

  lemma {:induction false} TargetsIgnoreInput(world: World, a: Input, b: Input, plan: Plan, read: nat)
    requires read <= |plan.bindings|
    ensures EndIn(world, a, Targeted(true, plan, read)) == EndIn(world, b, Targeted(true, plan, read))
    decreases |plan.bindings| - read
  {
    if read < |plan.bindings| {
      var reply := ReplyIn(world, ReadDatasource(plan.bindings[read].target));
      if reply.ContentUrl? && reply.url != [] {
        var further := plan.(rewrite := plan.rewrite[plan.bindings[read].source := reply.url]);
        TargetsIgnoreInput(world, a, b, further, read + 1);
      }
    }
  }

  /** Reading targets changes nothing of a plan but its rewrite. */
  lemma {:induction false} TargetsKeepPlan(world: World, input: Input, plan: Plan, read: nat)
    requires read <= |plan.bindings|
    ensures var end := EndIn(world, input, Targeted(true, plan, read));
      match end
        case Over(Previewed(p)) => p.(rewrite := map[]) == plan.(rewrite := map[])
        case Over(Refused(_)) => true
        case _ => false
    decreases |plan.bindings| - read
  {
    if read < |plan.bindings| {
      var reply := ReplyIn(world, ReadDatasource(plan.bindings[read].target));
      if reply.ContentUrl? && reply.url != [] {
        var further := plan.(rewrite := plan.rewrite[plan.bindings[read].source := reply.url]);
        TargetsKeepPlan(world, input, further, read + 1);
      }
    }
  }

  /** The reads that lead a preview to its draft. */
  ghost predicate Drafts(
    world: World, input: Input, artifact: Artifact, bindings: seq<DB.Binding>, project: Project, found: seq<Bytes>)
  {
    && ValidInput(input)
    && world.read(input.artifactPath) == Some(artifact)
    && DB.Matched(input.bindings, artifact.datasources) == Ok(bindings)
    && Choice(input, artifact).Ok?
    && world.resolve(Choice(input, artifact).value.1) == Some(project)
    && world.find(Choice(input, artifact).value.0, project.luid) == Some(found)
  }

  lemma DraftReached(
    world: World, input: Input, artifact: Artifact, bindings: seq<DB.Binding>, project: Project, found: seq<Bytes>)
    requires Drafts(world, input, artifact, bindings, project, found)
    ensures EndIn(world, input, Start(input))
      == EndIn(world, input, Located(input, true, artifact, bindings, project, found))
  {
    var resolving, looking := Resolving(artifact, bindings), Looking(artifact, bindings, project);
    assert EndIn(world, input, Reading) == EndIn(world, input, resolving);
    assert EndIn(world, input, resolving) == EndIn(world, input, looking);
  }

  lemma DraftExists(world: World, input: Input)
      returns (artifact: Artifact, bindings: seq<DB.Binding>, project: Project, found: seq<Bytes>)
    requires EndIn(world, input, Start(input)).Over? && EndIn(world, input, Start(input)).outcome.Previewed?
    ensures Drafts(world, input, artifact, bindings, project, found)
  {
    assert ValidInput(input);
    var resolving := Advance(input, true, Reading, ReplyIn(world, RequestOf(input, Reading)));
    assert resolving.Resolving?;
    artifact, bindings := resolving.artifact, resolving.bindings;
    var looking := Advance(input, true, resolving, ReplyIn(world, RequestOf(input, resolving)));
    assert EndIn(world, input, resolving) == EndIn(world, input, looking);
    project := looking.project;
    found := world.find(Choice(input, artifact).value.0, project.luid).value;
  }

  /** A preview comes from the draft that its first reads lead to. */
  lemma PreviewOfDraft(
    world: World, input: Input, plan: Plan, artifact: Artifact, bindings: seq<DB.Binding>, project: Project,
    found: seq<Bytes>) returns (draft: Plan)
    requires EndIn(world, input, Start(input)) == Over(Previewed(plan))
    requires Drafts(world, input, artifact, bindings, project, found)
    ensures Located(input, true, artifact, bindings, project, found) == Targeted(true, draft, 0)
    ensures Collision(input, artifact, found).Ok?
    ensures draft == Draft(input, artifact, bindings, Choice(input, artifact).value.0, project,
      Collision(input, artifact, found).value)
    ensures EndIn(world, input, Targeted(true, draft, 0)) == Over(Previewed(plan))
    ensures draft.(rewrite := map[]) == plan.(rewrite := map[])
  {
    DraftReached(world, input, artifact, bindings, project, found);
    assert Collision(input, artifact, found).Ok?;
    draft := Draft(input, artifact, bindings, Choice(input, artifact).value.0, project,
      Collision(input, artifact, found).value);
    TargetsKeepPlan(world, input, draft, 0);
  }

  /** A pinned input chooses the planned name and project. */
  lemma PinnedChoice(input: Input, plan: Plan, artifact: Artifact)
    requires Choice(input, artifact).Ok? && plan.destination.name == Choice(input, artifact).value.0
    requires plan.destination.project != []
    ensures Choice(PrepareInput(plan, input), artifact).Ok?
    ensures Choice(PrepareInput(plan, input), artifact).value.0 == plan.destination.name
    ensures !input.sourceDefaulted ==>
      Choice(PrepareInput(plan, input), artifact).value.1 == Selector(plan.destination.project, [])
    ensures input.sourceDefaulted ==>
      Choice(PrepareInput(plan, input), artifact).value.1 == Choice(input, artifact).value.1
  {
  }

  /** The first reads of a pinned input lead to the same draft. */
  lemma PinnedDraft(
    world: World, input: Input, plan: Plan, artifact: Artifact, bindings: seq<DB.Binding>, project: Project,
    found: seq<Bytes>, draft: Plan)
    requires Drafts(world, input, artifact, bindings, project, found) && Collision(input, artifact, found).Ok?
    requires draft == Draft(input, artifact, bindings, Choice(input, artifact).value.0, project,
      Collision(input, artifact, found).value)
    requires draft.destination == plan.destination && draft.projectPath == plan.projectPath
    requires draft.workspace == plan.workspace && plan.destination.project != []
    requires world.resolve(Selector(plan.destination.project, []))
      == Some(Project(plan.destination.project, plan.projectPath))
    ensures Drafts(world, PrepareInput(plan, input), artifact, bindings, project, found)
    ensures Located(PrepareInput(plan, input), true, artifact, bindings, project, found) == Targeted(true, draft, 0)
  {
    PinnedChoice(input, plan, artifact);
    PinnedLocated(input, plan, artifact, bindings, project, found, draft);
  }

  /** A pinned input finds the same draft among the same workbooks. */
  lemma PinnedLocated(
    input: Input, plan: Plan, artifact: Artifact, bindings: seq<DB.Binding>, project: Project,
    found: seq<Bytes>, draft: Plan)
    requires Choice(input, artifact).Ok? && Collision(input, artifact, found).Ok?
    requires Choice(PrepareInput(plan, input), artifact).Ok?
    requires Choice(PrepareInput(plan, input), artifact).value.0 == plan.destination.name
    requires draft == Draft(input, artifact, bindings, Choice(input, artifact).value.0, project,
      Collision(input, artifact, found).value)
    requires draft.destination == plan.destination && draft.workspace == plan.workspace
    ensures Located(PrepareInput(plan, input), true, artifact, bindings, project, found) == Targeted(true, draft, 0)
  {
  }

  /** While nothing changes, planning a pinned input gives the same plan again, provided that the
      project has an identifier and is found by it. */
  lemma PinnedReplan(world: World, input: Input, plan: Plan)
    requires EndIn(world, input, Start(input)) == Over(Previewed(plan))
    requires plan.destination.project != []
    requires world.resolve(Selector(plan.destination.project, []))
      == Some(Project(plan.destination.project, plan.projectPath))
    ensures EndIn(world, PrepareInput(plan, input), Start(PrepareInput(plan, input))) == Over(Previewed(plan))
  {
    var artifact, bindings, project, found := DraftExists(world, input);
    var draft := PreviewOfDraft(world, input, plan, artifact, bindings, project, found);
    PinnedDraft(world, input, plan, artifact, bindings, project, found, draft);
    DraftReached(world, PrepareInput(plan, input), artifact, bindings, project, found);
    TargetsIgnoreInput(world, input, PrepareInput(plan, input), draft, 0);
  }
}
