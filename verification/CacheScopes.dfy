/** Scopes of the inventory cache: the refresh action normalises them from a flat table of
    dependencies (actions/cache/refresh.go), the collector plans them by walking direct
    dependencies (internal/tableau/cache/engine.go), and the two agree. */
module CacheScopes {
  import opened Common

  datatype Scope = Users | Groups | Projects | Workbooks | Datasources | Flows | Views | Permissions

  /** The canonical order. */
  const SUPPORTED: seq<Scope> := [Users, Groups, Projects, Workbooks, Datasources, Flows, Views, Permissions]

  function Index(scope: Scope): (i: nat)
    ensures i < |SUPPORTED| && SUPPORTED[i] == scope
  {
    match scope
    case Users => 0 case Groups => 1 case Projects => 2 case Workbooks => 3
    case Datasources => 4 case Flows => 5 case Views => 6 case Permissions => 7
  }

  datatype Error = UnknownScope | DuplicateScope

  // ----- Normalising scopes -----

  function Needs(scope: Scope): set<Scope> {
    match scope
    case Workbooks => {Projects}
    case Datasources => {Projects}
    case Flows => {Projects}
    case Views => {Projects, Workbooks}
    case Permissions => {Projects, Workbooks}
    case _ => {}
  }

  /** The selected scopes of the first n, in canonical order. */
  function InOrder(selected: set<Scope>, n: nat): seq<Scope>
    requires n <= |SUPPORTED|
  {
    if n == 0 then []
    else InOrder(selected, n - 1) + if SUPPORTED[n - 1] in selected then [SUPPORTED[n - 1]] else []
  }

  ghost predicate Ordered(scopes: seq<Scope>) {
    forall i, j | 0 <= i < j < |scopes| :: Index(scopes[i]) < Index(scopes[j])
  }

  lemma {:induction false} InOrderSorts(selected: set<Scope>, n: nat)
    requires n <= |SUPPORTED|
    ensures Ordered(InOrder(selected, n))
    ensures forall scope: Scope :: scope in InOrder(selected, n) <==> scope in selected && Index(scope) < n
  {
    if n > 0 {
      InOrderSorts(selected, n - 1);
      assert Index(SUPPORTED[n - 1]) == n - 1;
    }
  }

  lemma OrderedLast(scopes: seq<Scope>)
    requires Ordered(scopes) && scopes != []
    ensures NoDuplicates(scopes)
    ensures var n := |scopes| - 1;
      Elements(scopes[..n]) == Elements(scopes) - {scopes[n]} && forall scope <- scopes ::
        Index(scope) <= Index(scopes[n])
  {
    var n := |scopes| - 1;
    assert scopes == scopes[..n] + [scopes[n]];
    assert scopes[n] !in scopes[..n];
  }

  /** There is one ordered list of a set of scopes. */
  lemma {:induction false} OrderedUnique(a: seq<Scope>, b: seq<Scope>)
    requires Ordered(a) && Ordered(b) && Elements(a) == Elements(b)
    ensures a == b
    decreases |a|
  {
    if a != [] && b != [] {
      OrderedLast(a);
      OrderedLast(b);
      var x, y := a[|a| - 1], b[|b| - 1];
      assert x in Elements(b) && y in Elements(a);
      assert SUPPORTED[Index(x)] == SUPPORTED[Index(y)];
      OrderedUnique(a[..|a| - 1], b[..|b| - 1]);
    } else {
      EmptyElements(a);
      EmptyElements(b);
    }
  }

  lemma EmptyElements(scopes: seq<Scope>)
    ensures Elements(scopes) == {} <==> scopes == []
  {
    if scopes != [] {
      assert scopes[0] in Elements(scopes);
    }
  }

  method ScopesInCanonicalOrder(selected: set<Scope>) returns (scopes: seq<Scope>)
    ensures scopes == InOrder(selected, |SUPPORTED|)
  {
    scopes := [];
    for i := 0 to |SUPPORTED|
      invariant scopes == InOrder(selected, i)
    {
      if SUPPORTED[i] in selected {
        scopes := scopes + [SUPPORTED[i]];
      }
    }
  }

  /** Values that are supported scopes, each once. */
  ghost predicate Acceptable(values: seq<Option<Scope>>) {
    && (forall i | 0 <= i < |values| :: values[i].Some?)
    && forall i, j | 0 <= i < j < |values| :: values[i] != values[j]
  }

  function Selection(values: seq<Option<Scope>>): set<Scope> {
    set i | 0 <= i < |values| && values[i].Some? :: values[i].value
  }

  function Dependencies(selected: set<Scope>): set<Scope> {
    set scope, needed | scope in selected && needed in Needs(scope) :: needed
  }

  /** The two lists a normalisation gives. */
  ghost predicate Normal(values: seq<Option<Scope>>, requested: seq<Scope>, implicit: seq<Scope>) {
    if values == [] then requested == SUPPORTED && implicit == []
    else
      && requested == InOrder(Selection(values), |SUPPORTED|)
      && implicit == InOrder(Dependencies(Selection(values)) - Selection(values), |SUPPORTED|)
  }

  /** Requested and implicit scopes; a value that names no scope is None. */
  method NormalizeScopes(values: seq<Option<Scope>>) returns (result: Result<(seq<Scope>, seq<Scope>), Error>)
    ensures result.Ok? <==> Acceptable(values)
    ensures result.Ok? ==> Normal(values, result.value.0, result.value.1)
  {
    if |values| == 0 {
      return Ok((SUPPORTED, []));
    }
    var selected: set<Scope> := {};
    for i := 0 to |values|
      invariant Acceptable(values[..i])
      invariant selected == Selection(values[..i])
    {
      OneValueMore(values, i);
      if values[i].None? {
        return Err(UnknownScope);
      }
      if values[i].value in selected {
        return Err(DuplicateScope);
      }
      selected := selected + {values[i].value};
    }
    assert values[..|values|] == values;
    var requested := ScopesInCanonicalOrder(selected);
    var dependencies: set<Scope> := {};
    var todo := selected;
    while todo != {}
      invariant todo <= selected && dependencies == Dependencies(selected - todo)
    {
      var scope :| scope in todo;
      dependencies := dependencies + Needs(scope);
      assert selected - (todo - {scope}) == (selected - todo) + {scope};
      todo := todo - {scope};
    }
    assert selected - todo == selected;
    dependencies := dependencies - selected;
    var implicit := ScopesInCanonicalOrder(dependencies);
    return Ok((requested, implicit));
  }

  lemma OneValueMore(values: seq<Option<Scope>>, i: nat)
    requires i < |values| && Acceptable(values[..i])
    ensures values[i].None? ==> !Acceptable(values)
    ensures values[i].Some? ==>
      Selection(values[..i + 1]) == Selection(values[..i]) + {values[i].value}
      && if values[i].value in Selection(values[..i]) then !Acceptable(values) else Acceptable(values[..i + 1])
  {
    var before, more := values[..i], values[..i + 1];
    assert more[i] == values[i] && forall k | 0 <= k < i :: more[k] == before[k] == values[k];
    if values[i].Some? {
      forall scope <- Selection(before) + {values[i].value}
        ensures scope in Selection(more)
      {
        if scope in Selection(before) {
          var k :| 0 <= k < i && before[k] == Some(scope);
          assert more[k] == Some(scope);
        } else {
          assert more[i] == Some(scope);
        }
      }
      if values[i].value in Selection(before) {
        var k :| 0 <= k < i && before[k] == values[i];
        assert values[k] == values[i];
      } else {
        forall k | 0 <= k < i
          ensures more[k] != more[i]
        {
          assert before[k].value in Selection(before);
        }
      }
    }
  }

  // ----- What normalising gives -----

  ghost predicate Closed(scopes: set<Scope>) {
    forall scope, needed | scope in scopes && needed in Needs(scope) :: needed in scopes
  }

  /** The lists are in canonical order and disjoint; what is requested is what was given (everything
      when nothing was given); and together they are the least set that holds it and is closed
      under dependencies. */
  lemma NormalIsLeastClosure(values: seq<Option<Scope>>, requested: seq<Scope>, implicit: seq<Scope>)
    requires Normal(values, requested, implicit)
    ensures Ordered(requested) && Ordered(implicit) && Elements(requested) !! Elements(implicit)
    ensures values != [] ==> Elements(requested) == Selection(values)
    ensures Closed(Elements(requested) + Elements(implicit))
    ensures forall larger: set<Scope> | Closed(larger) && Elements(requested) <= larger ::
      Elements(requested) + Elements(implicit) <= larger
  {
    if values == [] {
      EverythingClosed();
    } else {
      var selected := Selection(values);
      InOrderElements(selected);
      InOrderElements(Dependencies(selected) - selected);
      ClosureClosed(selected);
    }
  }

  lemma InOrderElements(selected: set<Scope>)
    ensures Ordered(InOrder(selected, |SUPPORTED|)) && Elements(InOrder(selected, |SUPPORTED|)) == selected
  {
    var list := InOrder(selected, |SUPPORTED|);
    InOrderSorts(selected, |SUPPORTED|);
    forall scope: Scope
      ensures scope in Elements(list) <==> scope in selected
    {
      assert scope in Elements(list) <==> scope in list;
    }
  }

  lemma SupportedAt(i: nat)
    requires i < |SUPPORTED|
    ensures Index(SUPPORTED[i]) == i
  {
  }

  lemma EverythingClosed()
    ensures Ordered(SUPPORTED) && Closed(Elements(SUPPORTED)) && forall scope: Scope :: scope in Elements(SUPPORTED)
  {
    forall scope: Scope
      ensures scope in Elements(SUPPORTED)
    {
      assert SUPPORTED[Index(scope)] in SUPPORTED;
    }
    forall i, j | 0 <= i < j < |SUPPORTED|
      ensures Index(SUPPORTED[i]) < Index(SUPPORTED[j])
    {
      SupportedAt(i);
      SupportedAt(j);
    }
  }

  /** One round of dependencies is enough: what a dependency needs is needed already. */
  lemma ClosureClosed(selected: set<Scope>)
    ensures Closed(selected + Dependencies(selected))
  {
    forall scope, needed | scope in selected + Dependencies(selected) && needed in Needs(scope)
      ensures needed in selected + Dependencies(selected)
    {
      if scope in Dependencies(selected) && scope !in selected {
        var first :| first in selected && scope in Needs(first);
        assert needed in Needs(first);
      }
    }
  }

  /** The order of the values does not matter. */
  lemma NormalUnordered(
    a: seq<Option<Scope>>, b: seq<Option<Scope>>, requestedA: seq<Scope>, implicitA: seq<Scope>,
    requestedB: seq<Scope>, implicitB: seq<Scope>)
    requires multiset(a) == multiset(b)
    ensures Acceptable(a) <==> Acceptable(b)
    ensures Normal(a, requestedA, implicitA) && Normal(b, requestedB, implicitB)
      ==> requestedA == requestedB && implicitA == implicitB
  {
    assert |a| == |multiset(a)| == |multiset(b)| == |b|;
    forall v: Option<Scope>
      ensures v in a <==> v in b
    {
      assert v in a <==> v in multiset(a);
      assert v in b <==> v in multiset(b);
    }
    assert Elements(a) == Elements(b);
    SelectionFrom(a);
    SelectionFrom(b);
    NoDuplicatesSize(a);
    NoDuplicatesSize(b);
    assert a == [] <==> b == [];
  }

  lemma SelectionFrom(values: seq<Option<Scope>>)
    ensures Selection(values) == set v | v in Elements(values) && v.Some? :: v.value
    ensures Acceptable(values) <==> (None !in Elements(values) && NoDuplicates(values))
  {
    forall scope: Scope
      ensures scope in Selection(values) <==> Some(scope) in values
    {
      if Some(scope) in values {
        var i :| 0 <= i < |values| && values[i] == Some(scope);
      }
    }
    if None in values {
      var i :| 0 <= i < |values| && values[i] == None;
    }
  }

  // ----- The collector's plan -----

  /** What a scope depends on directly. */
  function Direct(scope: Scope): seq<Scope> {
    match scope
    case Workbooks => [Projects]
    case Datasources => [Projects]
    case Flows => [Projects]
    case Views => [Workbooks]
    case Permissions => [Workbooks]
    case _ => []
  }

  function Depth(scope: Scope): nat {
    match scope
    case Workbooks => 1
    case Datasources => 1
    case Flows => 1
    case Views => 2
    case Permissions => 2
    case _ => 0
  }

  /** Everything that is reached from a scope over direct dependencies. */
  function Reach(scope: Scope): set<Scope>
    decreases Depth(scope)
  {
    {scope} + set first, far | first in Direct(scope) && far in Reach(first) :: far
  }

  /** The flat table of the refresh action lists exactly what is reached. */
  lemma ReachIsNeeds(scope: Scope)
    ensures Reach(scope) == {scope} + Needs(scope)
  {
    assert Reach(Projects) == {Projects};
    assert Reach(Workbooks) == {Workbooks, Projects};
  }

  /** The depth-first walk: a scope that was met before is not walked again. */
  method Add(scope: Scope, before: set<Scope>) returns (collected: set<Scope>)
    requires Closed(before)
    ensures Closed(collected) && collected == before + Reach(scope)
    decreases Depth(scope)
  {
    ReachIsNeeds(scope);
    collected := before;
    if scope in collected {
      return;
    }
    for i := 0 to |Direct(scope)|
      invariant Closed(collected) && collected == before + Reached(Direct(scope)[..i])
    {
      var first := Direct(scope)[i];
      ReachedMore(Direct(scope)[..i], first);
      assert Direct(scope)[..i + 1] == Direct(scope)[..i] + [first];
      assert first in Direct(scope);
      collected := Add(first, collected);
    }
    assert Direct(scope)[..|Direct(scope)|] == Direct(scope);
    ReachIs(scope);
    ReachClosed(scope, collected);
    collected := collected + {scope};
  }

  /** Everything that is reached from some scopes. */
  function Reached(scopes: seq<Scope>): set<Scope> {
    set first, far | first in scopes && far in Reach(first) :: far
  }

  lemma ReachedMore(scopes: seq<Scope>, scope: Scope)
    ensures Reached(scopes + [scope]) == Reached(scopes) + Reach(scope)
  {
  }

  lemma ReachIs(scope: Scope)
    ensures Reach(scope) == {scope} + Reached(Direct(scope))
  {
  }

  lemma ReachClosed(scope: Scope, collected: set<Scope>)
    requires Closed(collected) && Reached(Direct(scope)) <= collected
    ensures Closed(collected + {scope})
  {
    ReachIs(scope);
    ReachIsNeeds(scope);
  }

  datatype Plan = Plan(requested: seq<Scope>, implicit: seq<Scope>, collected: seq<Scope>)

  /** The collector's plan of these scopes. */
  ghost predicate Planned(selected: set<Scope>, plan: Plan) {
    var collected := selected + Dependencies(selected);
    && plan.requested == InOrder(selected, |SUPPORTED|)
    && plan.collected == InOrder(collected, |SUPPORTED|)
    && plan.implicit == InOrder(collected - selected, |SUPPORTED|)
  }

  /** Nothing requested means everything but permissions. */
  function Wanted(input: seq<Scope>): set<Scope> {
    if input == [] then Elements(SUPPORTED) - {Permissions} else Elements(input)
  }

  /** The closure of the requested scopes, whatever order the map yields them in. */
  method Collect(requestedSet: set<Scope>) returns (collectedSet: set<Scope>)
    ensures collectedSet == requestedSet + Dependencies(requestedSet)
  {
    collectedSet := {};
    var todo := requestedSet;
    while todo != {}
      invariant todo <= requestedSet && Closed(collectedSet)
      invariant collectedSet == (requestedSet - todo) + Dependencies(requestedSet - todo)
    {
      var scope :| scope in todo;
      ReachIsNeeds(scope);
      collectedSet := Add(scope, collectedSet);
      assert requestedSet - (todo - {scope}) == (requestedSet - todo) + {scope};
      assert Dependencies((requestedSet - todo) + {scope}) == Dependencies(requestedSet - todo) + Needs(scope);
      todo := todo - {scope};
    }
    assert requestedSet - todo == requestedSet;
  }

  /** The scopes of an ordered list that are not requested. */
  method Unrequested(collected: seq<Scope>, requestedSet: set<Scope>) returns (implicit: seq<Scope>)
    requires Ordered(collected)
    ensures Ordered(implicit) && Elements(implicit) == Elements(collected) - requestedSet
  {
    implicit := [];
    for i := 0 to |collected|
      invariant Elements(implicit) == Elements(collected[..i]) - requestedSet
      invariant Ordered(implicit) && forall k | 0 <= k < |implicit| :: implicit[k] in collected[..i]
    {
      assert collected[..i + 1] == collected[..i] + [collected[i]];
      assert Elements(collected[..i + 1]) == Elements(collected[..i]) + {collected[i]};
      if collected[i] !in requestedSet {
        AppendOrdered(implicit, collected, i);
        assert Elements(implicit + [collected[i]]) == Elements(implicit) + {collected[i]};
        implicit := implicit + [collected[i]];
      }
    }
    assert collected[..|collected|] == collected;
  }

  lemma AppendOrdered(part: seq<Scope>, whole: seq<Scope>, i: nat)
    requires Ordered(part) && Ordered(whole) && i < |whole| && forall k | 0 <= k < |part| :: part[k] in whole[..i]
    ensures Ordered(part + [whole[i]])
  {
    forall k | 0 <= k < |part|
      ensures Index(part[k]) < Index(whole[i])
    {
      var j :| 0 <= j < i && whole[..i][j] == part[k];
      assert whole[j] == part[k];
    }
  }

  method PlanScopes(input: seq<Scope>) returns (plan: Plan)
    ensures Planned(Wanted(input), plan)
  {
    var requestedSet := Wanted(input);
    var collectedSet := Collect(requestedSet);
    var requested := ScopesInCanonicalOrder(requestedSet);
    var collected := ScopesInCanonicalOrder(collectedSet);
    InOrderElements(collectedSet);
    InOrderElements(collectedSet - requestedSet);
    var implicit := Unrequested(collected, requestedSet);
    OrderedUnique(implicit, InOrder(collectedSet - requestedSet, |SUPPORTED|));
    plan := Plan(requested, implicit, collected);
  }

  /** An ordered list is the canonical listing of its elements. */
  lemma InOrderOf(scopes: seq<Scope>, selected: set<Scope>)
    requires Ordered(scopes) && Elements(scopes) == selected
    ensures InOrder(selected, |SUPPORTED|) == scopes
  {
    InOrderElements(selected);
    OrderedUnique(InOrder(selected, |SUPPORTED|), scopes);
  }

  lemma NormalImplicit(values: seq<Option<Scope>>, requested: seq<Scope>, implicit: seq<Scope>)
    requires Acceptable(values) && Normal(values, requested, implicit)
    ensures requested != [] && Wanted(requested) == Elements(requested)
    ensures Elements(implicit) == Dependencies(Elements(requested)) - Elements(requested)
  {
    NormalIsLeastClosure(values, requested, implicit);
    if values == [] {
      EverythingClosed();
    } else {
      assert values[0].value in Selection(values);
      EmptyElements(requested);
      InOrderElements(Dependencies(Selection(values)) - Selection(values));
    }
  }

  /** What the action normalises, the collector plans the same way: the two never differ. */
  lemma PlansAgree(values: seq<Option<Scope>>, requested: seq<Scope>, implicit: seq<Scope>, plan: Plan)
    requires Acceptable(values) && Normal(values, requested, implicit) && Planned(Wanted(requested), plan)
    ensures plan.requested == requested && plan.implicit == implicit
    ensures Ordered(plan.collected) && Elements(plan.collected) == Elements(requested) + Elements(implicit)
    ensures Permissions in plan.collected ==> Permissions in requested
  {
    NormalIsLeastClosure(values, requested, implicit);
    NormalImplicit(values, requested, implicit);
    var selected := Elements(requested);
    InOrderOf(requested, selected);
    assert selected + Dependencies(selected) - selected == Elements(implicit);
    InOrderOf(implicit, Elements(implicit));
    InOrderElements(selected + Dependencies(selected));
    PermissionsExplicit(requested, implicit, plan.collected);
  }

  /** Permissions are never implied. */
  lemma PermissionsExplicit(requested: seq<Scope>, implicit: seq<Scope>, collected: seq<Scope>)
    requires Elements(implicit) == Dependencies(Elements(requested)) - Elements(requested)
    requires Elements(collected) == Elements(requested) + Elements(implicit)
    ensures Permissions in collected ==> Permissions in requested
  {
    assert Permissions !in Dependencies(Elements(requested));
    assert Permissions in collected <==> Permissions in Elements(collected);
  }
}
