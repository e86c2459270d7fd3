/** The dependency resolver: Kahn's algorithm over the registered modules. Hash maps are walked in
    an unspecified order, so each walk takes its order as a parameter. */
module DependencyResolvers {
  import opened Domain
  import opened Seqs
  import opened DependencyGraph

  datatype ResolveError = NullModule | SelfDependency(id: nat) | MissingDependency(id: nat, dep: nat) | CyclicDependency

  /** `walk` visits each of `ids` once. */
  ghost predicate Visits(walk: seq<nat>, ids: set<nat>) {
    Distinct(walk) && forall x :: x in walk <==> x in ids
  }

  function Followers(adj: map<nat, seq<nat>>, d: nat): seq<nat> {
    if d in adj then adj[d] else []
  }

  ghost predicate Degrees(modules: Modules, seen: set<nat>, degree: map<nat, nat>) {
    degree.Keys == modules.Keys && forall id :: id in modules ==>
      degree[id] == if id in seen then |Deps(modules, id)| else 0
  }

  /** How often `x` is entered as a follower of `d`. */
  function Times(adj: map<nat, seq<nat>>, d: nat, x: nat): nat {
    multiset(Followers(adj, d))[x]
  }

  function Listed(deps: seq<nat>, d: nat): nat {
    multiset(deps)[d]
  }

  /** A dependency's followers are the modules that list it, as often as they do. */
  ghost predicate Edges(modules: Modules, seen: set<nat>, adj: map<nat, seq<nat>>) {
    forall d, x :: Times(adj, d, x) == if x in seen then Listed(Deps(modules, x), d) else 0
  }

  ghost predicate EdgesUpTo(modules: Modules, seen: set<nat>, adj: map<nat, seq<nat>>, id: nat, deps: seq<nat>) {
    forall d, x :: Times(adj, d, x) ==
      if x == id then Listed(deps, d) else if x in seen then Listed(Deps(modules, x), d) else 0
  }

  lemma TimesAdded(adj: map<nat, seq<nat>>, dep: nat, id: nat, d: nat, x: nat)
    ensures Times(adj[dep := Followers(adj, dep) + [id]], d, x) ==
            Times(adj, d, x) + if d == dep && x == id then 1 else 0
  {
  }

  lemma ListedAdded(deps: seq<nat>, dep: nat, d: nat)
    ensures Listed(deps + [dep], d) == Listed(deps, d) + if d == dep then 1 else 0
  {
  }

  lemma EdgeAdded(modules: Modules, seen: set<nat>, adj: map<nat, seq<nat>>, id: nat, deps: seq<nat>, dep: nat)
    requires EdgesUpTo(modules, seen, adj, id, deps)
    ensures EdgesUpTo(modules, seen, adj[dep := Followers(adj, dep) + [id]], id, deps + [dep])
  {
    hide Times, Listed, Followers;
    var adj' := adj[dep := Followers(adj, dep) + [id]];
    forall d, x
      ensures Times(adj', d, x) ==
              if x == id then Listed(deps + [dep], d) else if x in seen then Listed(Deps(modules, x), d) else 0
    {
      TimesAdded(adj, dep, id, d, x);
      ListedAdded(deps, dep, d);
    }
  }

  lemma EdgesBegin(modules: Modules, seen: set<nat>, adj: map<nat, seq<nat>>, id: nat)
    requires Edges(modules, seen, adj) && id !in seen
    ensures EdgesUpTo(modules, seen, adj, id, [])
  {
    hide Times;
  }

  lemma EdgesEnd(modules: Modules, seen: set<nat>, adj: map<nat, seq<nat>>, id: nat)
    requires EdgesUpTo(modules, seen, adj, id, Deps(modules, id))
    ensures Edges(modules, seen + {id}, adj)
  {
    hide Times, Listed;
  }

  /** Enter one module's dependencies, or report the first that is the module itself or missing. */
  method EnterModule(modules: Modules, id: nat, adj0: map<nat, seq<nat>>, degree0: map<nat, nat>, ghost seen: set<nat>)
    returns (error: Option<ResolveError>, adj: map<nat, seq<nat>>, degree: map<nat, nat>)
    requires id in modules && modules[id].Some? && id !in seen
    requires Degrees(modules, seen, degree0) && Edges(modules, seen, adj0)
    ensures error.Some? ==> id in Deps(modules, id) || exists d :: d in Deps(modules, id) && d !in modules
    ensures error.Some? ==> error.value.SelfDependency? || error.value.MissingDependency?
    ensures error.None? ==>
              && id !in Deps(modules, id) && (forall d :: d in Deps(modules, id) ==> d in modules)
              && Degrees(modules, seen + {id}, degree) && Edges(modules, seen + {id}, adj)
  {
    hide Edges, EdgesUpTo;
    error, adj, degree := None, adj0, degree0;
    var deps := modules[id].value;
    EdgesBegin(modules, seen, adj, id);
    for j := 0 to |deps|
      invariant error.None? && degree == degree0[id := j]
      invariant EdgesUpTo(modules, seen, adj, id, deps[..j])
      invariant forall i :: 0 <= i < j ==> deps[i] != id && deps[i] in modules
    {
      var dep := deps[j];
      if dep == id {
        return Some(SelfDependency(id)), adj, degree;
      }
      if dep !in modules {
        return Some(MissingDependency(id, dep)), adj, degree;
      }
      EdgeAdded(modules, seen, adj, id, deps[..j], dep);
      assert deps[..j + 1] == deps[..j] + [dep];
      adj := adj[dep := Followers(adj, dep) + [id]];
      degree := degree[id := degree[id] + 1];
    }
    assert deps[..|deps|] == deps;
    EdgesEnd(modules, seen, adj, id);
  }

  /** No cycle of length one, no missing dependency, no null pointer among these modules. */
  ghost predicate Sound(modules: Modules, seen: set<nat>) {
    forall id :: id in seen ==>
      id in modules && modules[id].Some? && id !in Deps(modules, id) &&
      forall d :: d in Deps(modules, id) ==> d in modules
  }

  method BuildGraph(modules: Modules, walk: seq<nat>)
    returns (error: Option<ResolveError>, adj: map<nat, seq<nat>>, degree: map<nat, nat>)
    requires Visits(walk, modules.Keys)
    ensures error.Some? ==> !error.value.CyclicDependency? && !Sound(modules, modules.Keys)
    ensures error.None? ==>
            Sound(modules, modules.Keys) && Degrees(modules, modules.Keys, degree) && Edges(modules, modules.Keys, adj)
  {
    hide Edges, Degrees, Sound, Distinct;
    error, adj := None, map[];
    degree := map id | id in modules :: 0;
    assert Elements(walk[..0]) == {};
    NoEdges(modules, degree);
    for k := 0 to |walk|
      invariant error.None? && Sound(modules, Elements(walk[..k]))
      invariant Degrees(modules, Elements(walk[..k]), degree) && Edges(modules, Elements(walk[..k]), adj)
    {
      var id := walk[k];
      assert id in walk;
      if modules[id].None? {
        SoundNot(modules, id);
        return Some(NullModule), adj, degree;
      }
      NextVisited(walk, k);
      error, adj, degree := EnterModule(modules, id, adj, degree, Elements(walk[..k]));
      SoundNext(modules, Elements(walk[..k]), id);
      if error.Some? {
        return;
      }
    }
    assert walk[..|walk|] == walk;
    assert Elements(walk) == modules.Keys;
  }

  lemma NoEdges(modules: Modules, degree: map<nat, nat>)
    requires degree == map id | id in modules :: 0
    ensures Edges(modules, {}, map[]) && Degrees(modules, {}, degree) && Sound(modules, {})
  {
  }

  lemma NextVisited(walk: seq<nat>, k: nat)
    requires Distinct(walk) && k < |walk|
    ensures Elements(walk[..k + 1]) == Elements(walk[..k]) + {walk[k]} && walk[k] !in Elements(walk[..k])
  {
    assert walk[..k + 1] == walk[..k] + [walk[k]];
  }

  lemma SoundNot(modules: Modules, id: nat)
    requires id in modules && modules[id].None?
    ensures !Sound(modules, modules.Keys)
  {
  }

  lemma SoundNext(modules: Modules, seen: set<nat>, id: nat)
    requires id in modules && modules[id].Some? && Sound(modules, seen)
    ensures if id !in Deps(modules, id) && (forall d :: d in Deps(modules, id) ==> d in modules)
            then Sound(modules, seen + {id})
            else !Sound(modules, modules.Keys)
  {
  }

  // ----- the topological sort

  /** A module's degree counts its dependencies that are not done, and how often it is among the
      followers still to be released. */
  ghost predicate Counts(modules: Modules, degree: map<nat, nat>, done: set<nat>, pending: seq<nat>) {
    && degree.Keys == modules.Keys
    && (forall id :: id in modules ==> degree[id] == Left(Deps(modules, id), done) + Listed(pending, id))
  }

  /** Ordered or queued are exactly the modules of degree zero, each once. */
  ghost predicate Ready(modules: Modules, degree: map<nat, nat>, line: seq<nat>) {
    && degree.Keys == modules.Keys && Distinct(line)
    && (forall id :: id in line <==> id in modules && degree[id] == 0)
  }

  ghost predicate Placed(modules: Modules, order: seq<nat>) {
    forall i :: 0 <= i < |order| ==> forall d :: d in Deps(modules, order[i]) ==> d in order[..i]
  }

  lemma CountsKeys(modules: Modules, degree: map<nat, nat>, done: set<nat>, pending: seq<nat>)
    requires Counts(modules, degree, done, pending)
    ensures degree.Keys == modules.Keys
  {
  }

  lemma ReleaseCounts(modules: Modules, degree: map<nat, nat>, done: set<nat>, pending: seq<nat>)
    requires Counts(modules, degree, done, pending) && pending != [] && pending[0] in modules
    ensures degree[pending[0]] > 0
    ensures Counts(modules, degree[pending[0] := degree[pending[0]] - 1], done, pending[1..])
  {
    hide Left, Listed;
    forall id: nat
      ensures Listed(pending, id) == Listed(pending[1..], id) + if id == pending[0] then 1 else 0
    {
      ListedHead(pending, id);
    }
  }

  lemma ListedHead(deps: seq<nat>, d: nat)
    requires deps != []
    ensures Listed(deps, d) == Listed(deps[1..], d) + if d == deps[0] then 1 else 0
  {
    assert deps == [deps[0]] + deps[1..];
  }

  lemma ReleaseReady(modules: Modules, degree: map<nat, nat>, line: seq<nat>, n: nat)
    requires Ready(modules, degree, line) && n in modules && degree[n] > 0
    ensures Ready(modules, degree[n := degree[n] - 1], if degree[n] == 1 then line + [n] else line)
  {
    if degree[n] == 1 {
      assert forall id :: id in line + [n] <==> id in line || id == n;
    }
  }

  /** Release the followers of a finished module. */
  method Release(modules: Modules, followers: seq<nat>, degree0: map<nat, nat>, queue0: seq<nat>, ghost order: seq<nat>)
    returns (degree: map<nat, nat>, queue: seq<nat>)
    requires Counts(modules, degree0, Elements(order), followers) && Ready(modules, degree0, order + queue0)
    requires forall x :: x in followers ==> x in modules
    ensures Counts(modules, degree, Elements(order), []) && Ready(modules, degree, order + queue)
  {
    hide Counts, Ready, Elements;
    degree, queue := degree0, queue0;
    assert followers[0..] == followers;
    CountsKeys(modules, degree, Elements(order), followers);
    for j := 0 to |followers|
      invariant degree.Keys == modules.Keys
      invariant Counts(modules, degree, Elements(order), followers[j..]) && Ready(modules, degree, order + queue)
    {
      var n := followers[j];
      assert followers[j..][0] == n && followers[j..][1..] == followers[j + 1..];
      ReleaseCounts(modules, degree, Elements(order), followers[j..]);
      ReleaseReady(modules, degree, order + queue, n);
      degree := degree[n := degree[n] - 1];
      if degree[n] == 0 {
        assert order + queue + [n] == order + (queue + [n]);
        queue := queue + [n];
      }
    }
    assert followers[|followers|..] == [];
  }

  /** The modules without dependencies, in the order the degree map is walked. */
  method Seeds(degree: map<nat, nat>, walk: seq<nat>, ghost modules: Modules) returns (queue: seq<nat>)
    requires degree.Keys == modules.Keys && Visits(walk, modules.Keys)
    ensures Ready(modules, degree, queue)
  {
    queue := [];
    for k := 0 to |walk|
      invariant Distinct(queue) && forall id :: id in queue <==> id in walk[..k] && degree[id] == 0
    {
      var id := walk[k];
      assert id in walk && walk[..k + 1] == walk[..k] + [id];
      if degree[id] == 0 {
        queue := queue + [id];
      }
    }
    assert walk[..|walk|] == walk;
  }

  lemma StartCounts(modules: Modules, degree: map<nat, nat>)
    requires Degrees(modules, modules.Keys, degree)
    ensures Counts(modules, degree, {}, [])
  {
    forall id | id in modules
      ensures degree[id] == Left(Deps(modules, id), {}) + Listed([], id)
    {
      LeftNone(Deps(modules, id));
    }
  }

  /** Finishing a module of degree zero: its followers are now to be released. */
  lemma FinishCounts(modules: Modules, degree: map<nat, nat>, done: set<nat>, adj: map<nat, seq<nat>>, curr: nat)
    requires Counts(modules, degree, done, []) && Edges(modules, modules.Keys, adj) && curr !in done
    ensures Counts(modules, degree, done + {curr}, Followers(adj, curr))
  {
    hide Left;
    forall id | id in modules
      ensures degree[id] == Left(Deps(modules, id), done + {curr}) + Listed(Followers(adj, curr), id)
    {
      LeftDone(Deps(modules, id), done, curr);
      assert Times(adj, curr, id) == Listed(Deps(modules, id), curr);
    }
  }

  lemma FollowersKnown(modules: Modules, adj: map<nat, seq<nat>>, curr: nat, x: nat)
    requires Edges(modules, modules.Keys, adj) && x in Followers(adj, curr)
    ensures x in modules
  {
    assert Times(adj, curr, x) > 0;
  }

  lemma FinishPlaced(modules: Modules, degree: map<nat, nat>, order: seq<nat>, curr: nat)
    requires Counts(modules, degree, Elements(order), []) && Placed(modules, order) && curr in modules &&
             degree[curr] == 0
    ensures Placed(modules, order + [curr])
  {
    hide Left;
    LeftZero(Deps(modules, curr), Elements(order));
    var after := order + [curr];
    forall i | 0 <= i < |after|
      ensures forall d :: d in Deps(modules, after[i]) ==> d in after[..i]
    {
      assert after[..i] == order[..i];
      if i == |order| {
        assert order[..i] == order;
      }
    }
  }

  lemma LineHead(modules: Modules, degree: map<nat, nat>, order: seq<nat>, queue: seq<nat>)
    requires Ready(modules, degree, order + queue) && queue != []
    ensures queue[0] in modules && degree[queue[0]] == 0 && queue[0] !in Elements(order)
    ensures Elements(order + [queue[0]]) == Elements(order) + {queue[0]}
    ensures |order| < |modules|
  {
    var line := order + queue;
    assert line[|order|] == queue[0];
    assert queue[0] in line;
    forall i | 0 <= i < |order|
      ensures order[i] != queue[0]
    {
      assert line[i] == order[i];
    }
    WithinModules(modules, line);
  }

  lemma WithinModules(modules: Modules, line: seq<nat>)
    requires Distinct(line) && forall id :: id in line ==> id in modules
    ensures |line| <= |modules| && (|line| == |modules| ==> forall id :: id in modules ==> id in line)
  {
    DistinctSize(line);
    var ids := modules.Keys;
    assert Elements(line) <= ids;
    assert |ids| == |Elements(line)| + |ids - Elements(line)|;
    if |line| == |modules| {
      assert ids - Elements(line) == {};
    }
  }

  /** Kahn's loop: pop, order, release; at the end exactly the modules that could be freed are ordered. */
  method Drain(modules: Modules, adj: map<nat, seq<nat>>, degree0: map<nat, nat>, queue0: seq<nat>)
    returns (order: seq<nat>, ghost degree: map<nat, nat>)
    requires Edges(modules, modules.Keys, adj) && Counts(modules, degree0, {}, []) && Ready(modules, degree0, queue0)
    ensures Placed(modules, order) && Ready(modules, degree, order) && Counts(modules, degree, Elements(order), [])
  {
    hide Edges, Counts, Ready, Placed, Elements;
    var degrees, queue := degree0, queue0;
    order := [];
    DrainStart(modules, queue);
    while queue != []
      invariant Placed(modules, order) && Ready(modules, degrees, order + queue) &&
                Counts(modules, degrees, Elements(order), [])
      decreases |modules| - |order|
    {
      var curr := queue[0];
      LineHead(modules, degrees, order, queue);
      FinishPlaced(modules, degrees, order, curr);
      FinishCounts(modules, degrees, Elements(order), adj, curr);
      assert order + queue == order + [curr] + queue[1..];
      order, queue := order + [curr], queue[1..];
      forall x | x in Followers(adj, curr)
        ensures x in modules
      {
        FollowersKnown(modules, adj, curr, x);
      }
      degrees, queue := Release(modules, Followers(adj, curr), degrees, queue, order);
    }
    assert order + [] == order;
    degree := degrees;
  }

  lemma DrainStart(modules: Modules, queue: seq<nat>)
    ensures Placed(modules, []) && [] + queue == queue && Elements([]) == {}
  {
  }

  /** What is not ordered waits for something that is not ordered either. */
  lemma UnorderedStuck(modules: Modules, degree: map<nat, nat>, order: seq<nat>)
    requires Counts(modules, degree, Elements(order), []) && Ready(modules, degree, order) &&
             Sound(modules, modules.Keys)
    ensures Stuck(modules, modules.Keys - Elements(order))
  {
    hide Left;
    var left := modules.Keys - Elements(order);
    forall id | id in left
      ensures WaitsIn(modules, left, id)
    {
      LeftZero(Deps(modules, id), Elements(order));
      var d :| d in Deps(modules, id) && d !in Elements(order);
      assert d in left;
    }
  }

  /** The resolver succeeds exactly when no module pointer is null, every dependency is registered and
      no dependencies run in a circle, whatever the order the maps are walked in; its result then
      has every module once, after all its dependencies, even if a module lists one twice. */
  method Resolve(modules: Modules, walk: seq<nat>, degreeWalk: seq<nat>) returns (r: Result<seq<nat>, ResolveError>)
    requires Visits(walk, modules.Keys) && Visits(degreeWalk, modules.Keys)
    ensures r.Success? <==> Closed(modules) && Acyclic(modules)
    ensures r.Success? ==> StartupOrder(modules, r.value)
    ensures r.Failure? && r.error.CyclicDependency? ==> Closed(modules) && !Acyclic(modules)
  {
    hide Visits, Edges, Degrees, Sound, Closed, Acyclic, Counts, Ready, Placed, StartupOrder, Elements;
    var error, adj, degree := BuildGraph(modules, walk);
    SoundWhen(modules);
    if error.Some? {
      return Failure(error.value);
    }
    StartCounts(modules, degree);
    CountsKeys(modules, degree, {}, []);
    var queue := Seeds(degree, degreeWalk, modules);
    var order;
    ghost var final;
    order, final := Drain(modules, adj, degree, queue);
    Finished(modules, final, order);
    if |order| != |modules| {
      return Failure(CyclicDependency);
    }
    OrderedIsAcyclic(modules, order);
    return Success(order);
  }

  lemma SomeLeft(a: set<nat>, b: set<nat>)
    requires a <= b && |a| != |b|
    ensures b - a != {}
  {
    assert b == a + (b - a);
  }

  lemma Finished(modules: Modules, degree: map<nat, nat>, order: seq<nat>)
    requires Counts(modules, degree, Elements(order), []) && Ready(modules, degree, order) && Placed(modules, order)
    requires Sound(modules, modules.Keys)
    ensures if |order| == |modules| then StartupOrder(modules, order) else !Acyclic(modules)
  {
    hide Counts, Acyclic, Stuck, Sound;
    WithinModules(modules, order);
    if |order| != |modules| {
      UnorderedStuck(modules, degree, order);
      DistinctSize(order);
      SomeLeft(Elements(order), modules.Keys);
      StuckHasCycle(modules, modules.Keys - Elements(order));
    }
  }

  lemma SoundWhen(modules: Modules)
    ensures Sound(modules, modules.Keys) ==> Closed(modules)
    ensures !Sound(modules, modules.Keys) ==> !Closed(modules) || !Acyclic(modules)
  {
    if !Sound(modules, modules.Keys) && Closed(modules) {
      var id :| id in modules && id in Deps(modules, id);
      assert Edge(modules, [id, id], 0);
      assert Cycle(modules, [id, id]);
    }
  }
}
