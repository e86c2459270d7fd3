/** Module dependency graphs: startup orders, closed dependency paths, and that a finite graph has
    one or the other. */
module DependencyGraph {
  import opened Domain
  import opened Seqs

  /** The registered modules and what each depends on; a module pointer may be null. */
  type Modules = map<nat, Option<seq<nat>>>

  function Deps(modules: Modules, id: nat): seq<nat> {
    if id in modules && modules[id].Some? then modules[id].value else []
  }

  /** No module pointer is null and every dependency is registered. */
  ghost predicate Closed(modules: Modules) {
    forall id :: id in modules ==> modules[id].Some? && forall d :: d in Deps(modules, id) ==> d in modules
  }

  /** The step behind position `i` goes to a dependency. */
  ghost predicate Edge(modules: Modules, p: seq<nat>, i: nat)
    requires i + 1 < |p|
  {
    p[i + 1] in Deps(modules, p[i])
  }

  /** A path along dependencies. */
  ghost predicate Path(modules: Modules, p: seq<nat>) {
    forall i: nat :: i + 1 < |p| ==> Edge(modules, p, i)
  }

  ghost predicate Cycle(modules: Modules, p: seq<nat>) {
    |p| >= 2 && p[0] == p[|p| - 1] && Path(modules, p)
  }

  ghost predicate Acyclic(modules: Modules) {
    forall p :: !Cycle(modules, p)
  }

  /** Every module once, and each after everything it depends on. */
  ghost predicate StartupOrder(modules: Modules, order: seq<nat>) {
    && Distinct(order) && (forall id :: id in order <==> id in modules)
    && (forall i :: 0 <= i < |order| ==> forall d :: d in Deps(modules, order[i]) ==> d in order[..i])
  }

  // ----- an order rules out cycles

  lemma {:induction false} PathDescends(modules: Modules, order: seq<nat>, p: seq<nat>, i: nat, k: nat)
    requires StartupOrder(modules, order) && Path(modules, p) && k < |p| && i < |order| && p[0] == order[i]
    ensures if k == 0 then p[k] == order[i] else p[k] in order[..i]
    decreases k
  {
    if k > 0 {
      PathDescends(modules, order, p, i, k - 1);
      assert Edge(modules, p, k - 1);
      if k > 1 {
        var j :| 0 <= j < i && order[j] == p[k - 1];
        assert p[k] in order[..j];
      }
    }
  }

  lemma OrderedIsAcyclic(modules: Modules, order: seq<nat>)
    requires StartupOrder(modules, order)
    ensures Acyclic(modules)
  {
    forall p
      ensures !Cycle(modules, p)
    {
      if Cycle(modules, p) {
        assert Edge(modules, p, 0);
        var i :| 0 <= i < |order| && order[i] == p[0];
        PathDescends(modules, order, p, i, |p| - 1);
      }
    }
  }

  // ----- modules that all wait for one another contain a cycle

  /** Every member depends on a member. */
  ghost predicate Stuck(modules: Modules, left: set<nat>) {
    forall id :: id in left ==> WaitsIn(modules, left, id)
  }

  ghost predicate WaitsIn(modules: Modules, left: set<nat>, id: nat) {
    exists d :: d in Deps(modules, id) && d in left
  }

  lemma Waited(modules: Modules, left: set<nat>, id: nat) returns (d: nat)
    requires WaitsIn(modules, left, id)
    ensures d in Deps(modules, id) && d in left
  {
    d :| d in Deps(modules, id) && d in left;
  }

  lemma {:induction false} Walk(modules: Modules, left: set<nat>, start: nat, n: nat) returns (p: seq<nat>)
    requires Stuck(modules, left) && start in left
    ensures |p| == n + 1 && Path(modules, p) && forall i :: 0 <= i < |p| ==> p[i] in left
    decreases n
  {
    hide WaitsIn;
    if n == 0 {
      p := [start];
    } else {
      var q := Walk(modules, left, start, n - 1);
      var d := Waited(modules, left, q[n - 1]);
      p := q + [d];
      forall i: nat | i + 1 < |p|
        ensures Edge(modules, p, i)
      {
        assert i + 1 < |q| ==> Edge(modules, q, i);
      }
    }
  }

  /** More places than values: some value comes twice. */
  lemma {:induction false} Repeats(p: seq<nat>, left: set<nat>) returns (i: nat, j: nat)
    requires |p| > |left| && forall k :: 0 <= k < |p| ==> p[k] in left
    ensures i < j < |p| && p[i] == p[j]
    decreases |p|
  {
    var last := p[|p| - 1];
    var rest := p[..|p| - 1];
    if last in rest {
      i :| 0 <= i < |rest| && rest[i] == last;
      j := |p| - 1;
    } else {
      assert forall k :: 0 <= k < |rest| ==> rest[k] == p[k] && rest[k] in rest;
      i, j := Repeats(rest, left - {last});
    }
  }

  lemma StuckHasCycle(modules: Modules, left: set<nat>)
    requires Stuck(modules, left) && left != {}
    ensures !Acyclic(modules)
  {
    hide Stuck;
    var start :| start in left;
    var p := Walk(modules, left, start, |left|);
    var i, j := Repeats(p, left);
    var c := p[i..j + 1];
    forall k: nat | k + 1 < |c|
      ensures Edge(modules, c, k)
    {
      assert Edge(modules, p, i + k);
    }
    assert Cycle(modules, c);
  }

  // ----- how many dependencies are still open

  function Left(deps: seq<nat>, done: set<nat>): nat {
    if deps == [] then 0 else (if deps[0] in done then 0 else 1) + Left(deps[1..], done)
  }

  lemma {:induction false} LeftNone(deps: seq<nat>)
    ensures Left(deps, {}) == |deps|
  {
    if deps != [] {
      LeftNone(deps[1..]);
    }
  }

  lemma {:induction false} LeftDone(deps: seq<nat>, done: set<nat>, x: nat)
    requires x !in done
    ensures Left(deps, done) == Left(deps, done + {x}) + multiset(deps)[x]
  {
    if deps != [] {
      LeftDone(deps[1..], done, x);
      assert deps == [deps[0]] + deps[1..];
    }
  }

  lemma {:induction false} LeftZero(deps: seq<nat>, done: set<nat>)
    ensures Left(deps, done) == 0 <==> forall d :: d in deps ==> d in done
  {
    if deps != [] {
      LeftZero(deps[1..], done);
      assert forall d :: d in deps <==> d == deps[0] || d in deps[1..];
    }
  }
}
