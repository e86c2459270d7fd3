/** The kernel's lifecycle passes over the startup order. What a module answers to a call is given
    from outside: the set of modules whose call fails. */
module Kernels {
  import opened Seqs
  import opened DependencyGraph
  import opened DependencyResolvers
  import opened KernelRuns

  class Kernel {
    const modules: Modules
    var order: seq<nat>
    /** The modules that report the state Running. */
    var running: set<nat>

    /** Between calls no pass is under way. */
    ghost function Now(): State
      reads this
    {
      State(running, Phase.Resting)
    }

    constructor (modules: Modules)
      ensures this.modules == modules && order == [] && running == {}
    {
      this.modules := modules;
      order, running := [], {};
    }

    /** Resolve the startup order and initialize modules along it until one fails. */
    method Initialize(walk: seq<nat>, degreeWalk: seq<nat>, fails: set<nat>) returns (ok: bool, done: seq<nat>)
      requires Visits(walk, modules.Keys) && Visits(degreeWalk, modules.Keys)
      modifies this`order
      ensures ok ==> Closed(modules) && Acyclic(modules) && done == order
      ensures Closed(modules) && Acyclic(modules) ==> StartupOrder(modules, order) && done <= order
      ensures !(Closed(modules) && Acyclic(modules)) ==> !ok && order == old(order) && done == []
      ensures forall i :: 0 <= i < |done| ==> done[i] !in fails
      ensures !ok && Closed(modules) && Acyclic(modules) ==> |done| < |order| && order[|done|] in fails
    {
      hide Visits, Closed, Acyclic, StartupOrder;
      done := [];
      var r := Resolve(modules, walk, degreeWalk);
      if r.Failure? {
        return false, done;
      }
      order := r.value;
      ok, done := Along(fails);
    }

    /** One pass along the startup order, up to the first module whose call fails. */
    method Along(fails: set<nat>) returns (ok: bool, done: seq<nat>)
      ensures done <= order && (forall i :: 0 <= i < |done| ==> done[i] !in fails)
      ensures if ok then done == order else |done| < |order| && order[|done|] in fails
    {
      done := [];
      for i := 0 to |order|
        invariant done == order[..i] && forall j :: 0 <= j < i ==> order[j] !in fails
      {
        if order[i] in fails {
          return false, done;
        }
        done := done + [order[i]];
      }
      ok := true;
    }

    /** Start modules along the startup order until one fails: exactly one start pass, in which the
        modules before position `done` start and the one there, if any, fails. */
    method Start(fails: set<nat>) returns (ok: bool, ghost done: nat, ghost actions: seq<Action>)
      modifies this`running
      ensures done <= |order| && ok == (done == |order|) && (forall i :: 0 <= i < done ==> order[i] !in fails)
      ensures !ok ==> order[done] in fails
      ensures actions == StartPass(done, !ok)
      ensures Fires(order, old(Now()), actions) && After(order, old(Now()), actions) == Now()
      ensures running == if ok then old(running) + Elements(order) else Restarted(order, old(running), done)
    {
      hide Fires, After, Elements, StartPass;
      done := 0;
      WholeOrder(order);
      for i := 0 to |order|
        invariant done == i && forall j :: 0 <= j < i ==> order[j] !in fails
        invariant running == old(running) + Elements(order[..i])
      {
        var id := order[i];
        if id in fails {
          running := running - {id};
          FailedPass(order, old(running), i);
          return false, i, StartPass(i, true);
        }
        running := running + {id};
        PrefixGrows(order, i);
        done := i + 1;
      }
      PassSteps(order, old(running), |order|);
      ok, actions := true, StartPass(|order|, false);
    }

    /** Stop what runs, from the last of the startup order to the first: a run of stop steps, in which
        no module is stopped before one that runs and depends on it. */
    method Stop() returns (stopped: seq<nat>, ghost actions: seq<Action>)
      requires StartupOrder(modules, order)
      modifies this`running
      ensures actions == StopPass(|order|)
      ensures Fires(order, old(Now()), actions) && After(order, old(Now()), actions) == Now()
      ensures running == old(running) - Elements(order)
      ensures forall id :: id in stopped <==> id in old(running) && id in order
      ensures forall i, j :: 0 <= i < j < |stopped| ==>
              stopped[i] != stopped[j] && stopped[i] !in Deps(modules, stopped[j])
    {
      hide Fires, After, Elements, StartupOrder, StopPass;
      stopped := [];
      var i := |order|;
      NoneBehind(order);
      OrderDistinct(modules, order);
      while i > 0
        invariant 0 <= i <= |order|
        invariant running == old(running) - Elements(order[i..])
        invariant forall id :: id in stopped <==> id in old(running) && id in order[i..]
        invariant forall a, b :: 0 <= a < b < |stopped| ==>
                  stopped[a] != stopped[b] && stopped[a] !in Deps(modules, stopped[b])
      {
        var id := order[i - 1];
        SuffixGrows(order, i - 1);
        if id in running {
          StopSafe(modules, order, i, stopped);
          stopped := stopped + [id];
          running := running - {id};
        }
        i := i - 1;
      }
      assert order[0..] == order;
      StopSteps(order, old(running), |order|);
      actions := StopPass(|order|);
    }
  }

  lemma OrderDistinct(modules: Modules, order: seq<nat>)
    requires StartupOrder(modules, order)
    ensures Distinct(order)
  {
  }

  /** `n` turns of a stop pass from rest. */
  lemma {:induction false} StopSteps(order: seq<nat>, running: set<nat>, n: nat)
    requires n <= |order|
    ensures Fires(order, State(running, Phase.Resting), StopPass(n))
    ensures After(order, State(running, Phase.Resting), StopPass(n))
            == State(running - Elements(order[|order| - n..]), if n == |order| then Phase.Resting
                     else Stopping(|order| - n))
    decreases n
  {
    if n == 0 {
      NoneBehind(order);
      assert StopPass(0) == [BeginStop] && [BeginStop][1..] == [];
    } else {
      hide Elements, Fires, After;
      StopSteps(order, running, n - 1);
      AfterAppend(order, State(running, Phase.Resting), StopPass(n - 1), StopNext);
      assert StopPass(n) == StopPass(n - 1) + [StopNext];
      SuffixIs(order, |order| - n);
    }
  }

  lemma SuffixIs(order: seq<nat>, i: nat)
    requires i < |order|
    ensures Elements(order[i..]) == Elements(order[i + 1..]) + {order[i]}
  {
    assert order[i..] == [order[i]] + order[i + 1..];
  }

  lemma NoneBehind(order: seq<nat>)
    ensures Elements(order[|order|..]) == {} && order[|order|..] == []
  {
  }

  lemma SuffixGrows(order: seq<nat>, i: nat)
    requires i < |order| && Distinct(order)
    ensures Elements(order[i..]) == Elements(order[i + 1..]) + {order[i]} && order[i] !in Elements(order[i + 1..])
    ensures forall x :: x in order[i..] <==> x == order[i] || x in order[i + 1..]
  {
    assert order[i..] == [order[i]] + order[i + 1..];
  }

  /** The module before position `i` differs from all behind it, and depends on none of them. */
  lemma StopSafe(modules: Modules, order: seq<nat>, i: nat, stopped: seq<nat>)
    requires StartupOrder(modules, order) && 0 < i <= |order| && forall id :: id in stopped ==> id in order[i..]
    ensures forall a :: 0 <= a < |stopped| ==> stopped[a] != order[i - 1] && stopped[a] !in Deps(modules, order[i - 1])
  {
    forall a | 0 <= a < |stopped|
      ensures stopped[a] != order[i - 1] && stopped[a] !in Deps(modules, order[i - 1])
    {
      assert stopped[a] in order[i..];
      var k :| 0 <= k < |order| - i && order[i..][k] == stopped[a];
      assert order[i + k] == stopped[a];
      EarlierOnly(modules, order, i - 1, i + k);
    }
  }
}
