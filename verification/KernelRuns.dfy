/** Kernel runs as step systems over a startup order: which modules run at every point. */
module KernelRuns {
  import opened Domain
  import opened Seqs
  import opened DependencyGraph

  /** The kernel rests, starts the module at a position next, or looks at the one before a position next
      to stop it. */
  datatype Phase = Resting | Starting(next: nat) | Stopping(behind: nat)

  datatype State = State(running: set<nat>, phase: Phase)

  /** `Begin...` enters a pass; `StartNext` is one module's start, which it may fail; `StopNext` one
      module's turn in the stop pass. */
  datatype Action = BeginStart | StartNext(succeeds: bool) | BeginStop | StopNext

  const INITIAL: State := State({}, Resting)

  predicate Enabled(order: seq<nat>, s: State, a: Action) {
    match a
    case BeginStart => s.phase.Resting?
    case StartNext(_) => s.phase.Starting? && s.phase.next < |order|
    case BeginStop => s.phase.Resting?
    case StopNext => s.phase.Stopping? && 0 < s.phase.behind <= |order|
  }

  function Step(order: seq<nat>, s: State, a: Action): State
    requires Enabled(order, s, a)
  {
    match a
    case BeginStart => s.(phase := if order == [] then Resting else Starting(0))
    case StartNext(succeeds) =>
      var id, next := order[s.phase.next], s.phase.next + 1;
      if !succeeds then State(s.running - {id}, Resting)
      else State(s.running + {id}, if next == |order| then Resting else Starting(next))
    case BeginStop => s.(phase := if order == [] then Resting else Stopping(|order|))
    case StopNext =>
      var id, behind := order[s.phase.behind - 1], s.phase.behind - 1;
      State(s.running - {id}, if behind == 0 then Resting else Stopping(behind))
  }

  /** Every action is possible in its turn. */
  ghost predicate Fires(order: seq<nat>, s: State, actions: seq<Action>)
    decreases |actions|
  {
    actions != [] ==> Enabled(order, s, actions[0]) && Fires(order, Step(order, s, actions[0]), actions[1..])
  }

  ghost function After(order: seq<nat>, s: State, actions: seq<Action>): State
    requires Fires(order, s, actions)
    decreases |actions|
  {
    if actions == [] then s else After(order, Step(order, s, actions[0]), actions[1..])
  }

  /** The state after the first `n` actions. */
  ghost function Point(order: seq<nat>, s: State, actions: seq<Action>, n: nat): State
    requires Fires(order, s, actions) && n <= |actions|
    decreases n
  {
    if n == 0 then s else Point(order, Step(order, s, actions[0]), actions[1..], n - 1)
  }

  lemma {:induction false} PointNext(order: seq<nat>, s: State, actions: seq<Action>, n: nat)
    requires Fires(order, s, actions) && n < |actions|
    ensures Enabled(order, Point(order, s, actions, n), actions[n])
    ensures Point(order, s, actions, n + 1) == Step(order, Point(order, s, actions, n), actions[n])
    decreases n
  {
    hide Enabled, Step;
    if n > 0 {
      PointNext(order, Step(order, s, actions[0]), actions[1..], n - 1);
    }
  }

  lemma {:induction false} LastPoint(order: seq<nat>, s: State, actions: seq<Action>)
    requires Fires(order, s, actions)
    ensures Point(order, s, actions, |actions|) == After(order, s, actions)
    decreases |actions|
  {
    hide Enabled, Step;
    if actions != [] {
      LastPoint(order, Step(order, s, actions[0]), actions[1..]);
    }
  }

  ghost predicate RunningPrefix(order: seq<nat>, running: set<nat>) {
    exists k: nat :: k <= |order| && running == Elements(order[..k])
  }

  /** Everything a running module depends on runs. */
  ghost predicate DependenciesRun(modules: Modules, running: set<nat>) {
    forall m, d :: m in running && d in Deps(modules, m) ==> d in running
  }

  // ----- what every run keeps

  /** Only ordered modules run; a start pass has everything before its position running, and a stop
      pass nothing behind its own. */
  ghost predicate Inv(order: seq<nat>, s: State) {
    && s.running <= Elements(order)
    && match s.phase
       case Resting => true
       case Starting(next) => next < |order| && Elements(order[..next]) <= s.running
       case Stopping(behind) => 0 < behind <= |order| && s.running <= Elements(order[..behind])
  }

  lemma PrefixNext(order: seq<nat>, k: nat)
    requires Distinct(order) && k < |order|
    ensures Elements(order[..k + 1]) == Elements(order[..k]) + {order[k]} && order[k] !in Elements(order[..k])
    ensures order[k] in Elements(order)
  {
    assert order[..k + 1] == order[..k] + [order[k]];
  }

  lemma WholeOrder(order: seq<nat>)
    ensures Elements(order[..|order|]) == Elements(order) && Elements(order[..0]) == {}
  {
    assert order[..|order|] == order;
  }

  lemma StepKeeps(order: seq<nat>, s: State, a: Action)
    requires Distinct(order) && Inv(order, s) && Enabled(order, s, a)
    ensures Inv(order, Step(order, s, a))
  {
    hide Distinct, Elements;
    WholeOrder(order);
    match a
    case StartNext(_) => PrefixNext(order, s.phase.next);
    case StopNext => PrefixNext(order, s.phase.behind - 1);
    case _ =>
  }

  lemma {:induction false} PointKeeps(order: seq<nat>, actions: seq<Action>, n: nat)
    requires Distinct(order) && Fires(order, INITIAL, actions) && n <= |actions|
    ensures Inv(order, Point(order, INITIAL, actions, n))
    decreases n
  {
    if n > 0 {
      hide Inv, Enabled, Step, Fires, Point;
      PointKeeps(order, actions, n - 1);
      PointNext(order, INITIAL, actions, n - 1);
      StepKeeps(order, Point(order, INITIAL, actions, n - 1), actions[n - 1]);
    }
  }

  /** In every run, when a module's turn to stop comes, no running module depends on it. */
  lemma EveryStop(modules: Modules, order: seq<nat>, actions: seq<Action>)
    requires StartupOrder(modules, order) && Fires(order, INITIAL, actions)
    requires Enabled(order, After(order, INITIAL, actions), StopNext)
    ensures var s := After(order, INITIAL, actions);
            forall m :: m in s.running ==> order[s.phase.behind - 1] !in Deps(modules, m)
  {
    hide After, Fires, Point;
    PointKeeps(order, actions, |actions|);
    LastPoint(order, INITIAL, actions);
    var s := After(order, INITIAL, actions);
    forall m | m in s.running
      ensures order[s.phase.behind - 1] !in Deps(modules, m)
    {
      var i :| 0 <= i < s.phase.behind && order[i] == m;
      EarlierOnly(modules, order, i, s.phase.behind - 1);
    }
  }

  lemma EarlierOnly(modules: Modules, order: seq<nat>, i: nat, j: nat)
    requires StartupOrder(modules, order) && i <= j < |order|
    ensures order[j] !in Deps(modules, order[i])
  {
  }

  // ----- when the running modules are a prefix, and when their dependencies run

  /** Not a failing start, or one with the next module of the order not running. */
  ghost predicate Harmless(order: seq<nat>, s: State, a: Action) {
    a == StartNext(false) && s.phase.Starting? && s.phase.next + 1 < |order| ==> order[s.phase.next + 1] !in s.running
  }

  /** Not a failing start, or one of a module that nothing running depends on. */
  ghost predicate Unneeded(modules: Modules, order: seq<nat>, s: State, a: Action) {
    a == StartNext(false) && s.phase.Starting? && s.phase.next < |order| ==>
      forall m :: m in s.running ==> order[s.phase.next] !in Deps(modules, m)
  }

  lemma PrefixMember(order: seq<nat>, k: nat, i: nat)
    requires Distinct(order) && k <= |order| && i < |order|
    ensures order[i] in Elements(order[..k]) <==> i < k
  {
    if i < k {
      assert order[..k][i] == order[i];
    }
  }

  lemma PrefixWithin(order: seq<nat>, j: nat, k: nat)
    requires Distinct(order) && j <= |order| && k <= |order|
    ensures Elements(order[..j]) <= Elements(order[..k]) <==> j <= k
  {
    if j <= k {
      forall x | x in Elements(order[..j])
        ensures x in Elements(order[..k])
      {
        var i :| 0 <= i < j && order[i] == x;
        PrefixMember(order, k, i);
      }
    } else {
      PrefixMember(order, j, k);
      PrefixMember(order, k, k);
    }
  }

  /** A prefix without one of its members is a prefix exactly when that member is the last. */
  lemma PrefixWithout(order: seq<nat>, k: nat, i: nat)
    requires Distinct(order) && k <= |order| && i < |order|
    ensures RunningPrefix(order, Elements(order[..k]) - {order[i]}) <==> k <= i + 1
  {
    hide Distinct, Elements;
    PrefixMember(order, k, i);
    if k <= i {
      assert Elements(order[..k]) - {order[i]} == Elements(order[..k]);
    } else if k == i + 1 {
      PrefixNext(order, i);
      assert Elements(order[..k]) - {order[i]} == Elements(order[..i]);
    } else {
      PrefixMember(order, k, i + 1);
      DistinctAt(order, i, i + 1);
      forall n: nat | n <= |order|
        ensures Elements(order[..k]) - {order[i]} != Elements(order[..n])
      {
        PrefixMember(order, n, i);
        PrefixMember(order, n, i + 1);
      }
    }
  }

  lemma DistinctAt(order: seq<nat>, i: nat, j: nat)
    requires Distinct(order) && i < j < |order|
    ensures order[i] != order[j]
  {
  }

  /** From a prefix, one action leads to a prefix exactly when it is harmless. */
  lemma PrefixStep(order: seq<nat>, s: State, a: Action)
    requires Distinct(order) && Inv(order, s) && RunningPrefix(order, s.running) && Enabled(order, s, a)
    ensures RunningPrefix(order, Step(order, s, a).running) <==> Harmless(order, s, a)
  {
    hide Distinct, Elements, RunningPrefix;
    var k := PrefixLength(order, s.running);
    match a
    case StartNext(succeeds) =>
      var next := s.phase.next;
      PrefixWithin(order, next, k);
      PrefixNext(order, next);
      PrefixMember(order, k, next);
      if succeeds {
        assert s.running + {order[next]} == Elements(order[..if k == next then next + 1 else k]);
        IsPrefix(order, if k == next then next + 1 else k);
      } else {
        PrefixWithout(order, k, next);
        if next + 1 < |order| {
          PrefixMember(order, k, next + 1);
        }
      }
    case StopNext =>
      var last := s.phase.behind - 1;
      PrefixWithin(order, k, last + 1);
      PrefixWithout(order, k, last);
    case _ =>
  }

  lemma PrefixLength(order: seq<nat>, running: set<nat>) returns (k: nat)
    requires RunningPrefix(order, running)
    ensures k <= |order| && running == Elements(order[..k])
  {
    k :| k <= |order| && running == Elements(order[..k]);
  }

  lemma IsPrefix(order: seq<nat>, k: nat)
    requires k <= |order|
    ensures RunningPrefix(order, Elements(order[..k]))
  {
  }

  /** With all dependencies running, one action keeps it so exactly when it stops nothing needed. */
  lemma DependenciesStep(modules: Modules, order: seq<nat>, s: State, a: Action)
    requires StartupOrder(modules, order) && Inv(order, s) && DependenciesRun(modules, s.running) &&
             Enabled(order, s, a)
    ensures DependenciesRun(modules, Step(order, s, a).running) <==> Unneeded(modules, order, s, a)
  {
    match a
    case StartNext(succeeds) =>
      var id := order[s.phase.next];
      EarlierOnly(modules, order, s.phase.next, s.phase.next);
      if succeeds {
        forall d | d in Deps(modules, id)
          ensures d in s.running
        {
          assert d in order[..s.phase.next];
          assert d in Elements(order[..s.phase.next]);
        }
      } else if !Unneeded(modules, order, s, a) {
        var m :| m in s.running && id in Deps(modules, m);
        assert m in s.running - {id};
      }
    case StopNext =>
      forall m | m in s.running
        ensures order[s.phase.behind - 1] !in Deps(modules, m)
      {
        var i :| 0 <= i < s.phase.behind && order[i] == m;
        EarlierOnly(modules, order, i, s.phase.behind - 1);
      }
    case _ =>
  }

  ghost predicate AlwaysPrefix(order: seq<nat>, actions: seq<Action>)
    requires Fires(order, INITIAL, actions)
  {
    forall n: nat :: n <= |actions| ==> RunningPrefix(order, Point(order, INITIAL, actions, n).running)
  }

  ghost predicate AlwaysDependencies(modules: Modules, order: seq<nat>, actions: seq<Action>)
    requires Fires(order, INITIAL, actions)
  {
    forall n: nat :: n <= |actions| ==> DependenciesRun(modules, Point(order, INITIAL, actions, n).running)
  }

  ghost predicate AllHarmless(order: seq<nat>, actions: seq<Action>)
    requires Fires(order, INITIAL, actions)
  {
    forall n: nat :: n < |actions| ==> Harmless(order, Point(order, INITIAL, actions, n), actions[n])
  }

  ghost predicate AllUnneeded(modules: Modules, order: seq<nat>, actions: seq<Action>)
    requires Fires(order, INITIAL, actions)
  {
    forall n: nat :: n < |actions| ==> Unneeded(modules, order, Point(order, INITIAL, actions, n), actions[n])
  }

  lemma {:induction false} PrefixAt(order: seq<nat>, actions: seq<Action>, n: nat)
    requires Distinct(order) && Fires(order, INITIAL, actions) && n <= |actions| && AllHarmless(order, actions)
    ensures RunningPrefix(order, Point(order, INITIAL, actions, n).running)
    decreases n
  {
    if n == 0 {
      WholeOrder(order);
      IsPrefix(order, 0);
    } else {
      hide Inv, Enabled, Step, Fires, Point, Harmless, RunningPrefix;
      PrefixAt(order, actions, n - 1);
      PointKeeps(order, actions, n - 1);
      PointNext(order, INITIAL, actions, n - 1);
      PrefixStep(order, Point(order, INITIAL, actions, n - 1), actions[n - 1]);
    }
  }

  lemma {:induction false} DependenciesAt(modules: Modules, order: seq<nat>, actions: seq<Action>, n: nat)
    requires StartupOrder(modules, order) && Fires(order, INITIAL, actions) && n <= |actions| &&
             AllUnneeded(modules, order, actions)
    ensures DependenciesRun(modules, Point(order, INITIAL, actions, n).running)
    decreases n
  {
    if n > 0 {
      hide Inv, Enabled, Step, Fires, Point, Unneeded, DependenciesRun;
      DependenciesAt(modules, order, actions, n - 1);
      PointKeeps(order, actions, n - 1);
      PointNext(order, INITIAL, actions, n - 1);
      DependenciesStep(modules, order, Point(order, INITIAL, actions, n - 1), actions[n - 1]);
    }
  }

  /** Over every run whatever, starts that failed half-way and starts over running modules included:
      the running modules are the first few of the startup order at every point exactly when no start
      fails with the next module running, and everything a running module depends on runs at every
      point exactly when no start fails of a module that something running needs. */
  lemma EveryPoint(modules: Modules, order: seq<nat>, actions: seq<Action>)
    requires StartupOrder(modules, order) && Fires(order, INITIAL, actions)
    ensures AlwaysPrefix(order, actions) <==> AllHarmless(order, actions)
    ensures AlwaysDependencies(modules, order, actions) <==> AllUnneeded(modules, order, actions)
  {
    hide Inv, Enabled, Step, Fires, Point, Harmless, Unneeded, RunningPrefix, DependenciesRun;
    if AllHarmless(order, actions) {
      forall n: nat | n <= |actions|
        ensures RunningPrefix(order, Point(order, INITIAL, actions, n).running)
      {
        PrefixAt(order, actions, n);
      }
    }
    if AllUnneeded(modules, order, actions) {
      forall n: nat | n <= |actions|
        ensures DependenciesRun(modules, Point(order, INITIAL, actions, n).running)
      {
        DependenciesAt(modules, order, actions, n);
      }
    }
    forall n: nat | n < |actions|
      ensures AlwaysPrefix(order, actions) ==> Harmless(order, Point(order, INITIAL, actions, n), actions[n])
      ensures AlwaysDependencies(modules, order, actions) ==>
              Unneeded(modules, order, Point(order, INITIAL, actions, n), actions[n])
    {
      NeededAt(modules, order, actions, n);
    }
  }

  lemma NeededAt(modules: Modules, order: seq<nat>, actions: seq<Action>, n: nat)
    requires StartupOrder(modules, order) && Fires(order, INITIAL, actions) && n < |actions|
    ensures AlwaysPrefix(order, actions) ==> Harmless(order, Point(order, INITIAL, actions, n), actions[n])
    ensures AlwaysDependencies(modules, order, actions) ==>
            Unneeded(modules, order, Point(order, INITIAL, actions, n), actions[n])
  {
    hide Inv, Enabled, Step, Fires, Point, Harmless, Unneeded, RunningPrefix, DependenciesRun;
    PointKeeps(order, actions, n);
    PointNext(order, INITIAL, actions, n);
    var s, a := Point(order, INITIAL, actions, n), actions[n];
    if AlwaysPrefix(order, actions) {
      PrefixStep(order, s, a);
    }
    if AlwaysDependencies(modules, order, actions) {
      DependenciesStep(modules, order, s, a);
    }
  }

  /** A prefix of the startup order is closed under dependencies. */
  lemma PrefixDependencies(modules: Modules, order: seq<nat>, running: set<nat>)
    requires StartupOrder(modules, order) && RunningPrefix(order, running)
    ensures DependenciesRun(modules, running)
  {
    var k: nat :| k <= |order| && running == Elements(order[..k]);
    forall m, d | m in running && d in Deps(modules, m)
      ensures d in running
    {
      var i :| 0 <= i < k && order[i] == m;
      assert d in order[..i];
      var j :| 0 <= j < i && order[j] == d;
      assert order[..k][j] == d;
    }
  }

  lemma {:induction false} AfterAppend(order: seq<nat>, s: State, actions: seq<Action>, a: Action)
    requires Fires(order, s, actions) && Enabled(order, After(order, s, actions), a)
    ensures Fires(order, s, actions + [a]) && After(order, s, actions + [a]) == Step(order, After(order, s, actions), a)
    decreases |actions|
  {
    hide Enabled, Step;
    if actions == [] {
      assert [a][1..] == [] && actions + [a] == [a];
    } else {
      AfterAppend(order, Step(order, s, actions[0]), actions[1..], a);
      assert (actions + [a])[1..] == actions[1..] + [a];
    }
  }

  // ----- whole passes

  /** A start pass in which `n` modules start, and then one fails or none is left. */
  ghost function StartPass(n: nat, fails: bool): seq<Action> {
    [BeginStart] + seq(n, _ => StartNext(true)) + if fails then [StartNext(false)] else []
  }

  ghost function StopPass(n: nat): seq<Action> {
    [BeginStop] + seq(n, _ => StopNext)
  }

  /** What a start pass leaves running when the module at position `failed` fails. */
  ghost function Restarted(order: seq<nat>, running: set<nat>, failed: nat): set<nat>
    requires failed < |order|
  {
    running + Elements(order[..failed]) - {order[failed]}
  }

  /** `n` successful starts from rest. */
  lemma {:induction false} PassSteps(order: seq<nat>, running: set<nat>, n: nat)
    requires n <= |order|
    ensures Fires(order, State(running, Resting), StartPass(n, false))
    ensures After(order, State(running, Resting), StartPass(n, false))
            == State(running + Elements(order[..n]), if n == |order| then Resting else Starting(n))
    decreases n
  {
    var s := State(running, Resting);
    if n == 0 {
      WholeOrder(order);
      assert StartPass(0, false) == [BeginStart] && [BeginStart][1..] == [];
    } else {
      hide Elements, Fires, After;
      PassSteps(order, running, n - 1);
      AfterAppend(order, s, StartPass(n - 1, false), StartNext(true));
      assert StartPass(n, false) == StartPass(n - 1, false) + [StartNext(true)];
      PrefixGrows(order, n - 1);
      assert running + Elements(order[..n - 1]) + {order[n - 1]} == running + Elements(order[..n]);
    }
  }

  lemma PrefixGrows(order: seq<nat>, i: nat)
    requires i < |order|
    ensures Elements(order[..i + 1]) == Elements(order[..i]) + {order[i]}
  {
    assert order[..i + 1] == order[..i] + [order[i]];
  }

  /** A start pass that fails at a position is a run, and leaves `Restarted`. */
  lemma FailedPass(order: seq<nat>, running: set<nat>, failed: nat)
    requires failed < |order|
    ensures Fires(order, State(running, Resting), StartPass(failed, true))
    ensures After(order, State(running, Resting), StartPass(failed, true)) ==
            State(Restarted(order, running, failed), Resting)
  {
    hide Fires, After, Elements;
    PassSteps(order, running, failed);
    AfterAppend(order, State(running, Resting), StartPass(failed, false), StartNext(false));
    assert StartPass(failed, true) == StartPass(failed, false) + [StartNext(false)];
  }

  /** From a running prefix of length `k`, a start pass that fails leaves a prefix exactly when nothing
      behind the failed module ran. */
  lemma RestartIff(order: seq<nat>, k: nat, failed: nat)
    requires Distinct(order) && k <= |order| && failed < |order|
    ensures var s := State(Elements(order[..k]), Resting);
            && Fires(order, s, StartPass(failed, true))
            && (RunningPrefix(order, After(order, s, StartPass(failed, true)).running) <==> k <= failed + 1)
  {
    hide Distinct, Elements, RunningPrefix, Fires, After;
    FailedPass(order, Elements(order[..k]), failed);
    var longer := if k <= failed then failed else k;
    PrefixWithin(order, k, longer);
    PrefixWithin(order, failed, longer);
    assert Elements(order[..k]) + Elements(order[..failed]) == Elements(order[..longer]);
    PrefixWithout(order, longer, failed);
  }

  /** Two modules, the second needing the first: both started, then started again with the first
      failing. The run ends with the second running alone. */
  lemma RestartExample()
    ensures var modules: Modules, order := map[1 := Some([]), 2 := Some([1])], [1, 2];
            var run := StartPass(2, false) + StartPass(0, true);
            && StartupOrder(modules, order) && Fires(order, INITIAL, run)
            && After(order, INITIAL, run) == State({2}, Resting)
            && !RunningPrefix(order, {2}) && !DependenciesRun(modules, {2})
  {
    var modules: Modules, order := map[1 := Some([]), 2 := Some([1])], [1, 2];
    assert order[0] == 1 && order[1] == 2;
    PassSteps(order, {}, 2);
    assert order[..2] == order && Elements(order) == {1, 2};
    var first := StartPass(2, false);
    AfterAppend(order, INITIAL, first, BeginStart);
    AfterAppend(order, INITIAL, first + [BeginStart], StartNext(false));
    assert first + [BeginStart] + [StartNext(false)] == first + StartPass(0, true);
    assert 1 in Deps(modules, 2);
    forall k: nat | k <= |order|
      ensures {2} != Elements(order[..k])
    {
      assert k > 0 ==> order[..k][0] == 1;
    }
  }
}
