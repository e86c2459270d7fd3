/** The bounded single-producer single-consumer ring: one producer and one consumer interleave
    freely, one atomic access per action, on 64-bit indexes that wrap around. The histories of
    committed and released values count without wrapping; they are what the indexes stand for. */
module SpscRing {
  import opened Domain
  import opened Laps

  /** Where a push stands. `seen` is the number of releases at the moment the read index was loaded. */
  datatype Producer<T> =
    | Idle
    | LoadedWrite(value: T, w: u64)
    | LoadedBoth(value: T, w: u64, r: u64, seen: nat)
    | Written(value: T, w: u64)

  /** Where a pop stands. `writes` is the number of commits at the moment the write index was loaded. */
  datatype Consumer<T> =
    | Rest
    | GotRead(r: u64)
    | GotBoth(r: u64, w: u64, writes: nat)
    | Taken(r: u64, data: Option<T>)

  datatype State<T> = State(buffer: seq<Option<T>>, writeIdx: u64, readIdx: u64,
                            producer: Producer<T>, consumer: Consumer<T>, pushed: seq<T>, popped: seq<Option<T>>)

  datatype Action<T> =
    | Begin(value: T) | LoadRead | Full | Write | Commit
    | PopBegin | LoadWrite | Empty | Take | Release

  /** `idx & (Capacity - 1)`, for a power of two. */
  function Slot<T>(s: State<T>, idx: u64): nat
    requires |s.buffer| > 0
    ensures Slot(s, idx) < |s.buffer|
  {
    idx % |s.buffer|
  }

  function Init<T>(capacity: nat): State<T> {
    State(seq(capacity, _ => None), 0, 0, Idle, Rest, [], [])
  }

  predicate Enabled<T>(s: State<T>, a: Action<T>)
    requires |s.buffer| > 0
  {
    match a
    case Begin(_) => s.producer.Idle?
    case LoadRead => s.producer.LoadedWrite?
    case Full => s.producer.LoadedBoth? && Wrap64(s.producer.w - s.producer.r) >= |s.buffer|
    case Write => s.producer.LoadedBoth? && Wrap64(s.producer.w - s.producer.r) < |s.buffer|
    case Commit => s.producer.Written?
    case PopBegin => s.consumer.Rest?
    case LoadWrite => s.consumer.GotRead?
    case Empty => s.consumer.GotBoth? && s.consumer.r == s.consumer.w
    case Take => s.consumer.GotBoth? && s.consumer.r != s.consumer.w
    case Release => s.consumer.Taken?
  }

  /** `Take` moves the value out of its slot. */
  function Apply<T>(s: State<T>, a: Action<T>): State<T>
    requires |s.buffer| > 0 && Enabled(s, a)
  {
    match a
    case Begin(value) => s.(producer := LoadedWrite(value, s.writeIdx))
    case LoadRead => s.(producer := LoadedBoth(s.producer.value, s.producer.w, s.readIdx, |s.popped|))
    case Full => s.(producer := Idle)
    case Write =>
      s.(buffer := s.buffer[Slot(s, s.producer.w) := Some(s.producer.value)],
         producer := Written(s.producer.value, s.producer.w))
    case Commit => s.(writeIdx := Wrap64(s.producer.w + 1), producer := Idle, pushed := s.pushed + [s.producer.value])
    case PopBegin => s.(consumer := GotRead(s.readIdx))
    case LoadWrite => s.(consumer := GotBoth(s.consumer.r, s.writeIdx, |s.pushed|))
    case Empty => s.(consumer := Rest)
    case Take =>
      s.(consumer := Taken(s.consumer.r, s.buffer[Slot(s, s.consumer.r)]),
         buffer := s.buffer[Slot(s, s.consumer.r) := None])
    case Release => s.(readIdx := Wrap64(s.consumer.r + 1), consumer := Rest, popped := s.popped + [s.consumer.data])
  }

  // ----- invariant

  ghost predicate Counted<T(!new)>(s: State<T>) {
    && Capacity(|s.buffer|)
    && |s.popped| <= |s.pushed| <= |s.popped| + |s.buffer|
    && s.writeIdx == Wrap64(|s.pushed|) && s.readIdx == Wrap64(|s.popped|)
  }

  /** The slot of history position `t`. */
  ghost function At<T(!new)>(s: State<T>, t: nat): Option<T>
    requires |s.buffer| > 0
  {
    s.buffer[t % |s.buffer|]
  }

  ghost predicate Inv<T(!new)>(s: State<T>) {
    && Counted(s)
    && (forall t :: |s.popped| <= t < |s.pushed| && !(s.consumer.Taken? && t == |s.popped|) ==>
          At(s, t) == Some(s.pushed[t]))
    && (forall i :: 0 <= i < |s.popped| ==> s.popped[i] == Some(s.pushed[i]))
    && (match s.producer
        case Idle => true
        case LoadedWrite(_, w) => w == s.writeIdx
        case LoadedBoth(_, w, r, seen) =>
          w == s.writeIdx && r == Wrap64(seen) && seen <= |s.popped| && |s.pushed| <= seen + |s.buffer|
        case Written(value, w) =>
          w == s.writeIdx && |s.pushed| < |s.popped| + |s.buffer| && At(s, |s.pushed|) == Some(value))
    && (match s.consumer
        case Rest => true
        case GotRead(r) => r == s.readIdx
        case GotBoth(r, w, writes) => r == s.readIdx && w == Wrap64(writes) && |s.popped| <= writes <= |s.pushed|
        case Taken(r, data) => r == s.readIdx && |s.popped| < |s.pushed| && data == Some(s.pushed[|s.popped|]))
  }

  // ----- the wrapped arithmetic agrees with the counts

  /** The wrapped difference of a write count and a possibly stale read count is their difference. */
  lemma Difference(writes: nat, seen: nat, n: nat)
    requires seen <= writes <= seen + n && n <= 0x8000_0000_0000_0000
    ensures Wrap64(Wrap64(writes) - Wrap64(seen)) == writes - seen
    ensures Wrap64(writes) == Wrap64(seen) <==> writes == seen
  {
  }

  lemma Slots(a: nat, b: nat, n: nat)
    requires n > 0 && a < b < a + n
    ensures a % n != b % n
  {
    if a % n == b % n {
      SameSlot(a, b, n);
    }
  }

  /** A push finds the ring full exactly when it is full at the moment it loads the read index. */
  lemma FullMeans<T(!new)>(s: State<T>)
    requires Inv(s) && Enabled(s, LoadRead)
    ensures Enabled(Apply(s, LoadRead), Full) <==> |s.pushed| == |s.popped| + |s.buffer|
  {
    Difference(|s.pushed|, |s.popped|, |s.buffer|);
  }

  /** A pop finds the ring empty exactly when it is empty at the moment it loads the write index. */
  lemma EmptyMeans<T(!new)>(s: State<T>)
    requires Inv(s) && Enabled(s, LoadWrite)
    ensures Enabled(Apply(s, LoadWrite), Empty) <==> |s.pushed| == |s.popped|
  {
    Difference(|s.pushed|, |s.popped|, |s.buffer|);
  }

  // ----- every action keeps the invariant

  lemma WriteKeeps<T(!new)>(s: State<T>)
    requires Inv(s) && Enabled(s, Write)
    ensures Inv(Apply(s, Write))
  {
    var s', n := Apply(s, Write), |s.buffer|;
    Difference(|s.pushed|, s.producer.seen, n);
    SlotOf(|s.pushed|, n);
    forall t | |s'.popped| <= t < |s'.pushed| && !(s'.consumer.Taken? && t == |s'.popped|)
      ensures At(s', t) == Some(s'.pushed[t])
    {
      Slots(t, |s.pushed|, n);
      assert At(s, t) == Some(s.pushed[t]);
    }
  }

  lemma CommitKeeps<T(!new)>(s: State<T>)
    requires Inv(s) && Enabled(s, Commit)
    ensures Inv(Apply(s, Commit))
  {
    var s' := Apply(s, Commit);
    WrapAdd(|s.pushed|, 1);
    forall t | |s'.popped| <= t < |s'.pushed| && !(s'.consumer.Taken? && t == |s'.popped|)
      ensures At(s', t) == Some(s'.pushed[t])
    {
      if t < |s.pushed| {
        assert At(s, t) == Some(s.pushed[t]);
      }
    }
  }

  lemma TakeKeeps<T(!new)>(s: State<T>)
    requires Inv(s) && Enabled(s, Take)
    ensures Inv(Apply(s, Take))
  {
    var s', n := Apply(s, Take), |s.buffer|;
    Difference(s.consumer.writes, |s.popped|, n);
    SlotOf(|s.popped|, n);
    assert At(s, |s.popped|) == Some(s.pushed[|s.popped|]);
    forall t | |s'.popped| <= t < |s'.pushed| && !(s'.consumer.Taken? && t == |s'.popped|)
      ensures At(s', t) == Some(s'.pushed[t])
    {
      Slots(|s.popped|, t, n);
      assert At(s, t) == Some(s.pushed[t]);
    }
    if s.producer.Written? {
      Slots(|s.popped|, |s.pushed|, n);
    }
  }

  lemma ReleaseKeeps<T(!new)>(s: State<T>)
    requires Inv(s) && Enabled(s, Release)
    ensures Inv(Apply(s, Release))
  {
    var s' := Apply(s, Release);
    WrapAdd(|s.popped|, 1);
    forall t | |s'.popped| <= t < |s'.pushed|
      ensures At(s', t) == Some(s'.pushed[t])
    {
      assert At(s, t) == Some(s.pushed[t]);
    }
  }

  lemma StepKeeps<T(!new)>(s: State<T>, a: Action<T>)
    requires Inv(s) && Enabled(s, a)
    ensures Inv(Apply(s, a))
  {
    match a {
      case Write => WriteKeeps(s);
      case Commit => CommitKeeps(s);
      case Take => TakeKeeps(s);
      case Release => ReleaseKeeps(s);
      case _ => OtherKeeps(s, a);
    }
  }

  lemma OtherKeeps<T(!new)>(s: State<T>, a: Action<T>)
    requires Inv(s) && Enabled(s, a) && !a.Write? && !a.Commit? && !a.Take? && !a.Release?
    ensures Inv(Apply(s, a))
  {
    var s' := Apply(s, a);
    forall t | |s'.popped| <= t < |s'.pushed| && !(s'.consumer.Taken? && t == |s'.popped|)
      ensures At(s', t) == Some(s'.pushed[t])
    {
      assert At(s, t) == Some(s.pushed[t]);
    }
  }

  // ----- every run is a bounded FIFO

  ghost predicate Fires<T(!new)>(s: State<T>, actions: seq<Action<T>>)
    requires |s.buffer| > 0
    decreases |actions|, 0
  {
    actions != [] ==>
      var rest, last := actions[..|actions| - 1], actions[|actions| - 1];
      Fires(s, rest) && Enabled(After(s, rest), last)
  }

  ghost function After<T(!new)>(s: State<T>, actions: seq<Action<T>>): (r: State<T>)
    requires |s.buffer| > 0 && Fires(s, actions)
    ensures |r.buffer| == |s.buffer|
    decreases |actions|, 1
  {
    if actions == [] then s else Apply(After(s, actions[..|actions| - 1]), actions[|actions| - 1])
  }

  /** The values in the ring, oldest first. */
  ghost function Contents<T(!new)>(s: State<T>): seq<T>
    requires |s.popped| <= |s.pushed|
  {
    s.pushed[|s.popped|..]
  }

  lemma {:induction false} RunKeeps<T(!new)>(capacity: nat, actions: seq<Action<T>>)
    requires Capacity(capacity) && Fires(Init<T>(capacity), actions)
    ensures Inv(After(Init<T>(capacity), actions))
  {
    if actions != [] {
      hide Inv, Capacity;
      var rest, last := actions[..|actions| - 1], actions[|actions| - 1];
      RunKeeps<T>(capacity, rest);
      StepKeeps(After(Init<T>(capacity), rest), last);
    }
  }

  /** In every run the values popped are the values pushed, in order, and never more than the capacity
      is in between. */
  lemma EveryRunIsFifo<T(!new)>(capacity: nat, actions: seq<Action<T>>)
    requires Capacity(capacity) && Fires(Init<T>(capacity), actions)
    ensures var s := After(Init<T>(capacity), actions);
            && |s.popped| <= |s.pushed| <= |s.popped| + capacity
            && forall i :: 0 <= i < |s.popped| ==> s.popped[i] == Some(s.pushed[i])
  {
    RunKeeps<T>(capacity, actions);
  }

  /** Each action either leaves the abstract queue alone, appends at its tail while there is room, or
      takes its head; and what a pop returns is that head. */
  lemma Refines<T(!new)>(s: State<T>, a: Action<T>)
    requires Inv(s) && Enabled(s, a)
    ensures var s' := Apply(s, a);
            && |s'.popped| <= |s'.pushed| && |Contents(s')| <= |s.buffer|
            && match a
               case Commit => |Contents(s)| < |s.buffer| && Contents(s') == Contents(s) + [s.producer.value]
               case Release => Contents(s) != [] && s.consumer.data == Some(Contents(s)[0]) &&
               Contents(s') == Contents(s)[1..]
               case _ => Contents(s') == Contents(s)
  {
    StepKeeps(s, a);
  }

  // ----- the size estimate

  function Size<T>(s: State<T>): u64 {
    if s.writeIdx >= s.readIdx then s.writeIdx - s.readIdx else 0
  }

  /** `size()` compares wrapped indexes: it is the number of values held exactly when the write index
      has not wrapped past the read index, and 0 otherwise. */
  lemma SizeIff<T(!new)>(s: State<T>)
    requires Inv(s)
    ensures Size(s) == |Contents(s)| <==> s.writeIdx >= s.readIdx
  {
    Difference(|s.pushed|, |s.popped|, |s.buffer|);
  }

  // ----- a run around the index range

  const PUSH: seq<Action<bool>> := [Begin(true), LoadRead, Write, Commit]

  const POP: seq<Action<bool>> := [PopBegin, LoadWrite, Take, Release]

  ghost function Turns(n: nat): seq<Action<bool>> {
    if n == 0 then [] else Turns(n - 1) + PUSH + POP
  }

  /** Empty, after `n` values have passed through. */
  ghost function Passed(capacity: nat, n: nat): State<bool> {
    State(seq(capacity, _ => None), Wrap64(n), Wrap64(n), Idle, Rest, seq(n, _ => true), seq(n, _ => Some(true)))
  }

  /** Holding one value, after `n` others have passed through. */
  ghost function Holding(capacity: nat, n: nat): State<bool>
    requires capacity > 0
  {
    State(Passed(capacity, n).buffer[Wrap64(n) % capacity := Some(true)], Wrap64(n + 1), Wrap64(n), Idle, Rest,
          seq(n + 1, _ => true), seq(n, _ => Some(true)))
  }

  lemma FiresOn<T(!new)>(s: State<T>, run: seq<Action<T>>, a: Action<T>)
    requires |s.buffer| > 0 && Fires(s, run) && Enabled(After(s, run), a)
    ensures Fires(s, run + [a]) && After(s, run + [a]) == Apply(After(s, run), a)
  {
    assert (run + [a])[..|run|] == run;
  }

  lemma PushFires(capacity: nat, n: nat, run: seq<Action<bool>>)
    requires capacity > 0 && Fires(Init<bool>(capacity), run) && After(Init<bool>(capacity), run) == Passed(capacity, n)
    ensures Fires(Init<bool>(capacity), run + PUSH) && After(Init<bool>(capacity), run + PUSH) == Holding(capacity, n)
  {
    hide Fires, After;
    var s := Init<bool>(capacity);
    FiresOn(s, run, Begin(true));
    FiresOn(s, run + [Begin(true)], LoadRead);
    FiresOn(s, run + [Begin(true)] + [LoadRead], Write);
    FiresOn(s, run + [Begin(true)] + [LoadRead] + [Write], Commit);
    WrapAdd(n, 1);
    assert run + PUSH == run + [Begin(true)] + [LoadRead] + [Write] + [Commit];
    assert seq(n, _ => true) + [true] == seq(n + 1, _ => true);
  }

  lemma PopFires(capacity: nat, n: nat, run: seq<Action<bool>>)
    requires capacity > 0 && Fires(Init<bool>(capacity), run) &&
             After(Init<bool>(capacity), run) == Holding(capacity, n)
    ensures Fires(Init<bool>(capacity), run + POP) && After(Init<bool>(capacity), run + POP) == Passed(capacity, n + 1)
  {
    hide Fires, After;
    var s := Init<bool>(capacity);
    FiresOn(s, run, PopBegin);
    FiresOn(s, run + [PopBegin], LoadWrite);
    FiresOn(s, run + [PopBegin] + [LoadWrite], Take);
    FiresOn(s, run + [PopBegin] + [LoadWrite] + [Take], Release);
    WrapAdd(n, 1);
    assert run + POP == run + [PopBegin] + [LoadWrite] + [Take] + [Release];
    assert seq(n, _ => Some(true)) + [Some(true)] == seq(n + 1, _ => Some(true));
    assert Holding(capacity, n).buffer[Wrap64(n) % capacity := None] == Passed(capacity, n + 1).buffer;
  }

  lemma {:induction false} TurnsFire(capacity: nat, n: nat)
    requires capacity > 0
    ensures Fires(Init<bool>(capacity), Turns(n)) && After(Init<bool>(capacity), Turns(n)) == Passed(capacity, n)
  {
    hide Fires, After, Passed, Holding;
    if n == 0 {
      NonePassed(capacity);
    } else {
      TurnsFire(capacity, n - 1);
      PushFires(capacity, n - 1, Turns(n - 1));
      PopFires(capacity, n - 1, Turns(n - 1) + PUSH);
    }
  }

  lemma NonePassed(capacity: nat)
    requires capacity > 0
    ensures Fires(Init<bool>(capacity), []) && After(Init<bool>(capacity), []) == Passed(capacity, 0)
  {
    assert Init<bool>(capacity) == Passed(capacity, 0);
  }

  /** On a ring of any capacity some run ends with one value held and a size of 0: the push whose commit
      wraps the write index. */
  lemma SizeAtWrap(capacity: nat)
    requires capacity > 0
    ensures exists run ::
              && Fires(Init<bool>(capacity), run)
              && var s := After(Init<bool>(capacity), run);
                 |s.popped| <= |s.pushed| && |Contents(s)| == 1 && Size(s) == 0
  {
    TurnsFire(capacity, TWO_64 - 1);
    PushFires(capacity, TWO_64 - 1, Turns(TWO_64 - 1));
    var run := Turns(TWO_64 - 1) + PUSH;
    hide Fires, After;
    WrapEnd();
    assert |Contents(Holding(capacity, TWO_64 - 1))| == 1;
  }

  lemma WrapEnd()
    ensures Wrap64(TWO_64) == 0 && Wrap64(TWO_64 - 1) == TWO_64 - 1
  {
  }
}
