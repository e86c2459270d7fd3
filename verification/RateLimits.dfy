/** The sliding-window rate limiter: a ring of the last hundred acceptances and a count that stops
    growing, against a reference that keeps every acceptance. */
module RateLimits {
  import opened Domain

  const WINDOW_SIZE: nat := 100
  const MAX_ACCOUNTS: nat := 1024
  const SECOND: u64 := 1000000000

  datatype Tracker = Tracker(timestamps: seq<u64>, index: nat, count: nat)

  const FRESH: Tracker := Tracker(seq(WINDOW_SIZE, _ => 0), 0, 0)

  ghost predicate WellFormed(t: Tracker) {
    |t.timestamps| == WINDOW_SIZE && t.index < WINDOW_SIZE
  }

  /** The slot of the oldest of the last `limit` acceptances, in 64-bit arithmetic. */
  function OldestSlot(index: nat, limit: u32): (r: nat)
    ensures r < WINDOW_SIZE
  {
    Wrap64(index + WINDOW_SIZE - limit) % WINDOW_SIZE
  }

  function Record(t: Tracker, now: u64): Tracker
    requires WellFormed(t)
  {
    t.(timestamps := t.timestamps[t.index := now], index := (t.index + 1) % WINDOW_SIZE)
  }

  /** The decision on one message under a positive limit, and the tracker afterwards. */
  function Check(t: Tracker, now: u64, limit: u32): (r: (bool, Tracker))
    requires WellFormed(t) && limit > 0
    ensures WellFormed(r.1)
  {
    if t.count < limit then (true, Record(t, now).(count := t.count + 1))
    else if Wrap64(now - t.timestamps[OldestSlot(t.index, limit)]) < SECOND then (false, t)
    else (true, Record(t, now))
  }

  // ----- the reference

  predicate Recent(past: u64, now: u64) {
    now - past < SECOND
  }

  /** How many of the acceptances lie less than a second back. */
  function InWindow(history: seq<u64>, now: u64): nat {
    if history == [] then 0
    else InWindow(history[..|history| - 1], now) + if Recent(history[|history| - 1], now) then 1 else 0
  }

  ghost predicate Nondecreasing(history: seq<u64>) {
    forall i, j :: 0 <= i < j < |history| ==> history[i] <= history[j]
  }

  lemma {:induction false} InWindowSize(history: seq<u64>, now: u64)
    ensures InWindow(history, now) <= |history|
  {
    if history != [] {
      InWindowSize(history[..|history| - 1], now);
    }
  }

  /** In an ordered history what lies in the window is a tail of it. */
  lemma {:induction false} WindowIsTail(history: seq<u64>, now: u64, n: nat)
    requires Nondecreasing(history) && 0 < n <= |history|
    ensures InWindow(history, now) >= n <==> Recent(history[|history| - n], now)
    decreases |history|
  {
    var init, last := history[..|history| - 1], history[|history| - 1];
    if n == 1 {
      if !Recent(last, now) {
        NoneRecent(init, now, last);
      }
    } else {
      WindowIsTail(init, now, n - 1);
      assert init[|init| - (n - 1)] == history[|history| - n];
      assert history[|history| - n] <= last;
    }
  }

  lemma {:induction false} NoneRecent(history: seq<u64>, now: u64, last: u64)
    requires !Recent(last, now) && forall i :: 0 <= i < |history| ==> history[i] <= last
    ensures InWindow(history, now) == 0
    decreases |history|
  {
    if history != [] {
      NoneRecent(history[..|history| - 1], now, last);
    }
  }

  lemma {:induction false} WindowShrinks(history: seq<u64>, now: u64, later: u64)
    requires now <= later
    ensures InWindow(history, later) <= InWindow(history, now)
    decreases |history|
  {
    if history != [] {
      WindowShrinks(history[..|history| - 1], now, later);
    }
  }

  /** The tracker keeps the last hundred acceptances in its ring, and a count that bounds what lies in
      the window for as long as it is below a hundred. */
  ghost predicate Tracks(t: Tracker, history: seq<u64>) {
    && WellFormed(t) && Nondecreasing(history)
    && t.index == |history| % WINDOW_SIZE && t.count <= |history|
    && RingHolds(t.timestamps, history)
    && (t.count >= WINDOW_SIZE || history == [] || InWindow(history, history[|history| - 1]) <= t.count)
  }

  ghost predicate RingHolds(ring: seq<u64>, history: seq<u64>) {
    |ring| == WINDOW_SIZE && forall k: nat :: |history| - WINDOW_SIZE <= k < |history| ==>
      ring[k % WINDOW_SIZE] == history[k]
  }

  lemma RingRecords(ring: seq<u64>, history: seq<u64>, now: u64)
    requires RingHolds(ring, history)
    ensures RingHolds(ring[|history| % WINDOW_SIZE := now], history + [now])
  {
    var n := |history|;
    forall k: nat | n + 1 - WINDOW_SIZE <= k < n + 1
      ensures ring[n % WINDOW_SIZE := now][k % WINDOW_SIZE] == (history + [now])[k]
    {
      if k < n {
        OtherSlot(k, n);
      }
    }
  }

  lemma OtherSlot(k: nat, n: nat)
    requires n - WINDOW_SIZE < k < n
    ensures k % WINDOW_SIZE != n % WINDOW_SIZE
  {
  }

  lemma OldestIs(size: nat, limit: u32)
    requires 0 < limit <= WINDOW_SIZE && limit <= size
    ensures OldestSlot(size % WINDOW_SIZE, limit) == (size - limit) % WINDOW_SIZE
  {
    var r := size % WINDOW_SIZE;
    assert 0 <= r + WINDOW_SIZE - limit < TWO_64;
    assert (r + WINDOW_SIZE - limit) % WINDOW_SIZE == (size - limit) % WINDOW_SIZE;
  }

  lemma Decides(t: Tracker, history: seq<u64>, now: u64, limit: u32)
    requires Tracks(t, history) && 0 < limit <= WINDOW_SIZE && (history != [] ==> history[|history| - 1] <= now)
    ensures Check(t, now, limit).0 <==> InWindow(history, now) < limit
  {
    hide InWindow, RingHolds, OldestSlot, Nondecreasing;
    if t.count >= limit {
      OldestIs(|history|, limit);
      OldestRead(t.timestamps, history, |history| - limit);
      WindowIsTail(history, now, limit);
      OrderedLast(history, |history| - limit);
      NoWrap(now, history[|history| - limit]);
    } else if history == [] {
      NoHistory(now);
    } else {
      WindowShrinks(history, history[|history| - 1], now);
    }
  }

  lemma NoWrap(now: u64, past: u64)
    requires past <= now
    ensures Wrap64(now - past) == now - past
  {
  }

  /** One message, any limit from 1 to 100, time not running backwards: the decision is the reference's,
      and the tracker goes on tracking the reference's history. */
  lemma CheckAgrees(t: Tracker, history: seq<u64>, now: u64, limit: u32)
    requires Tracks(t, history) && 0 < limit <= WINDOW_SIZE && (history != [] ==> history[|history| - 1] <= now)
    ensures Check(t, now, limit).0 <==> InWindow(history, now) < limit
    ensures Tracks(Check(t, now, limit).1, if Check(t, now, limit).0 then history + [now] else history)
  {
    hide InWindow, RingHolds, OldestSlot, Nondecreasing, Wrap64;
    Decides(t, history, now, limit);
    if Check(t, now, limit).0 {
      if history == [] {
        NoHistory(now);
      } else {
        WindowShrinks(history, history[|history| - 1], now);
      }
      WindowGrows(history, now);
      RingRecords(t.timestamps, history, now);
      OrderedOn(history, now);
      IndexOn(|history|);
    }
  }

  lemma NoHistory(now: u64)
    ensures InWindow([], now) == 0
  {
  }

  lemma OldestRead(ring: seq<u64>, history: seq<u64>, k: nat)
    requires RingHolds(ring, history) && |history| - WINDOW_SIZE <= k < |history|
    ensures ring[k % WINDOW_SIZE] == history[k]
  {
  }

  lemma OrderedLast(history: seq<u64>, k: nat)
    requires Nondecreasing(history) && k < |history|
    ensures history[k] <= history[|history| - 1]
  {
  }

  lemma WindowGrows(history: seq<u64>, now: u64)
    ensures InWindow(history + [now], now) == InWindow(history, now) + 1
  {
    assert (history + [now])[..|history|] == history;
  }

  lemma OrderedOn(history: seq<u64>, now: u64)
    requires Nondecreasing(history) && (history != [] ==> history[|history| - 1] <= now)
    ensures Nondecreasing(history + [now])
  {
  }

  lemma IndexOn(n: nat)
    ensures (n % WINDOW_SIZE + 1) % WINDOW_SIZE == (n + 1) % WINDOW_SIZE
  {
  }

  // ----- every run of the validator

  datatype Call = Call(account: u32, now: u64, limit: u32)

  function Slot(account: u32): (r: nat)
    ensures r < MAX_ACCOUNTS
  {
    account % MAX_ACCOUNTS
  }

  ghost predicate AllFormed(trackers: seq<Tracker>) {
    |trackers| == MAX_ACCOUNTS && forall a :: 0 <= a < MAX_ACCOUNTS ==> WellFormed(trackers[a])
  }

  /** A zero limit accepts without recording; accounts with the same slot share a tracker. */
  function CheckRate(trackers: seq<Tracker>, call: Call): (r: (bool, seq<Tracker>))
    requires AllFormed(trackers)
    ensures AllFormed(r.1)
  {
    if call.limit == 0 then (true, trackers)
    else
      var checked := Check(trackers[Slot(call.account)], call.now, call.limit);
      (checked.0, trackers[Slot(call.account) := checked.1])
  }

  function Reference(histories: seq<seq<u64>>, call: Call): (r: (bool, seq<seq<u64>>))
    requires |histories| == MAX_ACCOUNTS
    ensures |r.1| == MAX_ACCOUNTS
  {
    var h := histories[Slot(call.account)];
    if call.limit == 0 then (true, histories)
    else if InWindow(h, call.now) < call.limit then (true, histories[Slot(call.account) := h + [call.now]])
    else (false, histories)
  }

  ghost function Decisions(trackers: seq<Tracker>, calls: seq<Call>): seq<bool>
    requires AllFormed(trackers)
    decreases |calls|
  {
    if calls == [] then []
    else [CheckRate(trackers, calls[0]).0] + Decisions(CheckRate(trackers, calls[0]).1, calls[1..])
  }

  ghost function ReferenceDecisions(histories: seq<seq<u64>>, calls: seq<Call>): seq<bool>
    requires |histories| == MAX_ACCOUNTS
    decreases |calls|
  {
    if calls == [] then []
    else [Reference(histories, calls[0]).0] + ReferenceDecisions(Reference(histories, calls[0]).1, calls[1..])
  }

  ghost predicate Follows(trackers: seq<Tracker>, histories: seq<seq<u64>>, now: u64) {
    && AllFormed(trackers) && |histories| == MAX_ACCOUNTS
    && (forall a :: 0 <= a < MAX_ACCOUNTS ==> Tracks(trackers[a], histories[a]))
    && (forall a :: 0 <= a < MAX_ACCOUNTS ==> Past(histories[a], now))
  }

  ghost predicate Past(history: seq<u64>, now: u64) {
    history != [] ==> history[|history| - 1] <= now
  }

  ghost predicate Timely(calls: seq<Call>, start: u64) {
    && (forall i :: 0 <= i < |calls| ==> start <= calls[i].now)
    && (forall i, j :: 0 <= i < j < |calls| ==> calls[i].now <= calls[j].now)
  }

  lemma StepFollows(trackers: seq<Tracker>, histories: seq<seq<u64>>, start: u64, call: Call)
    requires Follows(trackers, histories, start) && start <= call.now && call.limit <= WINDOW_SIZE
    ensures CheckRate(trackers, call).0 == Reference(histories, call).0
    ensures Follows(CheckRate(trackers, call).1, Reference(histories, call).1, call.now)
  {
    hide Tracks, Check, InWindow;
    var a := Slot(call.account);
    if call.limit > 0 {
      CheckAgrees(trackers[a], histories[a], call.now, call.limit);
    }
  }

  /** For messages in time order and any limits up to 100, changing from call to call as they may, the
      limiter accepts exactly the messages the reference does. */
  lemma {:induction false} EveryRunAgrees(trackers: seq<Tracker>, histories: seq<seq<u64>>, start: u64,
                                          calls: seq<Call>)
    requires Follows(trackers, histories, start) && Timely(calls, start)
    requires forall i :: 0 <= i < |calls| ==> calls[i].limit <= WINDOW_SIZE
    ensures Decisions(trackers, calls) == ReferenceDecisions(histories, calls)
    decreases |calls|
  {
    hide Follows, CheckRate, Reference;
    FollowsFormed(trackers, histories, start);
    if calls != [] {
      StepFollows(trackers, histories, start, calls[0]);
      FollowsFormed(CheckRate(trackers, calls[0]).1, Reference(histories, calls[0]).1, calls[0].now);
      EveryRunAgrees(CheckRate(trackers, calls[0]).1, Reference(histories, calls[0]).1, calls[0].now, calls[1..]);
    }
  }

  lemma FollowsFormed(trackers: seq<Tracker>, histories: seq<seq<u64>>, start: u64)
    requires Follows(trackers, histories, start)
    ensures AllFormed(trackers) && |histories| == MAX_ACCOUNTS
  {
  }

  /** After a reset the limiter follows the reference with empty histories. */
  lemma ResetFollows()
    ensures Follows(FreshTrackers(), NoHistories(), 0)
  {
  }

  // ----- the window and the accounts in plain terms

  /** The positions of the acceptances less than a thousand million nanoseconds back. */
  ghost function LastSecond(history: seq<u64>, now: u64): set<int> {
    set i | 0 <= i < |history| && now - history[i] < 1000000000
  }

  lemma LastSecondStep(history: seq<u64>, now: u64)
    requires history != []
    ensures var n := |history| - 1; var before := LastSecond(history[..n], now);
            n !in before && LastSecond(history, now) == if now - history[n] < 1000000000 then before + {n} else before
  {
  }

  /** The reference counts exactly those. */
  lemma {:induction false} WindowMeans(history: seq<u64>, now: u64)
    ensures InWindow(history, now) == |LastSecond(history, now)|
  {
    if history != [] {
      LastSecondStep(history, now);
      hide LastSecond;
      WindowMeans(history[..|history| - 1], now);
    }
  }

  /** The reference accepts a message when there is no limit, or fewer than the limit were accepted for the
      account in the last second; only an acceptance under a limit is recorded. */
  lemma ReferenceMeans(histories: seq<seq<u64>>, call: Call)
    requires |histories| == 1024 && call.account < 1024
    ensures var h, r := histories[call.account], Reference(histories, call);
            && (r.0 <==> call.limit == 0 || |LastSecond(h, call.now)| < call.limit)
            && r.1 == (if call.limit > 0 && r.0 then histories[call.account := h + [call.now]] else histories)
  {
    WindowMeans(histories[call.account], call.now);
  }

  /** The messages of one account. */
  ghost function Own(calls: seq<Call>, account: u32): seq<Call>
    decreases |calls|
  {
    if calls == [] then []
    else (if calls[0].account == account then [calls[0]] else []) + Own(calls[1..], account)
  }

  /** The decisions on them, in a run of messages of all accounts. */
  ghost function OwnDecisions(trackers: seq<Tracker>, calls: seq<Call>, account: u32): seq<bool>
    requires AllFormed(trackers)
    decreases |calls|
  {
    if calls == [] then []
    else
      var checked := CheckRate(trackers, calls[0]);
      (if calls[0].account == account then [checked.0] else []) + OwnDecisions(checked.1, calls[1..], account)
  }

  ghost predicate Below1024(calls: seq<Call>) {
    forall i :: 0 <= i < |calls| ==> calls[i].account < 1024
  }

  lemma SameTracker(trackers: seq<Tracker>, others: seq<Tracker>, call: Call)
    requires AllFormed(trackers) && AllFormed(others) && call.account < 1024
    requires trackers[call.account] == others[call.account]
    ensures CheckRate(trackers, call).0 == CheckRate(others, call).0
    ensures CheckRate(trackers, call).1[call.account] == CheckRate(others, call).1[call.account]
  {
  }

  lemma OtherTracker(trackers: seq<Tracker>, call: Call, account: u32)
    requires AllFormed(trackers) && call.account < 1024 && account < 1024 && call.account != account
    ensures CheckRate(trackers, call).1[account] == trackers[account]
  {
  }

  /** Accounts below 1024 do not affect each other: the decisions on one account's messages are those of a
      run of its messages alone. */
  lemma {:induction false} AccountsApart(trackers: seq<Tracker>, others: seq<Tracker>, calls: seq<Call>, account: u32)
    requires AllFormed(trackers) && AllFormed(others) && account < 1024 && Below1024(calls)
    requires trackers[account] == others[account]
    ensures OwnDecisions(trackers, calls, account) == Decisions(others, Own(calls, account))
    decreases |calls|
  {
    hide CheckRate, AllFormed;
    if calls != [] {
      var call, rest := calls[0], calls[1..];
      if call.account == account {
        SameTracker(trackers, others, call);
        AccountsApart(CheckRate(trackers, call).1, CheckRate(others, call).1, rest, account);
        assert ([call] + Own(rest, account))[1..] == Own(rest, account);
      } else {
        OtherTracker(trackers, call, account);
        AccountsApart(CheckRate(trackers, call).1, others, rest, account);
        assert [] + Own(rest, account) == Own(rest, account);
      }
    }
  }

  // ----- limits above the ring

  ghost predicate Constant(calls: seq<Call>, limit: u32) {
    forall i :: 0 <= i < |calls| ==> calls[i].limit == limit
  }

  ghost function FreshTrackers(): seq<Tracker> {
    seq(MAX_ACCOUNTS, _ => FRESH)
  }

  ghost function NoHistories(): seq<seq<u64>> {
    seq(MAX_ACCOUNTS, _ => [])
  }

  /** From a reset, every run of timely messages under this limit gets the reference's decisions. */
  ghost predicate ExactFor(limit: u32) {
    AllFormed(FreshTrackers()) && forall calls: seq<Call> :: Timely(calls, 0) && Constant(calls, limit) ==>
      Decisions(FreshTrackers(), calls) == ReferenceDecisions(NoHistories(), calls)
  }

  /** All but a hundred of `limit` messages at time zero, and then a hundred and one a second later. */
  ghost function Burst(limit: u32): seq<Call>
    requires limit > WINDOW_SIZE
  {
    seq(limit + 1, i => Call(0, BurstTime(limit, i), limit))
  }

  ghost function BurstTime(limit: u32, i: int): u64 {
    if i < limit - WINDOW_SIZE then 0 else SECOND
  }

  ghost function Times(limit: u32, n: nat): seq<u64> {
    seq(n, i => BurstTime(limit, i))
  }

  /** After the first `n` messages of the burst, all accepted on both sides. */
  ghost predicate Filling(trackers: seq<Tracker>, histories: seq<seq<u64>>, limit: u32, n: nat) {
    && AllFormed(trackers) && |histories| == MAX_ACCOUNTS && n <= limit
    && histories[0] == Times(limit, n)
    && trackers[0].count == n && trackers[0].index == n % WINDOW_SIZE && RingHolds(trackers[0].timestamps, histories[0])
  }

  lemma FillOne(trackers: seq<Tracker>, histories: seq<seq<u64>>, limit: u32, n: nat)
    requires limit > WINDOW_SIZE && Filling(trackers, histories, limit, n) && n < limit
    ensures var call := Burst(limit)[n];
            && CheckRate(trackers, call).0 && Reference(histories, call).0
            && Filling(CheckRate(trackers, call).1, Reference(histories, call).1, limit, n + 1)
  {
    hide InWindow, RingHolds;
    var now := BurstTime(limit, n);
    InWindowSize(histories[0], now);
    RingRecords(trackers[0].timestamps, histories[0], now);
    IndexOn(n);
    assert Times(limit, n) + [now] == Times(limit, n + 1);
  }

  /** The last message of the burst: only the hundred before it lie in the window, but every slot of the
      ring holds one of them. */
  lemma LastRefused(trackers: seq<Tracker>, histories: seq<seq<u64>>, limit: u32)
    requires limit > WINDOW_SIZE && Filling(trackers, histories, limit, limit)
    ensures !CheckRate(trackers, Burst(limit)[limit]).0 && Reference(histories, Burst(limit)[limit]).0
  {
    hide InWindow;
    BurstWindow(limit, WINDOW_SIZE);
    var ring := trackers[0].timestamps;
    var slot := OldestSlot(trackers[0].index, limit);
    SlotRecent(ring, histories[0], limit, slot);
  }

  lemma SlotRecent(ring: seq<u64>, history: seq<u64>, limit: u32, slot: nat)
    requires limit > WINDOW_SIZE && history == Times(limit, limit) && RingHolds(ring, history) && slot < WINDOW_SIZE
    ensures ring[slot] == SECOND
  {
    var base := limit - WINDOW_SIZE;
    var k := base + (slot + WINDOW_SIZE - base % WINDOW_SIZE) % WINDOW_SIZE;
    assert k % WINDOW_SIZE == slot;
    assert ring[k % WINDOW_SIZE] == history[k];
  }

  lemma {:induction false} BurstWindow(limit: u32, m: nat)
    requires limit > WINDOW_SIZE && m <= WINDOW_SIZE
    ensures InWindow(Times(limit, limit - WINDOW_SIZE + m), SECOND) == m
    decreases m
  {
    var h := Times(limit, limit - WINDOW_SIZE + m);
    if m == 0 {
      NoneRecent(h, SECOND, 0);
    } else {
      assert h[..|h| - 1] == Times(limit, limit - WINDOW_SIZE + (m - 1));
      BurstWindow(limit, m - 1);
    }
  }

  lemma {:induction false} BurstDiverges(trackers: seq<Tracker>, histories: seq<seq<u64>>, limit: u32, n: nat)
    requires limit > WINDOW_SIZE && Filling(trackers, histories, limit, n)
    ensures Decisions(trackers, Burst(limit)[n..]) != ReferenceDecisions(histories, Burst(limit)[n..])
    decreases limit - n
  {
    var calls := Burst(limit)[n..];
    var call := Burst(limit)[n];
    assert calls[0] == call;
    assert n < limit ==> calls[1..] == Burst(limit)[n + 1..];
    hide CheckRate, Reference, Burst;
    Decided(trackers, histories, calls);
    var t, h := CheckRate(trackers, call).1, Reference(histories, call).1;
    hide Decisions, ReferenceDecisions;
    if n == limit {
      LastRefused(trackers, histories, limit);
      assert Decisions(trackers, calls)[0] != ReferenceDecisions(histories, calls)[0];
    } else {
      FillOne(trackers, histories, limit, n);
      hide Filling;
      BurstDiverges(t, h, limit, n + 1);
      var x, y := Decisions(t, calls[1..]), ReferenceDecisions(h, calls[1..]);
      assert ([true] + x)[1..] == x && ([true] + y)[1..] == y;
    }
  }

  lemma Decided(trackers: seq<Tracker>, histories: seq<seq<u64>>, calls: seq<Call>)
    requires AllFormed(trackers) && |histories| == MAX_ACCOUNTS && calls != []
    ensures Decisions(trackers, calls) == [CheckRate(trackers, calls[0]).0] +
            Decisions(CheckRate(trackers, calls[0]).1, calls[1..])
    ensures ReferenceDecisions(histories, calls) ==
            [Reference(histories, calls[0]).0] + ReferenceDecisions(Reference(histories, calls[0]).1, calls[1..])
  {
  }

  lemma BurstTimely(limit: u32)
    requires limit > WINDOW_SIZE
    ensures Timely(Burst(limit), 0) && Constant(Burst(limit), limit)
    ensures Filling(FreshTrackers(), NoHistories(), limit, 0)
  {
  }

  /** The limiter is exact over every run under a constant limit exactly when the limit fits the ring;
      above a hundred it looks at a slot that newer acceptances have overwritten. */
  lemma ExactIff(limit: u32)
    ensures ExactFor(limit) <==> limit <= 100
  {
    hide Decisions, ReferenceDecisions, Timely;
    ResetFollows();
    FollowsFormed(FreshTrackers(), NoHistories(), 0);
    if limit <= WINDOW_SIZE {
      forall calls: seq<Call> | Timely(calls, 0) && Constant(calls, limit)
        ensures Decisions(FreshTrackers(), calls) == ReferenceDecisions(NoHistories(), calls)
      {
        EveryRunAgrees(FreshTrackers(), NoHistories(), 0, calls);
      }
    } else {
      BurstTimely(limit);
      BurstDiverges(FreshTrackers(), NoHistories(), limit, 0);
      assert Burst(limit)[0..] == Burst(limit);
    }
  }
}
