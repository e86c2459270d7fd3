/** The multi-producer queue on 64-bit positions that wrap around: when the wrap is harmless, and a run in
    which it is not. */
module MpscWrap {
  import opened Domain
  import opened Laps
  import opened MpscQueue

  const TWO_63: int := 0x8000_0000_0000_0000

  // ----- the queue as the code runs it

  /** `static_cast<intptr_t>(seq) - static_cast<intptr_t>(pos)`. */
  function Diff(seqNo: int, pos: int): int {
    var d := Wrap64(seqNo - pos);
    if d < TWO_63 then d else d - TWO_64
  }

  predicate Enabled64<T>(s: State<T>, a: Action<T>)
    requires |s.cells| > 0
  {
    match a
    case Claim(p) =>
      p < |s.producers| && s.producers[p].Seen? && Diff(s.producers[p].seqNo, s.producers[p].pos) == 0 &&
      s.writeIdx == s.producers[p].pos
    case ClaimFails(p) =>
      p < |s.producers| && s.producers[p].Seen? && Diff(s.producers[p].seqNo, s.producers[p].pos) == 0
    case GiveUp(p) => p < |s.producers| && s.producers[p].Seen? && Diff(s.producers[p].seqNo, s.producers[p].pos) < 0
    case Retry(p) => p < |s.producers| && s.producers[p].Seen? && Diff(s.producers[p].seqNo, s.producers[p].pos) > 0
    case PopClaim => s.consumer.PopSeen? && Diff(s.consumer.seqNo, Wrap64(s.consumer.pos + 1)) == 0 &&
    s.readIdx == s.consumer.pos
    case PopClaimFails => s.consumer.PopSeen? && Diff(s.consumer.seqNo, Wrap64(s.consumer.pos + 1)) == 0
    case PopEmpty => s.consumer.PopSeen? && Diff(s.consumer.seqNo, Wrap64(s.consumer.pos + 1)) < 0
    case PopRetry => s.consumer.PopSeen? && Diff(s.consumer.seqNo, Wrap64(s.consumer.pos + 1)) > 0
    case _ => Enabled(s, a)
  }

  function Apply64<T>(s: State<T>, a: Action<T>): State<T>
    requires |s.cells| > 0 && Enabled64(s, a)
  {
    match a
    case Claim(p) =>
      var q := s.producers[p];
      s.(writeIdx := Wrap64(q.pos + 1), producers := s.producers[p := Claimed(q.value, q.pos)],
         tickets := s.tickets + [Ticket(p, q.value)])
    case ClaimFails(p) => s.(producers := s.producers[p := Loaded(s.producers[p].value, s.writeIdx)])
    case GiveUp(p) => s.(producers := s.producers[p := Idle])
    case Retry(p) => s.(producers := s.producers[p := Loaded(s.producers[p].value, s.writeIdx)])
    case Publish(p) =>
      var q, c := s.producers[p], CellOf(s, s.producers[p].pos);
      s.(cells := s.cells[c := s.cells[c].(seqNo := Wrap64(q.pos + 1))], producers := s.producers[p := Idle])
    case PopClaim => s.(readIdx := Wrap64(s.consumer.pos + 1), consumer := PopClaimed(s.consumer.pos))
    case PopClaimFails => s.(consumer := PopLoaded(s.readIdx))
    case PopEmpty => s.(consumer := Rest)
    case PopRetry => s.(consumer := PopLoaded(s.readIdx))
    case PopRelease =>
      var c := CellOf(s, s.consumer.pos);
      s.(cells := s.cells[c := s.cells[c].(seqNo := Wrap64(s.consumer.pos + |s.cells|))], consumer := Rest,
         popped := s.popped + [s.consumer.data])
    case _ => Apply(s, a)
  }

  ghost predicate Fires64<T(!new)>(s: State<T>, actions: seq<Action<T>>)
    requires |s.cells| > 0
    decreases |actions|, 0
  {
    actions != [] ==>
      var rest, last := actions[..|actions| - 1], actions[|actions| - 1];
      Fires64(s, rest) && Enabled64(After64(s, rest), last)
  }

  ghost function After64<T(!new)>(s: State<T>, actions: seq<Action<T>>): (r: State<T>)
    requires |s.cells| > 0 && Fires64(s, actions)
    ensures |r.cells| == |s.cells|
    decreases |actions|, 1
  {
    if actions == [] then s else Apply64(After64(s, actions[..|actions| - 1]), actions[|actions| - 1])
  }

  // ----- what 64 bits keep of a state

  function WrapCell<T>(c: Cell<T>): Cell<T> {
    c.(seqNo := Wrap64(c.seqNo))
  }

  function WrapProducer<T>(q: Producer<T>): Producer<T> {
    match q
    case Idle => Idle
    case Loaded(value, pos) => Loaded(value, Wrap64(pos))
    case Seen(value, pos, seqNo) => Seen(value, Wrap64(pos), Wrap64(seqNo))
    case Claimed(value, pos) => Claimed(value, Wrap64(pos))
    case Stored(value, pos) => Stored(value, Wrap64(pos))
  }

  function WrapConsumer<T>(c: Consumer<T>): Consumer<T> {
    match c
    case Rest => Rest
    case PopLoaded(pos) => PopLoaded(Wrap64(pos))
    case PopSeen(pos, seqNo) => PopSeen(Wrap64(pos), Wrap64(seqNo))
    case PopClaimed(pos) => PopClaimed(Wrap64(pos))
    case PopRead(pos, data) => PopRead(Wrap64(pos), data)
  }

  function WrapState<T>(s: State<T>): (r: State<T>)
    ensures |r.cells| == |s.cells| && |r.producers| == |s.producers|
  {
    s.(cells := seq(|s.cells|, i requires 0 <= i < |s.cells| => WrapCell(s.cells[i])),
       writeIdx := Wrap64(s.writeIdx), readIdx := Wrap64(s.readIdx),
       producers := seq(|s.producers|, i requires 0 <= i < |s.producers| => WrapProducer(s.producers[i])),
       consumer := WrapConsumer(s.consumer))
  }

  lemma WrapProducers<T(!new)>(s: State<T>, p: nat, q: Producer<T>)
    requires p < |s.producers|
    ensures WrapState(s).producers[p := WrapProducer(q)] == WrapState(s.(producers := s.producers[p := q])).producers
  {
    hide WrapProducer;
  }

  lemma WrapCells<T(!new)>(s: State<T>, c: nat, x: Cell<T>)
    requires c < |s.cells|
    ensures WrapState(s).cells[c := WrapCell(x)] == WrapState(s.(cells := s.cells[c := x])).cells
  {
    hide WrapCell;
  }

  // ----- what a load sees is near

  /** A loaded sequence is at most a lap below its position, and the consumer's is at it or one above. */
  ghost predicate LoadsNear<T(!new)>(s: State<T>) {
    && (forall p :: 0 <= p < |s.producers| ==> SeenLow(s.producers[p], |s.cells|))
    && (s.consumer.PopSeen? ==> s.consumer.pos <= s.consumer.seqNo <= s.consumer.pos + 1)
  }

  ghost predicate SeenLow<T(!new)>(q: Producer<T>, n: nat) {
    q.Seen? ==> q.seqNo >= q.pos - n
  }

  lemma LoadLow<T(!new)>(s: State<T>, pos: int)
    requires Inv(s) && 0 <= pos <= s.writeIdx
    ensures s.cells[CellOf(s, pos)].seqNo >= pos - |s.cells|
  {
    var t := SlotInLap(Released(s), pos, |s.cells|);
    assert SeqAt(s, t);
  }

  lemma NearKeeps<T(!new)>(s: State<T>, a: Action<T>)
    requires Inv(s) && LoadsNear(s) && Enabled(s, a)
    ensures LoadsNear(Apply(s, a))
  {
    hide CellsOk, PoppedOk, SeenLow;
    match a {
      case LoadSeq(p) =>
        assert ProducerOk(s, p);
        LoadLow(s, s.producers[p].pos);
        var q := s.producers[p];
        LowIs(Seen(q.value, q.pos, s.cells[CellOf(s, q.pos)].seqNo), |s.cells|);
      case Begin(p, value) => NotSeen(Loaded(value, s.writeIdx), |s.cells|);
      case Claim(p) => NotSeen(Claimed(s.producers[p].value, s.producers[p].pos), |s.cells|);
      case ClaimFails(p) => NotSeen(Loaded(s.producers[p].value, s.writeIdx), |s.cells|);
      case GiveUp(p) => NotSeen<T>(Idle, |s.cells|);
      case Retry(p) => NotSeen(Loaded(s.producers[p].value, s.writeIdx), |s.cells|);
      case Store(p) => NotSeen(Stored(s.producers[p].value, s.producers[p].pos), |s.cells|);
      case Publish(p) => NotSeen<T>(Idle, |s.cells|);
      case PopLoadSeq => PopLoadNear(s);
      case _ =>
    }
  }

  lemma LowIs<T(!new)>(q: Producer<T>, n: nat)
    requires q.Seen? && q.seqNo >= q.pos - n
    ensures SeenLow(q, n)
  {
  }

  lemma NotSeen<T(!new)>(q: Producer<T>, n: nat)
    requires !q.Seen?
    ensures SeenLow(q, n)
  {
  }

  lemma PopLoadNear<T(!new)>(s: State<T>)
    requires Inv(s) && Enabled(s, PopLoadSeq)
    ensures s.consumer.pos <= s.cells[CellOf(s, s.consumer.pos)].seqNo <= s.consumer.pos + 1
  {
    PopSeenMeans(s);
    assert SeqAt(s, s.readIdx);
  }

  // ----- the condition

  /** No push is overtaken by 2^63 others between loading its position and seeing the cell, nor by 2^64
      between seeing the cell free and claiming it. */
  ghost predicate Recent<T(!new)>(s: State<T>) {
    forall p :: 0 <= p < |s.producers| ==> RecentPush(s.producers[p], s.writeIdx)
  }

  ghost predicate RecentPush<T(!new)>(q: Producer<T>, writeIdx: int) {
    q.Seen? ==> q.seqNo - q.pos < TWO_63 && (q.seqNo == q.pos ==> writeIdx - q.pos < TWO_64)
  }

  lemma DiffIs(seqNo: int, pos: int)
    requires -TWO_63 <= seqNo - pos < TWO_63
    ensures Diff(Wrap64(seqNo), Wrap64(pos)) == seqNo - pos
  {
  }

  lemma SameWrap(x: int, y: int)
    requires 0 <= x - y < TWO_64
    ensures Wrap64(x) == Wrap64(y) <==> x == y
  {
  }

  /** The states the simulation goes through. */
  ghost predicate Good<T(!new)>(s: State<T>) {
    Inv(s) && LoadsNear(s) && Capacity(|s.cells|) && Recent(s)
  }

  /** What a producer that has seen its cell may do next is the same on 64 bits. */
  lemma SeenAgree<T(!new)>(s: State<T>, p: nat)
    requires Good(s) && p < |s.producers| && s.producers[p].Seen?
    ensures var q, w := s.producers[p], WrapState(s);
            && w.producers[p] == Seen(q.value, Wrap64(q.pos), Wrap64(q.seqNo))
            && Diff(w.producers[p].seqNo, w.producers[p].pos) == q.seqNo - q.pos
            && (q.seqNo == q.pos ==> (w.writeIdx == w.producers[p].pos <==> s.writeIdx == q.pos))
  {
    var q := s.producers[p];
    assert ProducerOk(s, p) && SeenLow(q, |s.cells|) && RecentPush(q, s.writeIdx);
    DiffIs(q.seqNo, q.pos);
    if q.seqNo == q.pos {
      SameWrap(s.writeIdx, q.pos);
    }
  }

  lemma PopAgree<T(!new)>(s: State<T>)
    requires Good(s) && s.consumer.PopSeen?
    ensures var c, w := s.consumer, WrapState(s);
            && Diff(w.consumer.seqNo, Wrap64(w.consumer.pos + 1)) == c.seqNo - (c.pos + 1)
            && w.readIdx == w.consumer.pos && s.readIdx == c.pos
  {
    var c := s.consumer;
    WrapAdd(c.pos, 1);
    DiffIs(c.seqNo, c.pos + 1);
  }

  lemma EnabledAgree<T(!new)>(s: State<T>, a: Action<T>)
    requires Good(s)
    ensures Enabled64(WrapState(s), a) <==> Enabled(s, a)
  {
    hide Good, Diff, Inv, WrapState, Wrap64;
    GoodCells(s);
    WrapShape(s);
    match a {
      case Claim(p) => if p < |s.producers| && s.producers[p].Seen? { SeenAgree(s, p); }
      case ClaimFails(p) => if p < |s.producers| && s.producers[p].Seen? { SeenAgree(s, p); }
      case GiveUp(p) => if p < |s.producers| && s.producers[p].Seen? { SeenAgree(s, p); }
      case Retry(p) => if p < |s.producers| && s.producers[p].Seen? { SeenAgree(s, p); }
      case PopClaim => if s.consumer.PopSeen? { PopAgree(s); }
      case PopClaimFails => if s.consumer.PopSeen? { PopAgree(s); }
      case PopEmpty => if s.consumer.PopSeen? { PopAgree(s); }
      case PopRetry => if s.consumer.PopSeen? { PopAgree(s); }
      case _ =>
    }
  }

  lemma GoodCells<T(!new)>(s: State<T>)
    requires Good(s)
    ensures |s.cells| > 0
  {
  }

  /** Wrapping changes no thread's stage. */
  lemma WrapShape<T(!new)>(s: State<T>)
    ensures var w := WrapState(s);
            && (forall p :: 0 <= p < |s.producers| ==> w.producers[p] == WrapProducer(s.producers[p]))
            && w.consumer == WrapConsumer(s.consumer)
  {
    hide WrapProducer, WrapConsumer;
  }

  // ----- one action

  lemma SlotAgree<T(!new)>(s: State<T>, pos: int)
    requires Capacity(|s.cells|) && pos >= 0
    ensures CellOf(WrapState(s), Wrap64(pos)) == CellOf(s, pos)
  {
    SlotOf(pos, |s.cells|);
  }

  /** Only a producer moves. */
  lemma ProducerAgree<T(!new)>(s: State<T>, p: nat, q: Producer<T>)
    requires p < |s.producers|
    ensures var w := WrapState(s);
            w.(producers := w.producers[p := WrapProducer(q)]) == WrapState(s.(producers := s.producers[p := q]))
  {
    hide WrapProducer, WrapConsumer;
    WrapProducers(s, p, q);
  }

  /** A producer and a cell change. */
  lemma CellAgree<T(!new)>(s: State<T>, p: nat, q: Producer<T>, c: nat, x: Cell<T>)
    requires p < |s.producers| && c < |s.cells|
    ensures var w := WrapState(s);
            w.(cells := w.cells[c := WrapCell(x)], producers := w.producers[p := WrapProducer(q)])
            == WrapState(s.(cells := s.cells[c := x], producers := s.producers[p := q]))
  {
    hide WrapProducer, WrapConsumer, WrapCell;
    WrapProducers(s, p, q);
    WrapCells(s, c, x);
  }

  lemma LoadAgree<T(!new)>(s: State<T>, p: nat)
    requires Good(s) && Enabled(s, LoadSeq(p)) && Enabled64(WrapState(s), LoadSeq(p))
    ensures Apply64(WrapState(s), LoadSeq(p)) == WrapState(Apply(s, LoadSeq(p)))
  {
    var q := s.producers[p];
    assert ProducerOk(s, p);
    SlotAgree(s, q.pos);
    ProducerAgree(s, p, Seen(q.value, q.pos, s.cells[CellOf(s, q.pos)].seqNo));
  }

  lemma ClaimAgree<T(!new)>(s: State<T>, p: nat)
    requires Good(s) && Enabled(s, Claim(p)) && Enabled64(WrapState(s), Claim(p))
    ensures Apply64(WrapState(s), Claim(p)) == WrapState(Apply(s, Claim(p)))
  {
    hide Good, Inv, Diff;
    var q := s.producers[p];
    WrapAdd(q.pos, 1);
    ProducerAgree(s, p, Claimed(q.value, q.pos));
  }

  lemma StoreAgree<T(!new)>(s: State<T>, p: nat)
    requires Good(s) && Enabled(s, Store(p)) && Enabled64(WrapState(s), Store(p))
    ensures Apply64(WrapState(s), Store(p)) == WrapState(Apply(s, Store(p)))
  {
    var q := s.producers[p];
    assert ProducerOk(s, p);
    SlotAgree(s, q.pos);
    var c := CellOf(s, q.pos);
    CellAgree(s, p, Stored(q.value, q.pos), c, s.cells[c].(data := Some(q.value)));
  }

  lemma PublishAgree<T(!new)>(s: State<T>, p: nat)
    requires Good(s) && Enabled(s, Publish(p)) && Enabled64(WrapState(s), Publish(p))
    ensures Apply64(WrapState(s), Publish(p)) == WrapState(Apply(s, Publish(p)))
  {
    var q := s.producers[p];
    assert ProducerOk(s, p);
    SlotAgree(s, q.pos);
    WrapAdd(q.pos, 1);
    var c := CellOf(s, q.pos);
    CellAgree(s, p, Idle, c, s.cells[c].(seqNo := q.pos + 1));
  }

  lemma ConsumerAgree<T(!new)>(s: State<T>, a: Action<T>)
    requires Good(s) && Enabled(s, a) && Enabled64(WrapState(s), a)
    requires a.PopBegin? || a.PopLoadSeq? || a.PopClaim? || a.PopClaimFails? || a.PopEmpty? || a.PopRetry? || a.PopMove?
    ensures Apply64(WrapState(s), a) == WrapState(Apply(s, a))
  {
    hide Diff;
    if a.PopLoadSeq? || a.PopMove? {
      SlotAgree(s, s.consumer.pos);
    } else if a.PopClaim? {
      WrapAdd(s.consumer.pos, 1);
    }
  }

  lemma ReleaseAgree<T(!new)>(s: State<T>)
    requires Good(s) && Enabled(s, PopRelease) && Enabled64(WrapState(s), PopRelease)
    ensures Apply64(WrapState(s), PopRelease) == WrapState(Apply(s, PopRelease))
  {
    var pos := s.consumer.pos;
    SlotAgree(s, pos);
    WrapAdd(pos, |s.cells|);
    var c := CellOf(s, pos);
    WrapCells(s, c, s.cells[c].(seqNo := pos + |s.cells|));
  }

  lemma ApplyAgree<T(!new)>(s: State<T>, a: Action<T>)
    requires Good(s) && Enabled(s, a) && Enabled64(WrapState(s), a)
    ensures Apply64(WrapState(s), a) == WrapState(Apply(s, a))
  {
    match a {
      case LoadSeq(p) => LoadAgree(s, p);
      case Claim(p) => ClaimAgree(s, p);
      case Store(p) => StoreAgree(s, p);
      case Publish(p) => PublishAgree(s, p);
      case PopRelease => ReleaseAgree(s);
      case Begin(p, value) => ProducerAgree(s, p, Loaded(value, s.writeIdx));
      case ClaimFails(p) => ProducerAgree(s, p, Loaded(s.producers[p].value, s.writeIdx));
      case GiveUp(p) => ProducerAgree(s, p, Idle);
      case Retry(p) => ProducerAgree(s, p, Loaded(s.producers[p].value, s.writeIdx));
      case _ => ConsumerAgree(s, a);
    }
  }

  // ----- every run

  /** Before every action of the run no push has been overtaken that far. */
  ghost predicate AlwaysRecent<T(!new)>(s: State<T>, actions: seq<Action<T>>)
    requires |s.cells| > 0
  {
    forall n: nat :: n < |actions| && Fires(s, actions[..n]) ==> Recent(After(s, actions[..n]))
  }

  lemma InitGood<T(!new)>(capacity: nat, threads: nat)
    requires capacity >= 2 && Capacity(capacity)
    ensures var s := Init<T>(capacity, threads); LoadsNear(s) && WrapState(s) == s
  {
  }

  lemma {:induction false} RunsAgree<T(!new)>(capacity: nat, threads: nat, actions: seq<Action<T>>)
    requires capacity >= 2 && Capacity(capacity) && AlwaysRecent(Init<T>(capacity, threads), actions)
    ensures var s := Init<T>(capacity, threads);
            && (Fires64(s, actions) <==> Fires(s, actions))
            && (Fires(s, actions) ==>
                After64(s, actions) == WrapState(After(s, actions)) && LoadsNear(After(s, actions)))
    decreases |actions|
  {
    hide Inv, LoadsNear, Recent, WrapState, HeldOk, Enabled, Apply, Enabled64, Apply64, Capacity;
    var s := Init<T>(capacity, threads);
    if actions == [] {
      InitGood<T>(capacity, threads);
    } else {
      var rest, last := actions[..|actions| - 1], actions[|actions| - 1];
      RestRecent(s, actions);
      RunsAgree<T>(capacity, threads, rest);
      if Fires(s, rest) {
        InitInv<T>(capacity, threads);
        RunKeeps(s, rest);
        var mid := After(s, rest);
        assert Good(mid);
        EnabledAgree(mid, last);
        if Enabled(mid, last) {
          ApplyAgree(mid, last);
          NearKeeps(mid, last);
        }
      }
    }
  }

  lemma RestRecent<T(!new)>(s: State<T>, actions: seq<Action<T>>)
    requires |s.cells| > 0 && actions != [] && AlwaysRecent(s, actions)
    ensures var rest := actions[..|actions| - 1]; AlwaysRecent(s, rest) && (Fires(s, rest) ==> Recent(After(s, rest)))
  {
    hide Fires, After, Recent;
    var rest := actions[..|actions| - 1];
    assert forall n: nat :: n <= |rest| ==> rest[..n] == actions[..n];
  }

  /** On 64-bit positions, with a power of two of cells, every run in which no push is overtaken that far
      is a run of the queue on unbounded positions, so nothing is lost in it. */
  lemma EveryRun64KeepsAll<T(!new)>(capacity: nat, threads: nat, actions: seq<Action<T>>)
    requires capacity >= 2 && Capacity(capacity) && AlwaysRecent(Init<T>(capacity, threads), actions)
    requires Fires64(Init<T>(capacity, threads), actions)
    ensures var s := Init<T>(capacity, threads);
            && Fires(s, actions) && After64(s, actions) == WrapState(After(s, actions))
            && NothingLost(After(s, actions))
  {
    hide WrapState, NothingLost, LoadsNear, Fires64, Fires, After, After64, AlwaysRecent;
    RunsAgree<T>(capacity, threads, actions);
    EveryRunKeepsAll<T>(capacity, threads, actions);
  }

  // ----- a push overtaken by 2^64 others

  const PUSH: seq<Action<bool>> := [Begin(0, true), LoadSeq(0), Claim(0), Store(0), Publish(0)]

  const POP: seq<Action<bool>> := [PopBegin, PopLoadSeq, PopClaim, PopMove, PopRelease]

  const TWO: State<bool> := Init(2, 2)

  /** Thread 1 still asleep, `k` pushed by thread 0 and `r` of them popped. */
  ghost predicate Dozing(w: State<bool>, k: nat, r: nat) {
    && |w.cells| == 2 && w.producers == [Idle, Seen(false, 0, 0)] && w.consumer == Rest
    && w.writeIdx == Wrap64(k) && w.readIdx == Wrap64(r)
    && w.tickets == seq(k, _ => Ticket(0, true)) && |w.popped| == r
  }

  ghost predicate Reaches(run: seq<Action<bool>>, w: State<bool>) {
    |TWO.cells| > 0 && Fires64(TWO, run) && After64(TWO, run) == w
  }

  lemma OnTo(run: seq<Action<bool>>, w: State<bool>, a: Action<bool>, w': State<bool>)
    requires Reaches(run, w) && |w.cells| > 0 && Enabled64(w, a) && Apply64(w, a) == w'
    ensures Reaches(run + [a], w')
  {
    assert (run + [a])[..|run|] == run;
  }

  lemma EvenOdd(k: nat)
    ensures Wrap64(k) % 2 == k % 2 && (k + 1) % 2 == 1 - k % 2 && (k + 2) % 2 == k % 2
    ensures Wrap64(Wrap64(k) + 1) == Wrap64(k + 1) && Wrap64(Wrap64(k) + 2) == Wrap64(k + 2)
  {
    assert Capacity(2) by {
      assert TWO_63 * 2 == TWO_64;
    }
    SlotOf(k, 2);
    WrapAdd(k, 1);
    WrapAdd(k, 2);
  }

  /** `w` with one more value pushed. */
  ghost function Pushed(w: State<bool>, k: nat): State<bool>
    requires |w.cells| == 2
  {
    w.(cells := w.cells[k % 2 := Cell(Wrap64(k + 1), Some(true))], writeIdx := Wrap64(k + 1),
       tickets := w.tickets + [Ticket(0, true)])
  }

  lemma PushRuns(run: seq<Action<bool>>, w: State<bool>, k: nat, r: nat)
    requires Reaches(run, w) && Dozing(w, k, r) && w.cells[k % 2].seqNo == Wrap64(k)
    ensures Reaches(run + PUSH, Pushed(w, k)) && Dozing(Pushed(w, k), k + 1, r)
  {
    hide Reaches, Wrap64;
    EvenOdd(k);
    var pos, doze, c := Wrap64(k), w.producers[1], k % 2;
    DiffZero(pos);
    var w1 := w.(producers := [Loaded(true, pos), doze]);
    var w2 := w.(producers := [Seen(true, pos, pos), doze]);
    var w3 := w.(producers := [Claimed(true, pos), doze], writeIdx := Wrap64(k + 1),
                 tickets := w.tickets + [Ticket(0, true)]);
    var w4 := w3.(producers := [Stored(true, pos), doze], cells := w.cells[c := w.cells[c].(data := Some(true))]);
    OnTo(run, w, Begin(0, true), w1);
    OnTo(run + [Begin(0, true)], w1, LoadSeq(0), w2);
    OnTo(run + [Begin(0, true)] + [LoadSeq(0)], w2, Claim(0), w3);
    OnTo(run + [Begin(0, true)] + [LoadSeq(0)] + [Claim(0)], w3, Store(0), w4);
    assert w4.cells[c := w4.cells[c].(seqNo := Wrap64(k + 1))] == Pushed(w, k).cells;
    OnTo(run + [Begin(0, true)] + [LoadSeq(0)] + [Claim(0)] + [Store(0)], w4, Publish(0), Pushed(w, k));
    assert run + PUSH == run + [Begin(0, true)] + [LoadSeq(0)] + [Claim(0)] + [Store(0)] + [Publish(0)];
    assert w.tickets + [Ticket(0, true)] == seq(k + 1, _ => Ticket(0, true));
  }

  lemma DiffZero(pos: u64)
    ensures Diff(pos, pos) == 0
  {
  }

  /** `w` with its oldest value popped. */
  ghost function Popped(w: State<bool>, r: nat): State<bool>
    requires |w.cells| == 2
  {
    w.(cells := w.cells[r % 2 := w.cells[r % 2].(seqNo := Wrap64(r + 2))], readIdx := Wrap64(r + 1),
       popped := w.popped + [w.cells[r % 2].data])
  }

  lemma PopRuns(run: seq<Action<bool>>, w: State<bool>, k: nat, r: nat)
    requires Reaches(run, w) && Dozing(w, k, r) && w.cells[r % 2].seqNo == Wrap64(r + 1)
    ensures Reaches(run + POP, Popped(w, r)) && Dozing(Popped(w, r), k, r + 1)
  {
    hide Reaches, Wrap64;
    EvenOdd(r);
    var pos, c := Wrap64(r), r % 2;
    DiffZero(Wrap64(r + 1));
    var w1 := w.(consumer := PopLoaded(pos));
    var w2 := w.(consumer := PopSeen(pos, Wrap64(r + 1)));
    var w3 := w.(consumer := PopClaimed(pos), readIdx := Wrap64(r + 1));
    var w4 := w3.(consumer := PopRead(pos, w.cells[c].data));
    OnTo(run, w, PopBegin, w1);
    OnTo(run + [PopBegin], w1, PopLoadSeq, w2);
    OnTo(run + [PopBegin] + [PopLoadSeq], w2, PopClaim, w3);
    OnTo(run + [PopBegin] + [PopLoadSeq] + [PopClaim], w3, PopMove, w4);
    OnTo(run + [PopBegin] + [PopLoadSeq] + [PopClaim] + [PopMove], w4, PopRelease, Popped(w, r));
    assert run + POP == run + [PopBegin] + [PopLoadSeq] + [PopClaim] + [PopMove] + [PopRelease];
  }

  /** Empty, with both cells free for the next two. */
  ghost predicate Level(w: State<bool>, k: nat) {
    Dozing(w, k, k) && w.cells[k % 2].seqNo == Wrap64(k) && w.cells[(k + 1) % 2].seqNo == Wrap64(k + 1)
  }

  lemma {:induction false} TurnsRun(n: nat) returns (run: seq<Action<bool>>, w: State<bool>)
    ensures Reaches(run, w) && Level(w, n)
  {
    if n == 0 {
      run, w := DozeRuns();
    } else {
      run, w := TurnsRun(n - 1);
      hide Reaches, Wrap64;
      EvenOdd(n - 1);
      PushRuns(run, w, n - 1, n - 1);
      PopRuns(run + PUSH, Pushed(w, n - 1), n, n - 1);
      run, w := run + PUSH + POP, Popped(Pushed(w, n - 1), n - 1);
    }
  }

  /** Thread 1 loads position 0 and sees its cell free, and then sleeps. */
  lemma DozeRuns() returns (run: seq<Action<bool>>, w: State<bool>)
    ensures Reaches(run, w) && Level(w, 0)
  {
    var s := State([Cell(0, None), Cell(1, None)], 0, 0, [Idle, Idle], Rest, [], []);
    assert TWO.cells == s.cells && TWO.producers == s.producers;
    assert Reaches([], s);
    var w1 := s.(producers := [Idle, Loaded(false, 0)]);
    w := s.(producers := [Idle, Seen(false, 0, 0)]);
    OnTo([], s, Begin(1, false), w1);
    OnTo([] + [Begin(1, false)], w1, LoadSeq(1), w);
    run := [] + [Begin(1, false)] + [LoadSeq(1)];
  }

  /** Ticket `t` is neither popped nor with its thread, and its cell holds something else. */
  ghost predicate Lost(w: State<bool>, t: nat) {
    && |w.popped| <= t < |w.tickets| && |w.cells| > 0
    && w.tickets[t].thread < |w.producers| && w.producers[w.tickets[t].thread] == Idle
    && w.cells[t % |w.cells|].data != Some(w.tickets[t].value)
  }

  /** Two cells: a push sees its cell free and sleeps while 2^64 others go by, the last two of them unread.
      It then claims the full queue's oldest cell and overwrites the value in it. */
  lemma OldClaimLoses()
    ensures exists run :: |TWO.cells| > 0 && Fires64(TWO, run) && Lost(After64(TWO, run), TWO_64 - 2)
  {
    var k := TWO_64 - 2;
    var run, w := TurnsRun(k);
    hide Reaches;
    EvenOdd(k);
    PushRuns(run, w, k, k);
    var w1 := Pushed(w, k);
    PushRuns(run + PUSH, w1, k + 1, k);
    var w2 := Pushed(w1, k + 1);
    Wakes(run + PUSH + PUSH, w2);
  }

  lemma Wakes(run: seq<Action<bool>>, w: State<bool>)
    requires Reaches(run, w) && Dozing(w, TWO_64, TWO_64 - 2)
    ensures exists more :: |TWO.cells| > 0 && Fires64(TWO, more) && Lost(After64(TWO, more), TWO_64 - 2)
  {
    var w1 := w.(writeIdx := 1, producers := [Idle, Claimed(false, 0)], tickets := w.tickets + [Ticket(1, false)]);
    var w2 := w1.(producers := [Idle, Stored(false, 0)], cells := w.cells[0 := w.cells[0].(data := Some(false))]);
    DiffZero(0);
    OnTo(run, w, Claim(1), w1);
    OnTo(run + [Claim(1)], w1, Store(1), w2);
    var t := TWO_64 - 2;
    assert t % 2 == 0 && w2.tickets[t] == Ticket(0, true);
    assert Lost(w2, t);
    assert Reaches(run + [Claim(1)] + [Store(1)], w2);
  }
}
