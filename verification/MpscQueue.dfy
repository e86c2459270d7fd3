/** The bounded multi-producer single-consumer queue as a system of threads that interleave freely,
    one atomic access per action. Positions are unbounded; a cell is addressed by position modulo
    the capacity. */
module MpscQueue {
  import opened Domain
  import opened Laps

  datatype Cell<T> = Cell(seqNo: int, data: Option<T>)

  /** Where a push stands: position loaded, cell sequence seen, position claimed, data stored. */
  datatype Producer<T> =
    | Idle
    | Loaded(value: T, pos: int)
    | Seen(value: T, pos: int, seqNo: int)
    | Claimed(value: T, pos: int)
    | Stored(value: T, pos: int)

  datatype Consumer<T> =
    | Rest
    | PopLoaded(pos: int)
    | PopSeen(pos: int, seqNo: int)
    | PopClaimed(pos: int)
    | PopRead(pos: int, data: Option<T>)

  /** A claimed position: which thread holds or held it, and for which value. */
  datatype Ticket<T> = Ticket(thread: nat, value: T)

  /** The shared queue, the threads, and two histories: tickets in claim order, values popped. */
  datatype State<T> = State(cells: seq<Cell<T>>, writeIdx: int, readIdx: int,
                            producers: seq<Producer<T>>, consumer: Consumer<T>,
                            tickets: seq<Ticket<T>>, popped: seq<Option<T>>)

  datatype Action<T> =
    | Begin(p: nat, value: T) | LoadSeq(p: nat) | Claim(p: nat) | ClaimFails(p: nat) | GiveUp(p: nat) | Retry(p: nat)
    | Store(p: nat) | Publish(p: nat)
    | PopBegin | PopLoadSeq | PopClaim | PopClaimFails | PopEmpty | PopRetry | PopMove | PopRelease

  function CellOf<T>(s: State<T>, pos: int): nat
    requires |s.cells| > 0
    ensures CellOf(s, pos) < |s.cells|
  {
    pos % |s.cells|
  }

  function Init<T>(capacity: nat, threads: nat): State<T> {
    State(seq(capacity, i => Cell(i, None)), 0, 0, seq(threads, _ => Idle), Rest, [], [])
  }

  predicate Enabled<T>(s: State<T>, a: Action<T>)
    requires |s.cells| > 0
  {
    match a
    case Begin(p, _) => p < |s.producers| && s.producers[p].Idle?
    case LoadSeq(p) => p < |s.producers| && s.producers[p].Loaded?
    case Claim(p) => p < |s.producers| && s.producers[p].Seen? && s.producers[p].seqNo == s.producers[p].pos &&
    s.writeIdx == s.producers[p].pos
    case ClaimFails(p) => p < |s.producers| && s.producers[p].Seen? && s.producers[p].seqNo == s.producers[p].pos
    case GiveUp(p) => p < |s.producers| && s.producers[p].Seen? && s.producers[p].seqNo < s.producers[p].pos
    case Retry(p) => p < |s.producers| && s.producers[p].Seen? && s.producers[p].seqNo > s.producers[p].pos
    case Store(p) => p < |s.producers| && s.producers[p].Claimed?
    case Publish(p) => p < |s.producers| && s.producers[p].Stored?
    case PopBegin => s.consumer.Rest?
    case PopLoadSeq => s.consumer.PopLoaded?
    case PopClaim => s.consumer.PopSeen? && s.consumer.seqNo == s.consumer.pos + 1 && s.readIdx == s.consumer.pos
    case PopClaimFails => s.consumer.PopSeen? && s.consumer.seqNo == s.consumer.pos + 1
    case PopEmpty => s.consumer.PopSeen? && s.consumer.seqNo < s.consumer.pos + 1
    case PopRetry => s.consumer.PopSeen? && s.consumer.seqNo > s.consumer.pos + 1
    case PopMove => s.consumer.PopClaimed?
    case PopRelease => s.consumer.PopRead?
  }

  function Apply<T>(s: State<T>, a: Action<T>): State<T>
    requires |s.cells| > 0 && Enabled(s, a)
  {
    match a
    case Begin(p, value) => s.(producers := s.producers[p := Loaded(value, s.writeIdx)])
    case LoadSeq(p) =>
      var q := s.producers[p];
      s.(producers := s.producers[p := Seen(q.value, q.pos, s.cells[CellOf(s, q.pos)].seqNo)])
    case Claim(p) =>
      var q := s.producers[p];
      s.(writeIdx := q.pos + 1, producers := s.producers[p := Claimed(q.value, q.pos)],
         tickets := s.tickets + [Ticket(p, q.value)])
    case ClaimFails(p) => s.(producers := s.producers[p := Loaded(s.producers[p].value, s.writeIdx)])
    case GiveUp(p) => s.(producers := s.producers[p := Idle])
    case Retry(p) => s.(producers := s.producers[p := Loaded(s.producers[p].value, s.writeIdx)])
    case Store(p) =>
      var q, c := s.producers[p], CellOf(s, s.producers[p].pos);
      s.(cells := s.cells[c := s.cells[c].(data := Some(q.value))],
         producers := s.producers[p := Stored(q.value, q.pos)])
    case Publish(p) =>
      var q, c := s.producers[p], CellOf(s, s.producers[p].pos);
      s.(cells := s.cells[c := s.cells[c].(seqNo := q.pos + 1)], producers := s.producers[p := Idle])
    case PopBegin => s.(consumer := PopLoaded(s.readIdx))
    case PopLoadSeq => s.(consumer := PopSeen(s.consumer.pos, s.cells[CellOf(s, s.consumer.pos)].seqNo))
    case PopClaim => s.(readIdx := s.consumer.pos + 1, consumer := PopClaimed(s.consumer.pos))
    case PopClaimFails => s.(consumer := PopLoaded(s.readIdx))
    case PopEmpty => s.(consumer := Rest)
    case PopRetry => s.(consumer := PopLoaded(s.readIdx))
    case PopMove => s.(consumer := PopRead(s.consumer.pos, s.cells[CellOf(s, s.consumer.pos)].data))
    case PopRelease =>
      var c := CellOf(s, s.consumer.pos);
      s.(cells := s.cells[c := s.cells[c].(seqNo := s.consumer.pos + |s.cells|)], consumer := Rest,
         popped := s.popped + [s.consumer.data])
  }

  // ----- invariant

  /** Positions whose cells have been released to the next lap. */
  function Released<T>(s: State<T>): int {
    if s.consumer.PopClaimed? || s.consumer.PopRead? then s.readIdx - 1 else s.readIdx
  }

  ghost predicate Window<T(!new)>(s: State<T>) {
    && |s.cells| >= 2
    && s.writeIdx == |s.tickets|
    && 0 <= Released(s) <= s.readIdx <= s.writeIdx <= Released(s) + |s.cells|
  }

  ghost predicate SeqAt<T(!new)>(s: State<T>, t: int)
    requires |s.cells| > 0
  {
    var seqNo := s.cells[CellOf(s, t)].seqNo;
    if t < s.writeIdx then seqNo == t || seqNo == t + 1 else seqNo == t
  }

  /** Ticket `t` was claimed and its value has been published to its cell. */
  ghost predicate Published<T(!new)>(s: State<T>, t: int)
    requires |s.cells| > 0
  {
    Released(s) <= t < s.writeIdx && s.cells[CellOf(s, t)].seqNo == t + 1
  }

  ghost predicate Intact<T(!new)>(s: State<T>, t: int)
    requires |s.cells| > 0 && 0 <= t < |s.tickets|
  {
    s.cells[CellOf(s, t)].data == Some(s.tickets[t].value)
  }

  ghost predicate CellsOk<T(!new)>(s: State<T>)
    requires Window(s)
  {
    && (forall t :: Released(s) <= t < Released(s) + |s.cells| ==> SeqAt(s, t))
    && (forall t :: Published(s, t) ==> Intact(s, t))
  }

  ghost predicate ProducerOk<T(!new)>(s: State<T>, p: nat)
    requires Window(s) && p < |s.producers|
  {
    match s.producers[p]
    case Idle => true
    case Loaded(_, pos) => 0 <= pos <= s.writeIdx
    case Seen(_, pos, seqNo) =>
      0 <= pos <= s.writeIdx && (seqNo == pos == s.writeIdx ==> s.writeIdx < Released(s) + |s.cells|)
    case Claimed(value, pos) =>
      Released(s) <= pos < s.writeIdx && s.cells[CellOf(s, pos)].seqNo == pos && s.tickets[pos] == Ticket(p, value)
    case Stored(value, pos) =>
      Released(s) <= pos < s.writeIdx && s.cells[CellOf(s, pos)].seqNo == pos && s.tickets[pos] == Ticket(p, value) &&
      Intact(s, pos)
  }

  ghost predicate ConsumerOk<T(!new)>(s: State<T>)
    requires Window(s)
  {
    match s.consumer
    case Rest => true
    case PopLoaded(pos) => pos == s.readIdx
    case PopSeen(pos, seqNo) => pos == s.readIdx && (seqNo == pos + 1 ==> Published(s, pos))
    case PopClaimed(pos) => pos == s.readIdx - 1 && Published(s, pos)
    case PopRead(pos, data) => pos == s.readIdx - 1 && Published(s, pos) && data == Some(s.tickets[pos].value)
  }

  /** The values popped so far are those of the first tickets, in ticket order. */
  ghost predicate PoppedOk<T(!new)>(s: State<T>)
    requires Window(s)
  {
    |s.popped| == Released(s) && forall i :: 0 <= i < |s.popped| ==> s.popped[i] == Some(s.tickets[i].value)
  }

  ghost predicate Inv<T(!new)>(s: State<T>) {
    && Window(s)
    && CellsOk(s)
    && (forall p :: 0 <= p < |s.producers| ==> ProducerOk(s, p))
    && ConsumerOk(s)
    && PoppedOk(s)
  }

  // ----- every action keeps the invariant

  /** Positions of the current lap that share a cell are equal. */
  lemma OneCell<T(!new)>(s: State<T>, t: int, u: int)
    requires Window(s) && Released(s) <= t < Released(s) + |s.cells| && Released(s) <= u < Released(s) + |s.cells|
    ensures CellOf(s, t) == CellOf(s, u) ==> t == u
  {
    if CellOf(s, t) == CellOf(s, u) {
      SameSlot(if t <= u then t else u, if t <= u then u else t, |s.cells|);
    }
  }

  lemma ProducerMoves<T(!new)>(s: State<T>, p: nat, q: Producer<T>)
    requires Inv(s) && p < |s.producers| && ProducerOk(s.(producers := s.producers[p := q]), p)
    ensures Inv(s.(producers := s.producers[p := q]))
  {
    var s' := s.(producers := s.producers[p := q]);
    forall r | 0 <= r < |s.producers|
      ensures ProducerOk(s', r)
    {
      assert ProducerOk(s, r);
    }
    forall t | Released(s') <= t < Released(s') + |s'.cells|
      ensures SeqAt(s', t)
    {
      assert SeqAt(s, t);
    }
    forall t | Published(s', t)
      ensures Intact(s', t)
    {
      assert Published(s, t);
    }
  }

  lemma ConsumerMoves<T(!new)>(s: State<T>, c: Consumer<T>)
    requires Inv(s) && Released(s.(consumer := c)) == Released(s) && ConsumerOk(s.(consumer := c))
    ensures Inv(s.(consumer := c))
  {
    var s' := s.(consumer := c);
    forall p | 0 <= p < |s.producers|
      ensures ProducerOk(s', p)
    {
      assert ProducerOk(s, p);
    }
    forall t | Released(s') <= t < Released(s') + |s'.cells|
      ensures SeqAt(s', t)
    {
      assert SeqAt(s, t);
    }
    forall t | Published(s', t)
      ensures Intact(s', t)
    {
      assert Published(s, t);
    }
  }

  /** What a loaded sequence number tells the producer: below the position exactly when the cell one
      lap back is unreleased, which then makes the queue full; equal at the write index only when
      there is room. */
  lemma SeenMeans<T(!new)>(s: State<T>, pos: int)
    requires Inv(s) && 0 <= pos <= s.writeIdx
    ensures var seqNo := s.cells[CellOf(s, pos)].seqNo;
            && (seqNo < pos <==> pos == Released(s) + |s.cells|)
            && (seqNo < pos ==> s.writeIdx == Released(s) + |s.cells|)
            && (seqNo == pos == s.writeIdx ==> s.writeIdx < Released(s) + |s.cells|)
  {
    var n, first := |s.cells|, Released(s);
    if pos < first {
      var t := SlotInLap(first, pos, n);
      assert SeqAt(s, t);
    } else if pos < first + n {
      assert SeqAt(s, pos);
    } else {
      NextLap(first, n);
      assert SeqAt(s, first);
    }
  }

  lemma ClaimKeeps<T(!new)>(s: State<T>, p: nat)
    requires Inv(s) && Enabled(s, Claim(p))
    ensures Inv(Apply(s, Claim(p)))
  {
    var s', q := Apply(s, Claim(p)), s.producers[p];
    assert ProducerOk(s, p);
    assert SeqAt(s, s.writeIdx);
    forall r | 0 <= r < |s.producers|
      ensures ProducerOk(s', r)
    {
      assert ProducerOk(s, r);
    }
    forall t | Released(s') <= t < Released(s') + |s'.cells|
      ensures SeqAt(s', t)
    {
      assert SeqAt(s, t);
    }
    forall t | Published(s', t)
      ensures Intact(s', t)
    {
      assert Published(s, t) && Intact(s, t);
    }
  }

  /** Storing the value touches no cell that holds a published, unread value. */
  lemma StoreTouches<T(!new)>(s: State<T>, p: nat, t: int)
    requires Inv(s) && Enabled(s, Store(p)) && Published(s, t)
    ensures CellOf(s, t) != CellOf(s, s.producers[p].pos)
  {
    assert ProducerOk(s, p);
    OneCell(s, t, s.producers[p].pos);
  }

  /** The same for the cells other producers have claimed. */
  lemma ClaimsDiffer<T(!new)>(s: State<T>, p: nat, r: nat)
    requires Inv(s) && p < |s.producers| && r < |s.producers| && p != r
    requires (s.producers[p].Claimed? || s.producers[p].Stored?) && (s.producers[r].Claimed? || s.producers[r].Stored?)
    ensures CellOf(s, s.producers[p].pos) != CellOf(s, s.producers[r].pos)
  {
    assert ProducerOk(s, p) && ProducerOk(s, r);
    OneCell(s, s.producers[p].pos, s.producers[r].pos);
  }

  lemma StoreKeeps<T(!new)>(s: State<T>, p: nat)
    requires Inv(s) && Enabled(s, Store(p))
    ensures Inv(Apply(s, Store(p)))
  {
    var s', q := Apply(s, Store(p)), s.producers[p];
    assert ProducerOk(s, p);
    forall r | 0 <= r < |s.producers|
      ensures ProducerOk(s', r)
    {
      assert ProducerOk(s, r);
      if r != p && s.producers[r].Stored? {
        ClaimsDiffer(s, p, r);
      }
    }
    forall t | Released(s') <= t < Released(s') + |s'.cells|
      ensures SeqAt(s', t)
    {
      assert SeqAt(s, t);
    }
    forall t | Published(s', t)
      ensures Intact(s', t)
    {
      assert Published(s, t);
      StoreTouches(s, p, t);
    }
    ConsumerStill(s, s');
  }

  /** Publishing and unpublished changes leave what the consumer relies on. */
  lemma ConsumerStill<T(!new)>(s: State<T>, s': State<T>)
    requires Inv(s) && Window(s') && s'.consumer == s.consumer && s'.readIdx == s.readIdx && s'.tickets == s.tickets
    requires |s'.cells| == |s.cells| && forall t :: Published(s, t) ==> s'.cells[CellOf(s, t)].seqNo == t + 1
    ensures ConsumerOk(s')
  {
    if s.consumer.PopSeen? || s.consumer.PopClaimed? || s.consumer.PopRead? {
      assert Published(s, s.consumer.pos) ==> Published(s', s.consumer.pos);
    }
  }

  lemma PublishKeeps<T(!new)>(s: State<T>, p: nat)
    requires Inv(s) && Enabled(s, Publish(p))
    ensures Inv(Apply(s, Publish(p)))
  {
    var s', q := Apply(s, Publish(p)), s.producers[p];
    assert ProducerOk(s, p);
    forall r | 0 <= r < |s.producers|
      ensures ProducerOk(s', r)
    {
      assert ProducerOk(s, r);
      if r != p && (s.producers[r].Claimed? || s.producers[r].Stored?) {
        ClaimsDiffer(s, p, r);
      }
    }
    forall t | Released(s') <= t < Released(s') + |s'.cells|
      ensures SeqAt(s', t)
    {
      assert SeqAt(s, t);
      OneCell(s, t, q.pos);
    }
    forall t | Published(s', t)
      ensures Intact(s', t)
    {
      OneCell(s, t, q.pos);
      assert t != q.pos ==> Published(s, t);
    }
    forall t | Published(s, t)
      ensures s'.cells[CellOf(s, t)].seqNo == t + 1
    {
      OneCell(s, t, q.pos);
    }
    ConsumerStill(s, s');
  }

  lemma PopClaimKeeps<T(!new)>(s: State<T>)
    requires Inv(s) && Enabled(s, PopClaim)
    ensures Inv(Apply(s, PopClaim))
  {
    var s' := Apply(s, PopClaim);
    forall p | 0 <= p < |s.producers|
      ensures ProducerOk(s', p)
    {
      assert ProducerOk(s, p);
    }
    forall t | Released(s') <= t < Released(s') + |s'.cells|
      ensures SeqAt(s', t)
    {
      assert SeqAt(s, t);
    }
    forall t | Published(s', t)
      ensures Intact(s', t)
    {
      assert Published(s, t);
    }
    assert Published(s', s.readIdx);
  }

  lemma ReleaseKeeps<T(!new)>(s: State<T>)
    requires Inv(s) && Enabled(s, PopRelease)
    ensures Inv(Apply(s, PopRelease))
  {
    var s', n, first := Apply(s, PopRelease), |s.cells|, Released(s);
    NextLap(first, n);
    forall p | 0 <= p < |s.producers|
      ensures ProducerOk(s', p)
    {
      assert ProducerOk(s, p);
      if s.producers[p].Claimed? || s.producers[p].Stored? {
        OneCell(s, first, s.producers[p].pos);
      }
    }
    forall t | first + 1 <= t < first + 1 + n
      ensures SeqAt(s', t)
    {
      if t < first + n {
        assert SeqAt(s, t);
        OneCell(s, first, t);
      }
    }
    forall t | Published(s', t)
      ensures Intact(s', t)
    {
      OneCell(s, first, t);
      assert Published(s, t);
    }
  }

  /** The invariant is inductive: any enabled action of any thread keeps it. */
  lemma StepKeeps<T(!new)>(s: State<T>, a: Action<T>)
    requires Inv(s) && Enabled(s, a)
    ensures Inv(Apply(s, a))
  {
    hide CellsOk, PoppedOk;
    match a {
      case Begin(p, value) => ProducerMoves(s, p, Loaded(value, s.writeIdx));
      case LoadSeq(p) =>
        var q := s.producers[p];
        assert ProducerOk(s, p);
        SeenMeans(s, q.pos);
        ProducerMoves(s, p, Seen(q.value, q.pos, s.cells[CellOf(s, q.pos)].seqNo));
      case Claim(p) => ClaimKeeps(s, p);
      case ClaimFails(p) => ProducerMoves(s, p, Loaded(s.producers[p].value, s.writeIdx));
      case GiveUp(p) => ProducerMoves(s, p, Idle);
      case Retry(p) => ProducerMoves(s, p, Loaded(s.producers[p].value, s.writeIdx));
      case Store(p) => StoreKeeps(s, p);
      case Publish(p) => PublishKeeps(s, p);
      case PopBegin => ConsumerMoves(s, PopLoaded(s.readIdx));
      case PopLoadSeq =>
        PopSeenMeans(s);
        ConsumerMoves(s, PopSeen(s.consumer.pos, s.cells[CellOf(s, s.consumer.pos)].seqNo));
      case PopClaim => PopClaimKeeps(s);
      case PopClaimFails => ConsumerMoves(s, PopLoaded(s.readIdx));
      case PopEmpty => ConsumerMoves(s, Rest);
      case PopRetry => ConsumerMoves(s, PopLoaded(s.readIdx));
      case PopMove =>
        MoveReads(s);
        ConsumerMoves(s, PopRead(s.consumer.pos, s.cells[CellOf(s, s.consumer.pos)].data));
      case PopRelease => ReleaseKeeps(s);
    }
  }

  /** What the consumer's load tells it: the next ticket is published, or else the queue looks empty. */
  lemma PopSeenMeans<T(!new)>(s: State<T>)
    requires Inv(s) && Enabled(s, PopLoadSeq)
    ensures s.consumer.pos == s.readIdx == Released(s)
    ensures var seqNo := s.cells[CellOf(s, s.readIdx)].seqNo;
            && (seqNo == s.readIdx + 1 <==> Published(s, s.readIdx))
            && (seqNo < s.readIdx + 1 <==> !Published(s, s.readIdx))
  {
    assert SeqAt(s, s.readIdx);
  }

  /** A push that has loaded its cell's sequence gives up exactly when the queue is full at that moment,
      goes on to claim exactly when its position is the next one and there is room, and otherwise only
      tries again, because its position has been taken. */
  lemma PushDecides<T(!new)>(s: State<T>, p: nat)
    requires Inv(s) && Enabled(s, LoadSeq(p))
    ensures var pos, s' := s.producers[p].pos, Apply(s, LoadSeq(p));
            && (Enabled(s', GiveUp(p)) <==> pos == s.writeIdx == Released(s) + |s.cells|)
            && (Enabled(s', Claim(p)) <==> pos == s.writeIdx < Released(s) + |s.cells|)
            && (pos < s.writeIdx <==> Enabled(s', Retry(p)) || (Enabled(s', ClaimFails(p)) && !Enabled(s', Claim(p))))
  {
    var pos := s.producers[p].pos;
    assert ProducerOk(s, p);
    SeenMeans(s, pos);
    if pos == s.writeIdx < Released(s) + |s.cells| {
      assert SeqAt(s, pos);
    }
  }

  /** A pop that has loaded its cell's sequence finds the queue empty exactly when the next ticket is not
      published at that moment, takes it exactly when it is, and never has to try again. */
  lemma PopDecides<T(!new)>(s: State<T>)
    requires Inv(s) && Enabled(s, PopLoadSeq)
    ensures var s' := Apply(s, PopLoadSeq);
            && (Enabled(s', PopEmpty) <==> !Published(s, s.readIdx))
            && (Enabled(s', PopClaim) <==> Published(s, s.readIdx))
            && !Enabled(s', PopRetry)
  {
    PopSeenMeans(s);
    assert SeqAt(s, s.readIdx);
  }

  /** A push that lost its position, or found it taken, goes on from the write index as it is then, with the
      same value; one that begins starts there. */
  lemma PushReloads<T(!new)>(s: State<T>, p: nat, value: T)
    requires |s.cells| > 0
    ensures Enabled(s, Begin(p, value)) ==> Apply(s, Begin(p, value)).producers[p] == Loaded(value, s.writeIdx)
    ensures Enabled(s, Retry(p)) ==> Apply(s, Retry(p)).producers[p] == Loaded(s.producers[p].value, s.writeIdx)
    ensures Enabled(s, ClaimFails(p)) ==>
            Apply(s, ClaimFails(p)).producers[p] == Loaded(s.producers[p].value, s.writeIdx)
    ensures Enabled(s, GiveUp(p)) ==> Apply(s, GiveUp(p)) == s.(producers := s.producers[p := Idle])
  {
  }

  lemma MoveReads<T(!new)>(s: State<T>)
    requires Inv(s) && Enabled(s, PopMove)
    ensures s.cells[CellOf(s, s.consumer.pos)].data == Some(s.tickets[s.consumer.pos].value)
  {
    assert Published(s, s.consumer.pos);
  }

  // ----- no ticket is lost

  /** The thread that claimed ticket `t` has not published it yet. */
  ghost predicate Held<T(!new)>(s: State<T>, t: int) {
    && 0 <= t < |s.tickets| && s.tickets[t].thread < |s.producers|
    && var q := s.producers[s.tickets[t].thread]; (q.Claimed? || q.Stored?) && q.pos == t
  }

  ghost predicate HeldOk<T(!new)>(s: State<T>)
    requires Window(s)
  {
    forall t :: Released(s) <= t < s.writeIdx && s.cells[CellOf(s, t)].seqNo == t ==> Held(s, t)
  }

  lemma HeldKeeps<T(!new)>(s: State<T>, a: Action<T>)
    requires Inv(s) && HeldOk(s) && Enabled(s, a)
    ensures Window(Apply(s, a)) && HeldOk(Apply(s, a))
  {
    StepKeeps(s, a);
    var s' := Apply(s, a);
    forall t | Released(s') <= t < s'.writeIdx && s'.cells[CellOf(s', t)].seqNo == t
      ensures Held(s', t)
    {
      HeldStays(s, a, t);
    }
  }

  lemma HeldStays<T(!new)>(s: State<T>, a: Action<T>, t: int)
    requires Inv(s) && HeldOk(s) && Enabled(s, a) && Inv(Apply(s, a))
    requires var s' := Apply(s, a); Released(s') <= t < s'.writeIdx && s'.cells[CellOf(s', t)].seqNo == t
    ensures Held(Apply(s, a), t)
  {
    hide CellsOk, PoppedOk, ConsumerOk;
    if a.Claim? && t == s.writeIdx {
    } else {
      HeldBefore(s, a, t);
      assert Held(s, t);
      if a.Publish? {
        assert ProducerOk(s, a.p);
      }
    }
  }

  lemma HeldBefore<T(!new)>(s: State<T>, a: Action<T>, t: int)
    requires Inv(s) && Enabled(s, a) && Inv(Apply(s, a)) && !(a.Claim? && t == s.writeIdx)
    requires var s' := Apply(s, a); Released(s') <= t < s'.writeIdx && s'.cells[CellOf(s', t)].seqNo == t
    ensures Released(s) <= t < s.writeIdx && s.cells[CellOf(s, t)].seqNo == t
    ensures a.Publish? ==> t != s.producers[a.p].pos
  {
    if a.Publish? {
      assert ProducerOk(s, a.p);
      OneCell(s, t, s.producers[a.p].pos);
    }
    if a.PopRelease? {
      OneCell(s, t, s.consumer.pos);
    }
  }

  // ----- every run

  ghost predicate Fires<T(!new)>(s: State<T>, actions: seq<Action<T>>)
    requires |s.cells| > 0
    decreases |actions|, 0
  {
    actions != [] ==>
      var rest, last := actions[..|actions| - 1], actions[|actions| - 1];
      Fires(s, rest) && Enabled(After(s, rest), last)
  }

  ghost function After<T(!new)>(s: State<T>, actions: seq<Action<T>>): (r: State<T>)
    requires |s.cells| > 0 && Fires(s, actions)
    ensures |r.cells| == |s.cells|
    decreases |actions|, 1
  {
    if actions == [] then s else Apply(After(s, actions[..|actions| - 1]), actions[|actions| - 1])
  }

  lemma InitInv<T(!new)>(capacity: nat, threads: nat)
    requires capacity >= 2
    ensures Inv(Init<T>(capacity, threads)) && HeldOk(Init<T>(capacity, threads))
  {
    var s := Init<T>(capacity, threads);
    assert Released(s) == 0;
    forall t | 0 <= t < capacity
      ensures SeqAt(s, t)
    {
      ModOf(0, capacity, t);
    }
  }

  lemma {:induction false} RunKeeps<T(!new)>(s: State<T>, actions: seq<Action<T>>)
    requires Inv(s) && HeldOk(s) && Fires(s, actions)
    ensures Inv(After(s, actions)) && HeldOk(After(s, actions))
  {
    if actions != [] {
      hide HeldOk, CellsOk, PoppedOk, ConsumerOk;
      var rest, last := actions[..|actions| - 1], actions[|actions| - 1];
      RunKeeps(s, rest);
      StepKeeps(After(s, rest), last);
      HeldKeeps(After(s, rest), last);
    }
  }

  /** Every ticket is popped, waits intact in its cell, or is still with the thread that claimed it;
      and the popped values are those of the first tickets, each once, in ticket order. */
  ghost predicate NothingLost<T(!new)>(s: State<T>)
    requires |s.cells| > 0
  {
    && |s.popped| <= |s.tickets|
    && (forall t :: 0 <= t < |s.popped| ==> s.popped[t] == Some(s.tickets[t].value))
    && (forall t :: |s.popped| <= t < |s.tickets| && !Held(s, t) ==> Intact(s, t))
  }

  /** Any number of producers and one consumer, in any interleaving. */
  lemma EveryRunKeepsAll<T(!new)>(capacity: nat, threads: nat, actions: seq<Action<T>>)
    requires capacity >= 2 && Fires(Init<T>(capacity, threads), actions)
    ensures NothingLost(After(Init<T>(capacity, threads), actions))
  {
    InitInv<T>(capacity, threads);
    RunKeeps(Init<T>(capacity, threads), actions);
    var s := After(Init<T>(capacity, threads), actions);
    forall t | |s.popped| <= t < |s.tickets| && !Held(s, t)
      ensures Intact(s, t)
    {
      assert SeqAt(s, t);
      assert Published(s, t);
    }
  }

  // ----- capacity one

  /** The run that loses a value at capacity one: push twice with nobody popping. */
  function TwoPushes(): seq<Action<bool>> {
    [Begin(0, true), LoadSeq(0), Claim(0), Store(0), Publish(0), Begin(0, false), LoadSeq(0), Claim(0), Store(0),
     Publish(0)]
  }

  /** With one cell the published and the released sequence coincide, so the second push finds the
      unread cell free and overwrites it. */
  lemma OneCellLoses()
    ensures Fires(Init<bool>(1, 1), TwoPushes()) && !NothingLost(After(Init<bool>(1, 1), TwoPushes()))
  {
    var s0, acts := Init<bool>(1, 1), TwoPushes();
    assert s0.cells == [Cell(0, None)] && s0.producers == [Idle];
    var s1 := State([Cell(1, Some(true))], 1, 0, [Idle], Rest, [Ticket(0, true)], []);
    PushAtOne(s0, acts[..0], true);
    assert acts[..0] + [Begin(0, true), LoadSeq(0), Claim(0), Store(0), Publish(0)] == acts[..5];
    PushAtOne(s0, acts[..5], false);
    assert acts[..5] + [Begin(0, false), LoadSeq(0), Claim(0), Store(0), Publish(0)] == acts;
    var s2 := After(s0, acts);
    assert !Held(s2, 0) && !Intact(s2, 0);
  }

  /** One whole push by the only thread, when the single cell's sequence equals the write index. */
  lemma PushAtOne(s0: State<bool>, acts: seq<Action<bool>>, v: bool)
    requires |s0.cells| == 1 && Fires(s0, acts)
    requires var s := After(s0, acts); s.producers == [Idle] && |s.cells| == 1 && s.cells[0].seqNo == s.writeIdx
    ensures var more := acts + [Begin(0, v), LoadSeq(0), Claim(0), Store(0), Publish(0)]; var s := After(s0, acts);
            && Fires(s0, more)
            && After(s0, more) ==
               s.(cells := [Cell(s.writeIdx + 1, Some(v))], writeIdx := s.writeIdx + 1,
                  tickets := s.tickets + [Ticket(0, v)])
  {
    hide Enabled, Apply;
    var a1, a2, a3, a4, a5 := acts + [Begin(0, v)], acts + [Begin(0, v), LoadSeq(0)],
      acts + [Begin(0, v), LoadSeq(0), Claim(0)],
      acts + [Begin(0, v), LoadSeq(0), Claim(0), Store(0)],
        acts + [Begin(0, v), LoadSeq(0), Claim(0), Store(0), Publish(0)];
    var s := After(s0, acts);
    PushSteps(s, v);
    hide Fires, After;
    OneMore(s0, acts, Begin(0, v), a1);
    OneMore(s0, a1, LoadSeq(0), a2);
    OneMore(s0, a2, Claim(0), a3);
    OneMore(s0, a3, Store(0), a4);
    OneMore(s0, a4, Publish(0), a5);
  }

  lemma PushSteps(s: State<bool>, v: bool)
    requires s.producers == [Idle] && |s.cells| == 1 && s.cells[0].seqNo == s.writeIdx
    ensures Enabled(s, Begin(0, v))
    ensures var s1 := Apply(s, Begin(0, v));
            && |s1.cells| == 1 && Enabled(s1, LoadSeq(0))
            && var s2 := Apply(s1, LoadSeq(0));
            && |s2.cells| == 1 && Enabled(s2, Claim(0))
            && var s3 := Apply(s2, Claim(0));
            && |s3.cells| == 1 && Enabled(s3, Store(0))
            && var s4 := Apply(s3, Store(0));
            && |s4.cells| == 1 && Enabled(s4, Publish(0))
            && Apply(s4, Publish(0)) ==
               s.(cells := [Cell(s.writeIdx + 1, Some(v))], writeIdx := s.writeIdx + 1,
                  tickets := s.tickets + [Ticket(0, v)])
  {
    assert CellOf(s, s.writeIdx) == 0;
    var w := s.writeIdx;
    assert Apply(s, Begin(0, v)) == s.(producers := [Loaded(v, w)]);
    var s2 := s.(producers := [Seen(v, w, w)]);
    assert Apply(s.(producers := [Loaded(v, w)]), LoadSeq(0)) == s2;
    var s3 := s.(producers := [Claimed(v, w)], writeIdx := w + 1, tickets := s.tickets + [Ticket(0, v)]);
    assert Apply(s2, Claim(0)) == s3;
    var s4 := s3.(producers := [Stored(v, w)], cells := [Cell(w, Some(v))]);
    assert Apply(s3, Store(0)) == s4;
    assert Apply(s4, Publish(0)) == s4.(producers := [Idle], cells := [Cell(w + 1, Some(v))]);
  }

  lemma OneMore<T(!new)>(s: State<T>, acts: seq<Action<T>>, a: Action<T>, more: seq<Action<T>>)
    requires |s.cells| > 0 && Fires(s, acts) && Enabled(After(s, acts), a) && more == acts + [a]
    ensures Fires(s, more) && After(s, more) == Apply(After(s, acts), a)
  {
    assert more[..|more| - 1] == acts;
  }

  /** Exactly the capacities of at least two are safe in every run; the static assertion also admits one. */
  lemma SafeCapacities(capacity: nat)
    requires capacity > 0
    ensures (forall threads: nat, actions: seq<Action<bool>> ::
               Fires(Init<bool>(capacity, threads), actions) ==>
                 NothingLost(After(Init<bool>(capacity, threads), actions)))
            <==> capacity >= 2
  {
    if capacity >= 2 {
      forall threads: nat, actions: seq<Action<bool>> | Fires(Init<bool>(capacity, threads), actions)
        ensures NothingLost(After(Init<bool>(capacity, threads), actions))
      {
        EveryRunKeepsAll(capacity, threads, actions);
      }
    } else {
      OneCellLoses();
    }
  }
}
