/**
 The send hand-off: the bounded many-producer ring and the claim that lets one thread at a
 time drain it, as a machine whose steps are the single shared-memory accesses of Push() and
 Drain(). Any number of producers and draining threads interleave; memory is sequentially
 consistent; positions are unbounded (RingPositions says when machine words agree).

 Empty() is a load of the read cursor followed by a store of what was loaded. The machine keeps
 the two apart. A run is orderly when every such store puts back what the cursor still holds; one
 draining thread, or an Empty() inside which no other thread moves the cursor, is always orderly.
 */
module SendHandoff {
  import opened Options
  import opened RingPositions

  type Item = nat

  datatype Cell = Cell(seqno: int, value: Item)

  // Where one producer stands inside Push(); each constructor names what it has just done.
  datatype Producer =
    | Idle
    | Positioned(item: Item, pos: int)
    | Looked(item: Item, pos: int, seqno: int)
    | Claimed(item: Item, pos: int)
    | Sampled(item: Item, pos: int, queued: int)
    | Stored(pos: int, queued: int)
    | Published(pos: int, queued: int)

  // Where one thread stands inside Drain(). `pos` is the position NextReadable() loaded, which names
  // the cell it returned; `at` is the cursor as ReleaseRead() loaded it again.
  datatype Drainer =
    | Away
    | Holding
    | Cursored(pos: int)
    | Readable(pos: int)
    | Moved(item: Item, pos: int)
    | Releasing(item: Item, pos: int, at: int)
    | Freed(item: Item, at: int)
    | Exhausted
    | Unclaimed
    | HeadLoaded(head: int)
    | HeadStored(head: int)
    | Nudging

  // `holder` is encoding_ together with who set it. `log`, `claimants`, `delivered` and `woken`
  // record history: what was claimed at each position and by whom, what Pop() returned, and
  // whether wake_ ran since the last winning Drain() began.
  datatype State = State(
    enq: int, deq: int, cells: seq<Cell>,
    producers: seq<Producer>, drainers: seq<Drainer>, holder: Option<nat>,
    log: seq<Item>, claimants: seq<nat>, delivered: seq<Item>, woken: bool)
  {
    predicate Sane() { 0 <= enq && 0 <= deq && |cells| > 0 }

    function Slots(): nat { |cells| }

    function At(pos: int): Cell
      requires |cells| > 0 && 0 <= pos
    {
      cells[Slot(pos, |cells|)]
    }

    function Store(pos: int, c: Cell): State
      requires |cells| > 0 && 0 <= pos
    {
      this.(cells := cells[Slot(pos, |cells|) := c])
    }

    function WithProducer(i: nat, p: Producer): State
      requires i < |producers|
    {
      this.(producers := producers[i := p])
    }

    function WithDrainer(d: nat, p: Drainer): State
      requires d < |drainers|
    {
      this.(drainers := drainers[d := p])
    }

    // Positions handed back to the producers: the read cursor, plus the one whose slot is
    // already free while its cursor store is still to come.
    function Released(): int
    {
      if holder.Some? && holder.value < |drainers| && drainers[holder.value].Freed? then deq + 1 else deq
    }
  }

  datatype Action =
    | PushBegin(i: nat, item: Item)   // load enqueue_
    | PushLook(i: nat)                // load the cell's sequence
    | PushClaim(i: nat)               // compare-exchange succeeds
    | PushRetry(i: nat)               // it fails, or the slot is ahead: reload enqueue_
    | PushRefuse(i: nat)              // the slot is behind: full
    | PushSample(i: nat)              // load dequeue_ for out_queued
    | PushStore(i: nat)               // move the value into the cell
    | PushPublish(i: nat)             // store the cell's sequence
    | PushDone(i: nat)                // wake on the idle edge, return
    | DrainWin(d: nat)                // exchange finds the claim free
    | DrainLose(d: nat)               // exchange finds it taken
    | DrainLoad(d: nat)               // NextReadable(): load dequeue_
    | DrainLook(d: nat)               // NextReadable(): load the cell's sequence
    | DrainMove(d: nat)               // move the value out
    | DrainReload(d: nat)             // ReleaseRead(): load dequeue_
    | DrainFree(d: nat)               // ReleaseRead(): store the cell's sequence
    | DrainAdvance(d: nat)            // ReleaseRead(): store dequeue_; the item goes to the encoder
    | DrainUnclaim(d: nat)            // clear the claim
    | EmptyLoad(d: nat)
    | EmptyStore(d: nat)
    | EmptyCompare(d: nat)
    | DrainWake(d: nat)

  predicate Enabled(s: State, a: Action)
  {
    s.Sane() &&
    match a
    case PushBegin(i, _) => i < |s.producers| && s.producers[i].Idle?
    case PushLook(i) => i < |s.producers| && s.producers[i].Positioned? && 0 <= s.producers[i].pos
    case PushClaim(i) => i < |s.producers| && s.producers[i].Looked?
                         && PositionVerdict(s.producers[i].seqno, s.producers[i].pos).Claim? && s.enq == s.producers[i].pos
    case PushRetry(i) => i < |s.producers| && s.producers[i].Looked?
                         && !PositionVerdict(s.producers[i].seqno, s.producers[i].pos).Full?
    case PushRefuse(i) => i < |s.producers| && s.producers[i].Looked?
                          && PositionVerdict(s.producers[i].seqno, s.producers[i].pos).Full?
    case PushSample(i) => i < |s.producers| && s.producers[i].Claimed?
    case PushStore(i) => i < |s.producers| && s.producers[i].Sampled? && 0 <= s.producers[i].pos
    case PushPublish(i) => i < |s.producers| && s.producers[i].Stored? && 0 <= s.producers[i].pos
    case PushDone(i) => i < |s.producers| && s.producers[i].Published?
    case DrainWin(d) => d < |s.drainers| && s.drainers[d].Away? && s.holder.None?
    case DrainLose(d) => d < |s.drainers| && s.drainers[d].Away? && s.holder.Some?
    case DrainLoad(d) => d < |s.drainers| && s.drainers[d].Holding?
    case DrainLook(d) => d < |s.drainers| && s.drainers[d].Cursored? && 0 <= s.drainers[d].pos
    case DrainMove(d) => d < |s.drainers| && s.drainers[d].Readable? && 0 <= s.drainers[d].pos
    case DrainReload(d) => d < |s.drainers| && s.drainers[d].Moved?
    case DrainFree(d) => d < |s.drainers| && s.drainers[d].Releasing? && 0 <= s.drainers[d].pos
    case DrainAdvance(d) => d < |s.drainers| && s.drainers[d].Freed? && 0 <= s.drainers[d].at
    case DrainUnclaim(d) => d < |s.drainers| && s.drainers[d].Exhausted?
    case EmptyLoad(d) => d < |s.drainers| && s.drainers[d].Unclaimed?
    case EmptyStore(d) => d < |s.drainers| && s.drainers[d].HeadLoaded?
    case EmptyCompare(d) => d < |s.drainers| && s.drainers[d].HeadStored?
    case DrainWake(d) => d < |s.drainers| && s.drainers[d].Nudging?
  }

  function Apply(s: State, a: Action): State
    requires Enabled(s, a)
  {
    match a
    case PushBegin(i, item) => s.WithProducer(i, Positioned(item, s.enq))
    case PushLook(i) =>
      var p := s.producers[i];
      s.WithProducer(i, Looked(p.item, p.pos, s.At(p.pos).seqno))
    case PushClaim(i) =>
      var p := s.producers[i];
      s.WithProducer(i, Claimed(p.item, p.pos)).(enq := s.enq + 1, log := s.log + [p.item], claimants := s.claimants + [i])
    case PushRetry(i) => s.WithProducer(i, Positioned(s.producers[i].item, s.enq))
    case PushRefuse(i) => s.WithProducer(i, Idle)
    case PushSample(i) =>
      var p := s.producers[i];
      s.WithProducer(i, Sampled(p.item, p.pos, p.pos - s.deq))
    case PushStore(i) =>
      var p := s.producers[i];
      s.WithProducer(i, Stored(p.pos, p.queued)).Store(p.pos, s.At(p.pos).(value := p.item))
    case PushPublish(i) =>
      var p := s.producers[i];
      s.WithProducer(i, Published(p.pos, p.queued)).Store(p.pos, s.At(p.pos).(seqno := p.pos + 1))
    case PushDone(i) => s.WithProducer(i, Idle).(woken := s.woken || s.producers[i].queued == 0)
    case DrainWin(d) => s.WithDrainer(d, Holding).(holder := Some(d), woken := false)
    case DrainLose(d) => s
    case DrainLoad(d) => s.WithDrainer(d, Cursored(s.deq))
    case DrainLook(d) =>
      var pos := s.drainers[d].pos;
      s.WithDrainer(d, if s.At(pos).seqno == pos + 1 then Readable(pos) else Exhausted)
    case DrainMove(d) =>
      var pos := s.drainers[d].pos;
      s.WithDrainer(d, Moved(s.At(pos).value, pos))
    case DrainReload(d) => s.WithDrainer(d, Releasing(s.drainers[d].item, s.drainers[d].pos, s.deq))
    case DrainFree(d) =>
      var p := s.drainers[d];
      s.WithDrainer(d, Freed(p.item, p.at)).Store(p.pos, s.At(p.pos).(seqno := p.at + s.Slots()))
    case DrainAdvance(d) =>
      s.WithDrainer(d, Holding).(deq := s.drainers[d].at + 1, delivered := s.delivered + [s.drainers[d].item])
    case DrainUnclaim(d) => s.WithDrainer(d, Unclaimed).(holder := None)
    case EmptyLoad(d) => s.WithDrainer(d, HeadLoaded(s.deq))
    case EmptyStore(d) => s.WithDrainer(d, HeadStored(s.drainers[d].head)).(deq := s.drainers[d].head)
    case EmptyCompare(d) => s.WithDrainer(d, if s.enq == s.drainers[d].head then Away else Nudging)
    case DrainWake(d) => s.WithDrainer(d, Away).(woken := true)
  }

  // Empty()'s store finds the read cursor where its load did.
  predicate Orderly(s: State, a: Action)
  {
    a.EmptyStore? && a.d < |s.drainers| && s.drainers[a.d].HeadLoaded? ==> s.drainers[a.d].head == s.deq
  }

  predicate Init(s: State)
  {
    && 2 <= |s.cells| && s.enq == 0 && s.deq == 0 && s.holder.None?
    && (forall k | 0 <= k < |s.cells| :: s.cells[k].seqno == k)
    && (forall i | 0 <= i < |s.producers| :: s.producers[i].Idle?)
    && (forall d | 0 <= d < |s.drainers| :: s.drainers[d].Away?)
    && s.log == [] && s.claimants == [] && s.delivered == [] && !s.woken
  }

  // --- The invariant -----------------------------------------------------------------------

  predicate HoldsClaim(p: Drainer)
  {
    p.Holding? || p.Cursored? || p.Readable? || p.Moved? || p.Releasing? || p.Freed? || p.Exhausted?
  }

  predicate Bounds(s: State)
  {
    && 2 <= |s.cells| && 0 <= s.deq <= s.Released() <= s.enq <= s.Released() + |s.cells|
    && |s.log| == s.enq && |s.claimants| == s.enq
    && s.delivered == s.log[..s.deq]
  }

  predicate CellOk(s: State, p: int)
    requires Bounds(s) && s.Released() <= p < s.Released() + |s.cells|
  {
    var c := s.At(p);
    if p >= s.enq then c.seqno == p
    else c.seqno == p || (c.seqno == p + 1 && c.value == s.log[p])
  }

  predicate CellsOk(s: State)
    requires Bounds(s)
  {
    forall p | s.Released() <= p < s.Released() + |s.cells| :: CellOk(s, p)
  }

  // A producer between its claim and its publish owns the cell: the cell is untouched by anyone.
  predicate ProducerOk(s: State, i: int)
    requires Bounds(s) && 0 <= i < |s.producers|
  {
    match s.producers[i]
    case Idle => true
    case Positioned(_, pos) => 0 <= pos <= s.enq
    case Looked(_, pos, seqno) =>
      0 <= pos <= s.enq && (seqno == pos == s.enq ==> s.enq < s.Released() + |s.cells|)
    case Claimed(item, pos) => Owns(s, i, pos) && item == s.log[pos]
    case Sampled(item, pos, queued) => Owns(s, i, pos) && item == s.log[pos]
    case Stored(pos, queued) => Owns(s, i, pos) && s.At(pos).value == s.log[pos]
    case Published(_, _) => true
  }

  predicate Owns(s: State, i: int, pos: int)
    requires Bounds(s)
  {
    s.Released() <= pos < s.enq && s.claimants[pos] == i && s.At(pos).seqno == pos
  }

  // A claimed position that is not readable yet still has its producer on the way.
  predicate ClaimOk(s: State, p: int)
    requires Bounds(s) && s.Released() <= p < s.enq
  {
    s.At(p).seqno == p ==> s.claimants[p] < |s.producers| && InFlight(s.producers[s.claimants[p]], p)
  }

  predicate ClaimsOk(s: State)
    requires Bounds(s)
  {
    forall p | s.Released() <= p < s.enq :: ClaimOk(s, p)
  }

  predicate InFlight(q: Producer, p: int)
  {
    (q.Claimed? || q.Sampled? || q.Stored?) && q.pos == p
  }

  predicate DrainerOk(s: State, d: int)
    requires Bounds(s) && 0 <= d < |s.drainers|
  {
    var p := s.drainers[d];
    && (HoldsClaim(p) <==> s.holder == Some(d))
    && (p.Cursored? || p.Readable? || p.Moved? || p.Releasing? ==> p.pos == s.deq)
    && (p.Releasing? || p.Freed? ==> p.at == s.deq)
    && (p.Readable? || p.Moved? || p.Releasing? ==> s.deq < s.enq && s.At(s.deq).seqno == s.deq + 1)
    && (p.Moved? || p.Releasing? || p.Freed? ==> s.deq < s.enq && p.item == s.log[s.deq])
    && (p.HeadLoaded? || p.HeadStored? ==> 0 <= p.head <= s.deq)
  }

  predicate Draining(s: State)
  {
    exists d :: 0 <= d < |s.drainers| && !s.drainers[d].Away?
  }

  // The producer of the oldest position saw an idle queue, or will when it looks.
  predicate WillWake(q: Producer, p: int)
  {
    || (q.Claimed? && q.pos == p)
    || ((q.Sampled? || q.Stored? || q.Published?) && q.pos == p && q.queued == 0)
  }

  predicate WakeOk(s: State)
    requires Bounds(s)
  {
    s.deq < s.enq ==>
      || s.woken
      || Draining(s)
      || (s.claimants[s.deq] < |s.producers| && WillWake(s.producers[s.claimants[s.deq]], s.deq))
  }

  predicate Inv(s: State)
  {
    && Bounds(s) && CellsOk(s) && ClaimsOk(s) && WakeOk(s)
    && (s.holder.Some? ==> s.holder.value < |s.drainers|)
    && (forall i | 0 <= i < |s.producers| :: ProducerOk(s, i))
    && (forall d | 0 <= d < |s.drainers| :: DrainerOk(s, d))
  }

  lemma InitInv(s: State)
    requires Init(s)
    ensures Inv(s)
  {
  }

  // Every other position of the window lives in another slot.
  lemma OtherSlots(s: State, pos: int)
    requires Bounds(s) && s.Released() <= pos < s.Released() + |s.cells|
    ensures forall p | s.Released() <= p < s.Released() + |s.cells| && p != pos ::
              Slot(p, |s.cells|) != Slot(pos, |s.cells|)
  {
    forall p | s.Released() <= p < s.Released() + |s.cells| && p != pos
      ensures Slot(p, |s.cells|) != Slot(pos, |s.cells|)
    {
      if p < pos { SlotsDiffer(p, pos, |s.cells|); } else { SlotsDiffer(pos, p, |s.cells|); }
    }
  }

  // What the look at a slot tells: it is behind only when the ring is full, and it matches an
  // unclaimed position only when there is room for it.
  lemma LookTells(s: State, pos: int)
    requires Inv(s) && 0 <= pos <= s.enq
    ensures s.At(pos).seqno < pos ==> s.enq - s.Released() == |s.cells| && pos == s.enq
    ensures s.At(pos).seqno == pos == s.enq ==> s.enq < s.Released() + |s.cells|
  {
    var n := |s.cells|;
    var rel := s.Released();
    if rel <= pos < rel + n {
      assert CellOk(s, pos);
    } else if pos == rel + n {
      assert s.At(pos) == s.At(rel);
      assert CellOk(s, rel);
    } else {
      // a stale cursor: its slot has been handed on to a later position
      var p := SameSlotAbove(pos, rel, n);
      assert s.At(pos) == s.At(p);
      assert CellOk(s, p);
    }
  }

  // The one position of the window [rel, rel + n) that shares pos's slot.
  function SameSlotAbove(pos: int, rel: int, n: nat): (p: int)
    requires 0 < n && 0 <= pos < rel
    ensures rel <= p < rel + n && pos < p && Slot(p, n) == Slot(pos, n)
    decreases rel - pos
  {
    assert Slot(pos + n, n) == Slot(pos, n);
    if pos + n < rel then SameSlotAbove(pos + n, rel, n) else pos + n
  }

  // A step that leaves the ring itself alone keeps everything said about it.
  predicate SameRing(s: State, t: State)
  {
    && t.enq == s.enq && t.deq == s.deq && t.cells == s.cells && t.log == s.log && t.claimants == s.claimants
    && t.delivered == s.delivered && t.Released() == s.Released()
  }

  lemma SameRingKeeps(s: State, t: State)
    requires Inv(s) && SameRing(s, t) && |t.producers| == |s.producers|
    requires forall i, p | 0 <= i < |s.producers| && InFlight(s.producers[i], p) :: InFlight(t.producers[i], p)
    ensures Bounds(t) && CellsOk(t) && ClaimsOk(t)
    ensures forall i | 0 <= i < |s.producers| && t.producers[i] == s.producers[i] :: ProducerOk(t, i)
  {
    forall p | t.Released() <= p < t.Released() + |t.cells|
      ensures CellOk(t, p)
    {
      assert CellOk(s, p);
    }
    forall p | t.Released() <= p < t.enq
      ensures ClaimOk(t, p)
    {
      assert ClaimOk(s, p);
    }
    forall i | 0 <= i < |s.producers| && t.producers[i] == s.producers[i]
      ensures ProducerOk(t, i)
    {
      assert ProducerOk(s, i);
    }
  }

  // What a step of a producer leaves alone on the other side.
  lemma DrainersKept(s: State, t: State)
    requires Inv(s) && SameRing(s, t) && t.drainers == s.drainers && t.holder == s.holder && Bounds(t)
    ensures forall d | 0 <= d < |t.drainers| :: DrainerOk(t, d)
    ensures Draining(s) ==> Draining(t)
  {
    forall d | 0 <= d < |t.drainers|
      ensures DrainerOk(t, d)
    {
      assert DrainerOk(s, d);
    }
  }

  lemma PushPrivateKeepsInv(s: State, a: Action)
    requires Inv(s) && Enabled(s, a)
    requires a.PushBegin? || a.PushLook? || a.PushRetry? || a.PushRefuse? || a.PushSample? || a.PushDone?
    ensures Inv(Apply(s, a))
  {
    hide CellOk, ClaimOk, DrainerOk, Draining;
    var t := Apply(s, a);
    assert ProducerOk(s, a.i);
    if a.PushLook? {
      LookTells(s, s.producers[a.i].pos);
    }
    SameRingKeeps(s, t);
    DrainersKept(s, t);
  }

  // A claim puts one position behind the write cursor and leaves every cell alone.
  lemma ClaimKeepsRing(s: State, a: Action)
    requires Inv(s) && Enabled(s, a) && a.PushClaim?
    ensures var t := Apply(s, a); Bounds(t) && CellsOk(t) && ClaimsOk(t) && t.Released() == s.Released()
    ensures s.At(s.enq).seqno == s.enq
  {
    hide DrainerOk, WakeOk;
    var t := Apply(s, a);
    assert ProducerOk(s, a.i);
    assert CellOk(s, s.enq);
    assert t.Released() == s.Released();
    forall p | t.Released() <= p < t.Released() + |t.cells|
      ensures CellOk(t, p)
    {
      assert CellOk(s, p);
    }
    forall p | t.Released() <= p < t.enq
      ensures ClaimOk(t, p)
    {
      if p < s.enq { assert ClaimOk(s, p); }
    }
  }

  lemma PushClaimKeepsInv(s: State, a: Action)
    requires Inv(s) && Enabled(s, a) && a.PushClaim?
    ensures Inv(Apply(s, a))
  {
    hide CellOk, ClaimOk;
    var t := Apply(s, a);
    ClaimKeepsRing(s, a);
    forall d | 0 <= d < |s.drainers|
      ensures DrainerOk(t, d)
    {
      assert DrainerOk(s, d);
    }
    forall i | 0 <= i < |s.producers|
      ensures ProducerOk(t, i)
    {
      assert ProducerOk(s, i);
    }
    assert ProducerOk(s, a.i);
    assert Draining(s) ==> Draining(t);
  }

  // Writing one's own cell: every other cell, and so everyone else's view, stays.
  lemma OwnCellWritten(s: State, i: nat, q: Producer, c: Cell)
    requires Inv(s) && i < |s.producers| && (s.producers[i].Sampled? || s.producers[i].Stored?)
    requires 0 <= s.producers[i].pos
    ensures var pos := s.producers[i].pos; var t := s.WithProducer(i, q).Store(pos, c);
            && Bounds(t) && t.Released() == s.Released() && t.At(pos) == c
            && (forall p | s.Released() <= p < s.Released() + |s.cells| && p != pos :: CellOk(t, p))
            && (forall p | s.Released() <= p < s.enq && p != pos :: ClaimOk(t, p))
            && (forall j | 0 <= j < |s.producers| && j != i :: ProducerOk(t, j))
            && (forall d | 0 <= d < |s.drainers| :: DrainerOk(t, d))
  {
    var pos := s.producers[i].pos;
    var t := s.WithProducer(i, q).Store(pos, c);
    assert ProducerOk(s, i);
    OtherSlots(s, pos);
    forall p | s.Released() <= p < s.Released() + |s.cells| && p != pos
      ensures CellOk(t, p) && t.At(p) == s.At(p)
    {
      assert CellOk(s, p);
      assert Slot(p, |s.cells|) != Slot(pos, |s.cells|);
    }
    forall p | s.Released() <= p < s.enq && p != pos
      ensures ClaimOk(t, p)
    {
      assert CellOk(t, p) && ClaimOk(s, p);
    }
    forall j | 0 <= j < |s.producers| && j != i
      ensures ProducerOk(t, j)
    {
      assert ProducerOk(s, j);
    }
    forall d | 0 <= d < |s.drainers|
      ensures DrainerOk(t, d)
    {
      assert DrainerOk(s, d);
    }
  }

  lemma PushWriteKeepsInv(s: State, a: Action)
    requires Inv(s) && Enabled(s, a) && (a.PushStore? || a.PushPublish?)
    ensures Inv(Apply(s, a))
  {
    hide DrainerOk;
    var t := Apply(s, a);
    var pos := s.producers[a.i].pos;
    assert ProducerOk(s, a.i);
    OwnCellWritten(s, a.i, t.producers[a.i], t.At(pos));
    assert t == s.WithProducer(a.i, t.producers[a.i]).Store(pos, t.At(pos));
    assert CellOk(s, pos) && CellOk(t, pos);
    assert ClaimOk(t, pos);
    assert Draining(s) ==> Draining(t);
  }

  predicate ClaimStep(a: Action)
  {
    a.DrainWin? || a.DrainLoad? || a.DrainLook? || a.DrainMove? || a.DrainReload? || a.DrainUnclaim?
  }

  lemma ClaimStepKeepsDrainers(s: State, a: Action)
    requires Inv(s) && Enabled(s, a) && ClaimStep(a)
    ensures var t := Apply(s, a); SameRing(s, t) && Bounds(t) && forall d | 0 <= d < |t.drainers| :: DrainerOk(t, d)
  {
    hide ClaimOk, ProducerOk, WakeOk;
    var t := Apply(s, a);
    assert DrainerOk(s, a.d);
    if a.DrainLook? || a.DrainMove? {
      assert CellOk(s, s.deq);
    }
    forall d | 0 <= d < |t.drainers|
      ensures DrainerOk(t, d)
    {
      assert DrainerOk(s, d);
    }
  }

  lemma ClaimStepKeepsInv(s: State, a: Action)
    requires Inv(s) && Enabled(s, a) && ClaimStep(a)
    ensures Inv(Apply(s, a))
  {
    hide CellOk, ClaimOk, ProducerOk, InFlight, DrainerOk;
    var t := Apply(s, a);
    ClaimStepKeepsDrainers(s, a);
    SameRingKeeps(s, t);
    assert !t.drainers[a.d].Away?;
  }

  predicate EmptyStep(a: Action)
  {
    a.EmptyLoad? || a.EmptyStore? || a.EmptyCompare? || a.DrainWake?
  }

  lemma EmptyStepKeepsDrainers(s: State, a: Action)
    requires Inv(s) && Enabled(s, a) && EmptyStep(a) && Orderly(s, a)
    ensures var t := Apply(s, a); SameRing(s, t) && Bounds(t) && forall d | 0 <= d < |t.drainers| :: DrainerOk(t, d)
  {
    hide CellOk, ClaimOk, ProducerOk, WakeOk;
    var t := Apply(s, a);
    assert DrainerOk(s, a.d);
    forall d | 0 <= d < |t.drainers|
      ensures DrainerOk(t, d)
    {
      assert DrainerOk(s, d);
    }
  }

  lemma EmptyStepKeepsWake(s: State, a: Action)
    requires Inv(s) && Enabled(s, a) && EmptyStep(a) && SameRing(s, Apply(s, a)) && Bounds(Apply(s, a))
    ensures WakeOk(Apply(s, a))
  {
    hide CellsOk, ClaimsOk, ProducerOk;
    var t := Apply(s, a);
    assert DrainerOk(s, a.d);
    assert t.drainers[a.d].Away? || Draining(t);
  }

  lemma EmptyStepKeepsInv(s: State, a: Action)
    requires Inv(s) && Enabled(s, a) && EmptyStep(a) && Orderly(s, a)
    ensures Inv(Apply(s, a))
  {
    hide CellOk, ClaimOk, ProducerOk, InFlight, DrainerOk, WakeOk;
    EmptyStepKeepsDrainers(s, a);
    EmptyStepKeepsWake(s, a);
    SameRingKeeps(s, Apply(s, a));
  }

  lemma DrainFreeKeepsInv(s: State, a: Action)
    requires Inv(s) && Enabled(s, a) && a.DrainFree?
    ensures Inv(Apply(s, a))
  {
    var t := Apply(s, a);
    var n := |s.cells|;
    assert DrainerOk(s, a.d);
    OtherSlots(s, s.deq);
    assert t.At(s.deq + n).seqno == s.deq + n;
    assert t.Released() == s.deq + 1;
    assert forall p |
        s.deq < p < s.deq + n :: s.At(p) == t.At(p);
    forall p | t.Released() <= p < t.Released() + n
      ensures CellOk(t, p)
    {
      if p < s.deq + n { assert CellOk(s, p); }
    }
    forall p | t.Released() <= p < t.enq
      ensures ClaimOk(t, p)
    {
      if p < s.enq { assert ClaimOk(s, p); }
    }
    forall i | 0 <= i < |s.producers|
      ensures ProducerOk(t, i)
    {
      assert ProducerOk(s, i);
    }
    forall d | 0 <= d < |s.drainers|
      ensures DrainerOk(t, d)
    {
      assert DrainerOk(s, d);
    }
    assert !t.drainers[a.d].Away?;
  }

  lemma DrainAdvanceKeepsInv(s: State, a: Action)
    requires Inv(s) && Enabled(s, a) && a.DrainAdvance?
    ensures Inv(Apply(s, a))
  {
    var t := Apply(s, a);
    assert DrainerOk(s, a.d);
    assert t.Released() == s.Released();
    assert s.cells == t.cells;
    assert t.delivered == s.log[..s.deq + 1];
    forall i | 0 <= i < |s.producers|
      ensures ProducerOk(t, i)
    {
      assert ProducerOk(s, i);
    }
    forall d | 0 <= d < |s.drainers|
      ensures DrainerOk(t, d)
    {
      assert DrainerOk(s, d);
    }
    forall p | t.Released() <= p < t.Released() + |t.cells|
      ensures CellOk(t, p)
    {
      assert CellOk(s, p);
    }
    forall p | t.Released() <= p < t.enq
      ensures ClaimOk(t, p)
    {
      if p < s.enq { assert ClaimOk(s, p); }
    }
    assert !t.drainers[a.d].Away?;
  }

  lemma StepKeepsInv(s: State, a: Action)
    requires Inv(s) && Enabled(s, a) && Orderly(s, a)
    ensures Inv(Apply(s, a))
  {
    match a
    case PushBegin(_, _) => PushPrivateKeepsInv(s, a);
    case PushLook(_) => PushPrivateKeepsInv(s, a);
    case PushClaim(_) => PushClaimKeepsInv(s, a);
    case PushRetry(_) => PushPrivateKeepsInv(s, a);
    case PushRefuse(_) => PushPrivateKeepsInv(s, a);
    case PushSample(_) => PushPrivateKeepsInv(s, a);
    case PushStore(_) => PushWriteKeepsInv(s, a);
    case PushPublish(_) => PushWriteKeepsInv(s, a);
    case PushDone(_) => PushPrivateKeepsInv(s, a);
    case DrainLose(_) =>
    case DrainFree(_) => DrainFreeKeepsInv(s, a);
    case DrainAdvance(_) => DrainAdvanceKeepsInv(s, a);
    case DrainWin(_) => ClaimStepKeepsInv(s, a);
    case DrainLoad(_) => ClaimStepKeepsInv(s, a);
    case DrainLook(_) => ClaimStepKeepsInv(s, a);
    case DrainMove(_) => ClaimStepKeepsInv(s, a);
    case DrainReload(_) => ClaimStepKeepsInv(s, a);
    case DrainUnclaim(_) => ClaimStepKeepsInv(s, a);
    case _ => EmptyStepKeepsInv(s, a);
  }

  // --- Runs --------------------------------------------------------------------------------

  // A sequence of steps any scheduler may take.
  predicate IsRun(s: State, run: seq<Action>)
    decreases |run|
  {
    run != [] ==> Enabled(s, run[0]) && IsRun(Apply(s, run[0]), run[1..])
  }

  predicate OrderlyRun(s: State, run: seq<Action>)
    requires IsRun(s, run)
    decreases |run|
  {
    run != [] ==> Orderly(s, run[0]) && OrderlyRun(Apply(s, run[0]), run[1..])
  }

  function Final(s: State, run: seq<Action>): State
    requires IsRun(s, run)
    decreases |run|
  {
    if run == [] then s else Final(Apply(s, run[0]), run[1..])
  }

  // The items Push() accepted, in the order their positions were claimed.
  function Accepted(s: State, run: seq<Action>): seq<Item>
    requires IsRun(s, run)
    decreases |run|
  {
    if run == [] then []
    else (if run[0].PushClaim? then [s.producers[run[0].i].item] else [])
         + Accepted(Apply(s, run[0]), run[1..])
  }

  // The items Drain() handed to its encoder, in order.
  function Encoded(s: State, run: seq<Action>): seq<Item>
    requires IsRun(s, run)
    decreases |run|
  {
    if run == [] then []
    else (if run[0].DrainAdvance? then [s.drainers[run[0].d].item] else [])
         + Encoded(Apply(s, run[0]), run[1..])
  }

  lemma {:induction false} RunKeepsInv(s: State, run: seq<Action>)
    requires Inv(s) && IsRun(s, run) && OrderlyRun(s, run)
    ensures Inv(Final(s, run))
    decreases |run|
  {
    if run != [] {
      StepKeepsInv(s, run[0]);
      RunKeepsInv(Apply(s, run[0]), run[1..]);
    }
  }

  lemma HistoryStep(s: State, a: Action)
    requires Enabled(s, a)
    ensures Apply(s, a).log == s.log + (if a.PushClaim? then [s.producers[a.i].item] else [])
    ensures Apply(s, a).delivered == s.delivered + (if a.DrainAdvance? then [s.drainers[a.d].item] else [])
    ensures |Apply(s, a).cells| == |s.cells|
  {
  }

  lemma {:induction false} HistoryIsFaithful(s: State, run: seq<Action>)
    requires IsRun(s, run)
    ensures Final(s, run).log == s.log + Accepted(s, run)
    ensures Final(s, run).delivered == s.delivered + Encoded(s, run)
    ensures |Final(s, run).cells| == |s.cells|
    decreases |run|
  {
    hide Apply, Enabled;
    if run != [] {
      HistoryStep(s, run[0]);
      HistoryIsFaithful(Apply(s, run[0]), run[1..]);
    }
  }

  // In every orderly interleaving, what is encoded is exactly what was accepted, oldest first,
  // each item once, and at most capacity + 1 accepted items are still to come.
  lemma DeliversInClaimOrder(s: State, run: seq<Action>)
    requires Init(s) && IsRun(s, run) && OrderlyRun(s, run)
    ensures Encoded(s, run) <= Accepted(s, run)
    ensures |Accepted(s, run)| - |Encoded(s, run)| <= |s.cells| + 1
  {
    InitInv(s);
    RunKeepsInv(s, run);
    HistoryIsFaithful(s, run);
    var t := Final(s, run);
    assert t.log == Accepted(s, run) && t.delivered == Encoded(s, run);
  }

  // --- What every reachable state guarantees -----------------------------------------------

  // The slot whose value a thread may be touching: a producer between its claim and its publish,
  // the claim holder between finding an item readable and handing the slot back.
  function ProducerSlot(s: State, i: nat): Option<nat>
    requires s.Sane() && i < |s.producers|
  {
    var q := s.producers[i];
    if (q.Claimed? || q.Sampled? || q.Stored?) && 0 <= q.pos then Some(Slot(q.pos, |s.cells|)) else None
  }

  function DrainerSlot(s: State, d: nat): Option<nat>
    requires s.Sane() && d < |s.drainers|
  {
    var p := s.drainers[d];
    if (p.Readable? || p.Moved? || p.Releasing?) && 0 <= p.pos then Some(Slot(p.pos, |s.cells|)) else None
  }

  // No two threads ever own one cell's value at once.
  lemma CellsAreExclusive(s: State)
    requires Inv(s)
    ensures forall i, j | 0 <= i < j < |s.producers| && ProducerSlot(s, i).Some? ::
              ProducerSlot(s, i) != ProducerSlot(s, j)
    ensures forall i, d | 0 <= i < |s.producers| && 0 <= d < |s.drainers| && ProducerSlot(s, i).Some? ::
              ProducerSlot(s, i) != DrainerSlot(s, d)
    ensures forall d, e | 0 <= d < e < |s.drainers| && DrainerSlot(s, d).Some? :: DrainerSlot(s, e).None?
  {
    forall i, j | 0 <= i < j < |s.producers| && ProducerSlot(s, i).Some?
      ensures ProducerSlot(s, i) != ProducerSlot(s, j)
    {
      assert ProducerOk(s, i) && ProducerOk(s, j);
      OtherSlots(s, s.producers[i].pos);
    }
    forall i, d | 0 <= i < |s.producers| && 0 <= d < |s.drainers| && ProducerSlot(s, i).Some?
      ensures ProducerSlot(s, i) != DrainerSlot(s, d)
    {
      assert ProducerOk(s, i) && DrainerOk(s, d);
      OtherSlots(s, s.producers[i].pos);
    }
    forall d, e | 0 <= d < e < |s.drainers| && DrainerSlot(s, d).Some?
      ensures DrainerSlot(s, e).None?
    {
      assert DrainerOk(s, d) && DrainerOk(s, e);
    }
  }

  // A value moved out is the one its producer stored; a store never lands on an item still queued.
  lemma NoTornValue(s: State)
    requires Inv(s)
    ensures forall d | 0 <= d < |s.drainers| && s.drainers[d].Readable? ::
              s.deq < s.enq && s.At(s.deq).value == s.log[s.deq]
    ensures forall i, p | 0 <= i < |s.producers| && s.producers[i].Sampled? && s.Released() <= p < s.enq
                          && s.At(p).seqno == p + 1 :: ProducerSlot(s, i) != Some(Slot(p, |s.cells|))
  {
    forall d | 0 <= d < |s.drainers| && s.drainers[d].Readable?
      ensures s.deq < s.enq && s.At(s.deq).value == s.log[s.deq]
    {
      assert DrainerOk(s, d) && CellOk(s, s.deq);
    }
    forall i, p | 0 <= i < |s.producers| && s.producers[i].Sampled? && s.Released() <= p < s.enq
                  && s.At(p).seqno == p + 1
      ensures ProducerSlot(s, i) != Some(Slot(p, |s.cells|))
    {
      assert ProducerOk(s, i);
      OtherSlots(s, s.producers[i].pos);
    }
  }

  // Push() gives up at a look that finds exactly `capacity` positions claimed and not handed
  // back; and with an up-to-date cursor a full ring is always recognized.
  lemma RefusesExactlyWhenFull(s: State, i: nat)
    requires Inv(s) && i < |s.producers| && s.producers[i].Positioned?
    ensures Enabled(s, PushLook(i))
    ensures var q := Apply(s, PushLook(i)).producers[i];
            var full := s.enq - s.Released() == |s.cells|;
            && (PositionVerdict(q.seqno, q.pos).Full? ==> full)
            && (full && q.pos == s.enq ==> PositionVerdict(q.seqno, q.pos).Full?)
  {
    assert ProducerOk(s, i);
    LookTells(s, s.producers[i].pos);
    if s.enq - s.Released() == |s.cells| {
      assert CellOk(s, s.Released());
      assert s.At(s.enq) == s.At(s.Released());
    }
  }

  // Masking always finds the slot of the unbounded position; and the words the code compares give
  // the verdict of the positions they stand for exactly when the slot is not ahead of the cursor, or
  // ahead by less than half a word once whole words are left out.
  lemma WordsAgree(s: State, i: nat)
    requires Inv(s) && i < |s.producers| && s.producers[i].Positioned?
    requires PowerOfTwo(|s.cells|) && |s.cells| <= HALF
    ensures Enabled(s, PushLook(i))
    ensures var q := Apply(s, PushLook(i)).producers[i];
            && 0 <= q.seqno && 0 <= q.pos
            && (WordVerdict(q.seqno % WORD, q.pos % WORD) == PositionVerdict(q.seqno, q.pos)
                <==> q.seqno <= q.pos || 0 < (q.seqno - q.pos) % WORD < HALF)
            && s.At(q.pos) == s.cells[(q.pos % WORD) % |s.cells|]
  {
    hide Inv, PowerOfTwo, WordVerdict, PositionVerdict;
    var pos := s.producers[i].pos;
    SlotIsNear(s, i);
    WordSlot(pos, |s.cells|);
    NearVerdict(s.At(pos).seqno, pos);
  }

  // A slot is at most a lap behind the cursor that looks at it, and at most a lap ahead of the ring.
  lemma SlotIsNear(s: State, i: nat)
    requires Inv(s) && i < |s.producers| && s.producers[i].Positioned?
    ensures s.Sane() && 0 <= s.producers[i].pos <= s.enq
    ensures var pos := s.producers[i].pos;
            0 <= s.At(pos).seqno < s.enq + |s.cells| && pos <= s.At(pos).seqno + |s.cells|
  {
    assert ProducerOk(s, i);
    var pos := s.producers[i].pos;
    var n, rel := |s.cells|, s.Released();
    var p := if pos < rel then SameSlotAbove(pos, rel, n) else if pos < rel + n then pos else rel;
    assert s.At(pos) == s.At(p) && CellOk(s, p);
  }

  // So a cursor stale by at most half a word less the slots is always judged right.
  lemma FreshCursorAgrees(s: State, i: nat)
    requires Inv(s) && i < |s.producers| && s.producers[i].Positioned?
    requires PowerOfTwo(|s.cells|) && s.enq - s.producers[i].pos <= HALF - |s.cells|
    ensures Enabled(s, PushLook(i))
    ensures var q := Apply(s, PushLook(i)).producers[i];
            WordVerdict(q.seqno % WORD, q.pos % WORD) == PositionVerdict(q.seqno, q.pos)
  {
    hide Inv, PowerOfTwo, WordVerdict, PositionVerdict;
    SlotIsNear(s, i);
    WordsAgree(s, i);
    var pos := s.producers[i].pos;
    if pos < s.At(pos).seqno {
      SmallRemainder(s.At(pos).seqno - pos, WORD);
    }
  }

  predicate Quiet(s: State)
  {
    && (forall i | 0 <= i < |s.producers| :: s.producers[i].Idle?)
    && (forall d | 0 <= d < |s.drainers| :: s.drainers[d].Away?)
  }

  // No lost wake: with no Push() or Drain() in progress, a non-empty queue has been announced
  // since the last Drain() that won the claim began, and everything in it can be popped.
  lemma NoLostWake(s: State, run: seq<Action>)
    requires Init(s) && IsRun(s, run) && OrderlyRun(s, run) && Quiet(Final(s, run))
    ensures Inv(Final(s, run))
    ensures var t := Final(s, run);
            t.deq < t.enq ==>
              && t.woken
              && (forall p | t.deq <= p < t.enq :: t.At(p).seqno == p + 1 && t.At(p).value == t.log[p])
  {
    InitInv(s);
    RunKeepsInv(s, run);
    var t := Final(s, run);
    assert t.holder.Some? ==> DrainerOk(t, t.holder.value);
    AllReadable(t);
  }

  predicate AllIdle(s: State)
  {
    forall i | 0 <= i < |s.producers| :: s.producers[i].Idle?
  }

  // With no Push() in progress and no slot being handed back, everything queued can be popped.
  lemma AllReadable(s: State)
    requires Inv(s) && AllIdle(s) && s.Released() == s.deq
    ensures forall p | s.deq <= p < s.enq :: s.At(p).seqno == p + 1 && s.At(p).value == s.log[p]
    ensures s.At(s.enq).seqno != s.enq + 1
  {
    forall p | s.deq <= p < s.enq
      ensures s.At(p).seqno == p + 1 && s.At(p).value == s.log[p]
    {
      assert CellOk(s, p) && ClaimOk(s, p);
    }
    if s.enq == s.deq + |s.cells| {
      assert s.At(s.enq) == s.At(s.deq) && CellOk(s, s.deq);
    } else {
      assert CellOk(s, s.enq);
    }
  }

  // --- What makes a run orderly ------------------------------------------------------------

  // At every moment of the run the cursor counts the deliveries.
  predicate CursorCounts(s: State, run: seq<Action>)
    requires IsRun(s, run)
    decreases |run|
  {
    s.deq == |s.delivered| && (run != [] ==> CursorCounts(Apply(s, run[0]), run[1..]))
  }

  // Orderly is exactly what the cursor needs to stay the count of what was delivered.
  lemma {:induction false} OrderlyExactly(s: State, run: seq<Action>)
    requires Inv(s) && IsRun(s, run)
    ensures OrderlyRun(s, run) <==> CursorCounts(s, run)
    decreases |run|
  {
    if run != [] {
      var t := Apply(s, run[0]);
      if Orderly(s, run[0]) {
        StepKeepsInv(s, run[0]);
        OrderlyExactly(t, run[1..]);
      } else {
        hide Inv;
        assert t.deq != |t.delivered|;
      }
    }
  }

  // Whoever is inside Empty() has loaded the cursor as it is.
  predicate HeadsCurrent(s: State)
  {
    forall d | 0 <= d < |s.drainers| && s.drainers[d].HeadLoaded? :: s.drainers[d].head == s.deq
  }

  // No thread moves the cursor while another is between Empty()'s load and its store.
  predicate Undisturbed(s: State, run: seq<Action>)
    requires IsRun(s, run)
    decreases |run|
  {
    run != [] ==>
      && (run[0].DrainAdvance? ==> forall d | 0 <= d < |s.drainers| :: !s.drainers[d].HeadLoaded?)
      && Undisturbed(Apply(s, run[0]), run[1..])
  }

  lemma {:induction false} UndisturbedIsOrderly(s: State, run: seq<Action>)
    requires IsRun(s, run) && HeadsCurrent(s) && Undisturbed(s, run)
    ensures OrderlyRun(s, run)
    decreases |run|
  {
    if run != [] {
      UndisturbedIsOrderly(Apply(s, run[0]), run[1..]);
    }
  }

  predicate OnlyDrainer(run: seq<Action>, d: nat)
  {
    forall k | 0 <= k < |run| :: run[k].DrainWin? ==> run[k].d == d
  }

  lemma {:induction false} SingleDrainerIsOrderly(s: State, run: seq<Action>, d: nat)
    requires IsRun(s, run) && OnlyDrainer(run, d) && HeadsCurrent(s)
    requires forall e | 0 <= e < |s.drainers| && e != d :: s.drainers[e].Away?
    ensures OrderlyRun(s, run)
    decreases |run|
  {
    if run != [] {
      assert OnlyDrainer(run[1..], d);
      SingleDrainerIsOrderly(Apply(s, run[0]), run[1..], d);
    }
  }

  // --- What happens otherwise --------------------------------------------------------------

  // The oldest slot was handed back, yet the read cursor still names it: NextReadable() waits
  // for a sequence that slot has already passed.
  predicate Wedged(s: State)
  {
    && s.Sane() && s.deq < s.enq && s.At(s.deq).seqno > s.deq + 1
    && (forall i | 0 <= i < |s.producers| ::
          s.producers[i].Claimed? || s.producers[i].Sampled? || s.producers[i].Stored? ==> s.deq < s.producers[i].pos)
    && (forall d | 0 <= d < |s.drainers| ::
          var p := s.drainers[d];
          && !p.Readable? && !p.Moved? && !p.Releasing? && !p.Freed?
          && (p.Cursored? ==> p.pos == s.deq) && (p.HeadLoaded? ==> p.head == s.deq))
  }

  // What an unfresh store does: from any reachable state in which threads inside Empty() are up to
  // date, moving the cursor lets one of them put it back, and wedges the ring.
  lemma StaleStoreWedges(s: State, slow: nat, fast: nat)
    requires Inv(s) && slow < |s.drainers| && fast < |s.drainers|
    requires s.drainers[slow].HeadLoaded? && s.drainers[fast].Freed? && HeadsCurrent(s)
    ensures var race := [DrainAdvance(fast), EmptyStore(slow)];
            && IsRun(s, race) && !OrderlyRun(s, race) && !CursorCounts(s, race)
            && Final(s, race).deq < Final(s, race[..1]).deq
            && Wedged(Final(s, race))
  {
    var race := [DrainAdvance(fast), EmptyStore(slow)];
    assert DrainerOk(s, slow) && DrainerOk(s, fast);
    TwoSteps(s, race[0], race[1]);
    OrderlyExactly(s, race);
    assert CellOk(s, s.deq + |s.cells|);
    assert s.At(s.deq) == s.At(s.deq + |s.cells|);
    forall i | 0 <= i < |s.producers|
      ensures s.producers[i].Claimed? || s.producers[i].Sampled? || s.producers[i].Stored? ==> s.deq < s.producers[i].pos
    {
      assert ProducerOk(s, i);
    }
    forall d | 0 <= d < |s.drainers|
      ensures d != fast ==> !HoldsClaim(s.drainers[d])
      ensures s.drainers[d].HeadLoaded? ==> s.drainers[d].head == s.deq
    {
      assert DrainerOk(s, d);
    }
  }

  // From there on nothing queued is ever encoded, whatever anyone does.
  lemma {:induction false} WedgedForever(s: State, run: seq<Action>)
    requires Wedged(s) && IsRun(s, run)
    ensures Encoded(s, run) == [] && Wedged(Final(s, run))
    decreases |run|
  {
    if run != [] {
      WedgedStep(s, run[0]);
      WedgedForever(Apply(s, run[0]), run[1..]);
    }
  }

  lemma WedgedStep(s: State, a: Action)
    requires Wedged(s) && Enabled(s, a)
    ensures Wedged(Apply(s, a)) && !a.DrainAdvance?
  {
    hide Wedged, Enabled, Apply;
    if IsPush(a) {
      WedgedPush(s, a);
    } else {
      WedgedDrain(s, a);
    }
  }

  predicate IsPush(a: Action)
  {
    || a.PushBegin? || a.PushLook? || a.PushClaim? || a.PushRetry? || a.PushRefuse?
    || a.PushSample? || a.PushStore? || a.PushPublish? || a.PushDone?
  }

  lemma WedgedPush(s: State, a: Action)
    requires Wedged(s) && Enabled(s, a) && IsPush(a)
    ensures Wedged(Apply(s, a))
  {
  }

  lemma WedgedDrain(s: State, a: Action)
    requires Wedged(s) && Enabled(s, a) && !IsPush(a)
    ensures Wedged(Apply(s, a)) && !a.DrainAdvance?
  {
  }

  lemma TwoSteps(s: State, a: Action, b: Action)
    requires Enabled(s, a) && Enabled(Apply(s, a), b)
    ensures IsRun(s, [a, b]) && Final(s, [a, b]) == Apply(Apply(s, a), b)
    ensures Final(s, [a, b][..1]) == Apply(s, a)
    ensures !Orderly(Apply(s, a), b) ==> !OrderlyRun(s, [a, b])
  {
    assert [a, b][..1] == [a] && [a, b][1..] == [b] && [b][1..] == [];
    assert IsRun(Apply(Apply(s, a), b), []);
    assert IsRun(Apply(s, a), [b]);
    assert Final(Apply(s, a), [b]) == Apply(Apply(s, a), b);
  }

  // --- Runs, step by step ------------------------------------------------------------------

  predicate Leads(s: State, run: seq<Action>, t: State, orderly: bool)
  {
    IsRun(s, run) && Final(s, run) == t && (orderly ==> OrderlyRun(s, run))
  }

  lemma {:induction false} Extend(s: State, run: seq<Action>, t: State, a: Action, orderly: bool)
    requires Leads(s, run, t, orderly) && Enabled(t, a) && (orderly ==> Orderly(t, a))
    ensures Leads(s, run + [a], Apply(t, a), orderly)
    decreases |run|
  {
    if run == [] {
      assert [a][1..] == [];
    } else {
      assert (run + [a])[1..] == run[1..] + [a];
      Extend(Apply(s, run[0]), run[1..], t, a, orderly);
    }
  }

  lemma Start(s: State, orderly: bool)
    ensures Leads(s, [], s, orderly)
  {
  }

  // What a run that leads somewhere took in and handed out.
  lemma HistoryOf(s: State, run: seq<Action>, t: State, orderly: bool)
    requires Leads(s, run, t, orderly)
    ensures IsRun(s, run) && t.log == s.log + Accepted(s, run) && t.delivered == s.delivered + Encoded(s, run)
  {
    hide IsRun, Accepted, Encoded;
    HistoryIsFaithful(s, run);
  }

  lemma Then(s: State, start: seq<Action>, t: State, a: Action, orderly: bool) returns (run: seq<Action>, u: State)
    requires Leads(s, start, t, orderly) && Enabled(t, a) && (orderly ==> Orderly(t, a))
    ensures Leads(s, run, u, orderly) && u == Apply(t, a) && run == start + [a]
  {
    Extend(s, start, t, a, orderly);
    run, u := start + [a], Apply(t, a);
  }

  // The run goes on with steps of this draining thread alone.
  predicate GoesOnWith(start: seq<Action>, run: seq<Action>, d: nat)
  {
    start <= run && forall k | |start| <= k < |run| :: !IsPush(run[k]) && run[k].d == d
  }

  lemma NothingYet(start: seq<Action>, d: nat)
    ensures GoesOnWith(start, start, d)
  {
  }

  lemma ThenOwn(s: State, start: seq<Action>, mid: seq<Action>, t: State, a: Action, d: nat, orderly: bool)
    returns (run: seq<Action>, u: State)
    requires Leads(s, mid, t, orderly) && Enabled(t, a) && (orderly ==> Orderly(t, a))
    requires GoesOnWith(start, mid, d) && !IsPush(a) && a.d == d
    ensures Leads(s, run, u, orderly) && u == Apply(t, a) && GoesOnWith(start, run, d)
  {
    hide Leads, Apply, Enabled;
    run, u := Then(s, mid, t, a, orderly);
  }

  // A producer claims a free position.
  lemma ClaimOne(s: State, start: seq<Action>, t: State, i: nat, item: Item, orderly: bool)
    returns (run: seq<Action>, u: State)
    requires Leads(s, start, t, orderly) && t.Sane() && i < |t.producers| && t.producers[i].Idle?
    requires t.At(t.enq).seqno == t.enq
    ensures Leads(s, run, u, orderly)
    ensures u == t.WithProducer(i, Sampled(item, t.enq, t.enq - t.deq))
                 .(enq := t.enq + 1, log := t.log + [item], claimants := t.claimants + [i])
  {
    hide Leads;
    run, u := Then(s, start, t, PushBegin(i, item), orderly);
    run, u := Then(s, run, u, PushLook(i), orderly);
    run, u := Then(s, run, u, PushClaim(i), orderly);
    run, u := Then(s, run, u, PushSample(i), orderly);
  }

  // And fills it and returns.
  lemma PushOne(s: State, start: seq<Action>, t: State, i: nat, item: Item, orderly: bool)
    returns (run: seq<Action>, u: State)
    requires Leads(s, start, t, orderly) && t.Sane() && i < |t.producers| && t.producers[i].Idle?
    requires t.At(t.enq).seqno == t.enq
    ensures Leads(s, run, u, orderly)
    ensures u == t.(enq := t.enq + 1, log := t.log + [item], claimants := t.claimants + [i],
                    cells := t.cells[Slot(t.enq, |t.cells|) := Cell(t.enq + 1, item)],
                    woken := t.woken || t.enq == t.deq)
  {
    hide Leads;
    run, u := ClaimOne(s, start, t, i, item, orderly);
    run, u := Then(s, run, u, PushStore(i), orderly);
    run, u := Then(s, run, u, PushPublish(i), orderly);
    run, u := Then(s, run, u, PushDone(i), orderly);
    assert u.producers == t.producers;
    assert u.cells == t.cells[Slot(t.enq, |t.cells|) := Cell(t.enq + 1, item)];
  }

  // The claim holder, its cursor loaded and its cell readable, moves the item out.
  lemma MoveOne(s: State, start: seq<Action>, t: State, d: nat, orderly: bool) returns (run: seq<Action>, u: State)
    requires Leads(s, start, t, orderly) && t.Sane() && d < |t.drainers|
    requires t.drainers[d].Cursored? && 0 <= t.drainers[d].pos
    requires t.At(t.drainers[d].pos).seqno == t.drainers[d].pos + 1
    ensures Leads(s, run, u, orderly) && GoesOnWith(start, run, d)
    ensures u == t.WithDrainer(d, Moved(t.At(t.drainers[d].pos).value, t.drainers[d].pos))
  {
    hide Leads, GoesOnWith;
    NothingYet(start, d);
    run, u := ThenOwn(s, start, start, t, DrainLook(d), d, orderly);
    run, u := ThenOwn(s, start, run, u, DrainMove(d), d, orderly);
  }

  // And hands the slot back. The cursor it finds by then need not be the one it loaded.
  lemma FreeOne(s: State, start: seq<Action>, t: State, d: nat, orderly: bool) returns (run: seq<Action>, u: State)
    requires Leads(s, start, t, orderly) && t.Sane() && d < |t.drainers|
    requires t.drainers[d].Cursored? && 0 <= t.drainers[d].pos
    requires t.At(t.drainers[d].pos).seqno == t.drainers[d].pos + 1
    ensures Leads(s, run, u, orderly) && GoesOnWith(start, run, d)
    ensures var slot := Slot(t.drainers[d].pos, |t.cells|);
            u == t.WithDrainer(d, Freed(t.cells[slot].value, t.deq))
                 .(cells := t.cells[slot := t.cells[slot].(seqno := t.deq + |t.cells|)])
  {
    hide Leads, GoesOnWith;
    run, u := MoveOne(s, start, t, d, orderly);
    run, u := ThenOwn(s, start, run, u, DrainReload(d), d, orderly);
    run, u := ThenOwn(s, start, run, u, DrainFree(d), d, orderly);
  }

  lemma TakeOne(s: State, start: seq<Action>, t: State, d: nat, orderly: bool) returns (run: seq<Action>, u: State)
    requires Leads(s, start, t, orderly) && t.Sane() && d < |t.drainers|
    requires t.drainers[d].Cursored? && 0 <= t.drainers[d].pos
    requires t.At(t.drainers[d].pos).seqno == t.drainers[d].pos + 1
    ensures Leads(s, run, u, orderly) && GoesOnWith(start, run, d)
    ensures var slot := Slot(t.drainers[d].pos, |t.cells|);
            u == t.WithDrainer(d, Holding)
                 .(deq := t.deq + 1, delivered := t.delivered + [t.cells[slot].value],
                   cells := t.cells[slot := t.cells[slot].(seqno := t.deq + |t.cells|)])
  {
    hide Leads, GoesOnWith;
    run, u := FreeOne(s, start, t, d, orderly);
    run, u := ThenOwn(s, start, run, u, DrainAdvance(d), d, orderly);
  }

  // The claim holder finds nothing readable.
  lemma LookForNone(s: State, start: seq<Action>, t: State, d: nat, orderly: bool) returns (run: seq<Action>, u: State)
    requires Leads(s, start, t, orderly) && t.Sane() && d < |t.drainers|
    requires t.drainers[d].Holding? && t.At(t.deq).seqno != t.deq + 1
    ensures Leads(s, run, u, orderly) && GoesOnWith(start, run, d)
    ensures u == t.WithDrainer(d, Exhausted)
  {
    hide Leads, GoesOnWith;
    NothingYet(start, d);
    run, u := ThenOwn(s, start, start, t, DrainLoad(d), d, orderly);
    run, u := ThenOwn(s, start, run, u, DrainLook(d), d, orderly);
  }

  // It then gives up the claim and loads the cursor in Empty().
  lemma FindNone(s: State, start: seq<Action>, t: State, d: nat, orderly: bool) returns (run: seq<Action>, u: State)
    requires Leads(s, start, t, orderly) && t.Sane() && d < |t.drainers|
    requires t.drainers[d].Holding? && t.At(t.deq).seqno != t.deq + 1
    ensures Leads(s, run, u, orderly) && GoesOnWith(start, run, d)
    ensures u == t.WithDrainer(d, HeadLoaded(t.deq)).(holder := None)
  {
    hide Leads, GoesOnWith;
    run, u := LookForNone(s, start, t, d, orderly);
    run, u := ThenOwn(s, start, run, u, DrainUnclaim(d), d, orderly);
    run, u := ThenOwn(s, start, run, u, EmptyLoad(d), d, orderly);
  }

  // --- One Drain() on its own --------------------------------------------------------------

  // The claim holder, about to look for the next item, while nobody is inside Push().
  predicate AloneAtWork(s: State, t: State, d: nat)
  {
    && Inv(t) && AllIdle(t) && d < |t.drainers| && t.drainers[d].Holding?
    && t.enq == s.enq && t.log == s.log && t.producers == s.producers
    && |t.drainers| == |s.drainers| && forall e | 0 <= e < |s.drainers| && e != d :: t.drainers[e] == s.drainers[e]
  }

  lemma LeadsKeepsInv(s: State, run: seq<Action>, t: State)
    requires Inv(s) && Leads(s, run, t, true)
    ensures Inv(t)
  {
    hide Inv;
    RunKeepsInv(s, run);
  }

  lemma DrainOneItem(s: State, start: seq<Action>, t: State, d: nat) returns (run: seq<Action>, u: State)
    requires Inv(s) && Leads(s, start, t, true) && AloneAtWork(s, t, d) && t.deq < t.enq
    ensures Leads(s, run, u, true) && GoesOnWith(start, run, d) && AloneAtWork(s, u, d) && u.deq == t.deq + 1
  {
    hide Leads, Inv;
    assert t.Sane() && t.Released() == t.deq by { HolderIsNotFreed(t, d); }
    AllReadable(t);
    assert t.At(t.deq).seqno == t.deq + 1;
    run, u := Then(s, start, t, DrainLoad(d), true);
    var mid := run;
    run, u := TakeOne(s, mid, u, d, true);
    LeadsKeepsInv(s, run, u);
  }

  lemma HolderIsNotFreed(t: State, d: nat)
    requires Inv(t) && d < |t.drainers| && t.drainers[d].Holding?
    ensures t.Sane() && t.Released() == t.deq <= t.enq
  {
    assert DrainerOk(t, d);
  }

  lemma {:induction false} DrainAllItems(s: State, start: seq<Action>, t: State, d: nat) returns (run: seq<Action>, u: State)
    requires Inv(s) && Leads(s, start, t, true) && AloneAtWork(s, t, d)
    ensures Leads(s, run, u, true) && GoesOnWith(start, run, d) && AloneAtWork(s, u, d) && u.deq == u.enq
    decreases t.enq - t.deq
  {
    hide Leads, Inv;
    HolderIsNotFreed(t, d);
    run, u := start, t;
    if t.deq < t.enq {
      var mid;
      mid, u := DrainOneItem(s, start, t, d);
      HolderIsNotFreed(u, d);
      run, u := DrainAllItems(s, mid, u, d);
    }
  }

  // Having found nothing more it gives up the claim, finds the queue empty and returns.
  lemma DrainReturns(s: State, start: seq<Action>, t: State, d: nat) returns (run: seq<Action>, u: State)
    requires Inv(s) && Leads(s, start, t, true) && AloneAtWork(s, t, d) && t.deq == t.enq
    ensures Leads(s, run, u, true) && GoesOnWith(start, run, d)
    ensures u == t.WithDrainer(d, Away).(holder := None)
  {
    hide Leads, Inv;
    HolderIsNotFreed(t, d);
    AllReadable(t);
    var mid;
    mid, u := FindNone(s, start, t, d, true);
    run, u := Then(s, mid, u, EmptyStore(d), true);
    run, u := Then(s, run, u, EmptyCompare(d), true);
  }

  lemma DrainBegins(s: State, d: nat) returns (run: seq<Action>, t: State)
    requires Inv(s) && Quiet(s) && d < |s.drainers|
    ensures Leads(s, run, t, true) && GoesOnWith([], run, d) && AloneAtWork(s, t, d) && t.deq == s.deq
  {
    assert s.holder.Some? ==> DrainerOk(s, s.holder.value);
    hide Leads, Inv;
    Start(s, true);
    run, t := Then(s, [], s, DrainWin(d), true);
    LeadsKeepsInv(s, run, t);
  }

  // A draining thread never has a choice, so this is the only way one Drain() alone can go.
  lemma NoChoice(s: State, a: Action, b: Action)
    requires Enabled(s, a) && Enabled(s, b) && !IsPush(a) && !IsPush(b) && a.d == b.d
    ensures a == b
  {
  }

  // One Drain() is enough: called on its own while nothing else is in progress, it encodes everything
  // queued, oldest first, leaves the queue empty and returns.
  lemma OneDrainEmpties(s: State, d: nat) returns (run: seq<Action>)
    requires Inv(s) && Quiet(s) && d < |s.drainers|
    ensures IsRun(s, run) && GoesOnWith([], run, d)
    ensures Encoded(s, run) == s.log[s.deq..]
    ensures var t := Final(s, run); Quiet(t) && t.deq == t.enq == s.enq && t.log == s.log
  {
    hide IsRun, OrderlyRun, Final, Inv, Encoded;
    var begun, t := DrainBegins(s, d);
    var emptied;
    emptied, t := DrainAllItems(s, begun, t, d);
    run, t := DrainReturns(s, emptied, t, d);
    LeadsKeepsInv(s, run, t);
    HistoryOf(s, run, t, true);
    AllDelivered(s, t, Encoded(s, run));
  }

  // So from wherever an orderly run comes to rest, one Drain() more and everything ever accepted has been
  // encoded, in the order it was claimed.
  lemma NothingStaysBehind(s: State, run: seq<Action>, d: nat) returns (more: seq<Action>)
    requires Init(s) && IsRun(s, run) && OrderlyRun(s, run) && Quiet(Final(s, run)) && d < |Final(s, run).drainers|
    ensures IsRun(Final(s, run), more) && GoesOnWith([], more, d)
    ensures Encoded(s, run) + Encoded(Final(s, run), more) == Accepted(s, run)
  {
    hide Init, Inv, IsRun, OrderlyRun, Final, Encoded, Accepted, Quiet, GoesOnWith;
    InitInv(s);
    NoHistoryYet(s);
    RunKeepsInv(s, run);
    HistoryIsFaithful(s, run);
    var t := Final(s, run);
    DeliveredSoFar(t);
    more := OneDrainEmpties(t, d);
    assert t.log[..t.deq] + t.log[t.deq..] == t.log;
    assert Accepted(s, run) == [] + Accepted(s, run) == t.log;
    assert Encoded(s, run) == [] + Encoded(s, run) == t.log[..t.deq];
  }

  lemma NoHistoryYet(s: State)
    requires Init(s)
    ensures s.log == [] && s.delivered == []
  {
  }

  lemma DeliveredSoFar(s: State)
    requires Inv(s)
    ensures 0 <= s.deq <= |s.log| && s.delivered == s.log[..s.deq]
  {
  }

  lemma AllDelivered(s: State, t: State, out: seq<Item>)
    requires Inv(s) && Inv(t) && t.log == s.log && t.deq == t.enq && t.delivered == s.delivered + out
    ensures out == s.log[s.deq..]
  {
    assert t.delivered == s.log && s.delivered == s.log[..s.deq];
    assert out == t.delivered[|s.delivered|..];
  }

  // --- When Push() gives up ----------------------------------------------------------------

  predicate StepOf(a: Action, i: nat)
  {
    IsPush(a) && a.i == i
  }

  // A run up to any of its steps.
  lemma {:induction false} RunUpTo(s: State, run: seq<Action>, k: nat)
    requires IsRun(s, run) && k < |run|
    ensures IsRun(s, run[..k]) && IsRun(s, run[..k + 1]) && Enabled(Final(s, run[..k]), run[k])
    ensures Final(s, run[..k + 1]) == Apply(Final(s, run[..k]), run[k])
    ensures OrderlyRun(s, run) ==> OrderlyRun(s, run[..k])
    decreases k
  {
    hide Apply, Enabled, Orderly;
    if k == 0 {
      assert run[..0] == [] && run[..1] == [run[0]] && run[..1][1..] == [];
    } else {
      RunUpTo(Apply(s, run[0]), run[1..], k - 1);
      assert run[..k][1..] == run[1..][..k - 1] && run[..k + 1][1..] == run[1..][..k];
    }
  }

  // Nobody else's step moves a producer, and only a look leaves it having looked.
  lemma WhoLooked(t: State, a: Action, i: nat)
    requires Enabled(t, a) && i < |t.producers| && Apply(t, a).producers[i].Looked?
    ensures |Apply(t, a).producers| == |t.producers|
    ensures StepOf(a, i) ==> a == PushLook(i)
    ensures !StepOf(a, i) ==> Apply(t, a).producers[i] == t.producers[i]
  {
  }

  lemma SameProducers(t: State, a: Action)
    requires Enabled(t, a)
    ensures |Apply(t, a).producers| == |t.producers|
  {
  }

  // What a producer has seen it saw at its last look, and it has done nothing since.
  lemma {:induction false} LastLook(s: State, run: seq<Action>, k: nat, i: nat) returns (j: nat)
    requires Init(s) && IsRun(s, run) && k <= |run| && IsRun(s, run[..k])
    requires i < |Final(s, run[..k]).producers| && Final(s, run[..k]).producers[i].Looked?
    ensures j < k && run[j] == PushLook(i) && forall m | j < m < k :: !StepOf(run[m], i)
    ensures IsRun(s, run[..j]) && Enabled(Final(s, run[..j]), PushLook(i))
    ensures Apply(Final(s, run[..j]), PushLook(i)).producers[i] == Final(s, run[..k]).producers[i]
    decreases k
  {
    hide Apply, Enabled, StepOf;
    if k == 0 {
      assert false;
    }
    RunUpTo(s, run, k - 1);
    hide Init, IsRun, Final;
    var t := Final(s, run[..k - 1]);
    SameProducers(t, run[k - 1]);
    WhoLooked(t, run[k - 1], i);
    if StepOf(run[k - 1], i) {
      j := k - 1;
    } else {
      j := LastLook(s, run, k - 1, i);
    }
  }

  predicate FullUp(s: State)
  {
    s.enq - s.Released() == |s.cells|
  }

  // In every orderly run a Push() that gives up did so on a look, its own last step before, at a moment
  // when exactly `capacity` positions were claimed and not handed back.
  lemma GivesUpOnlyWhenFull(s: State, run: seq<Action>, k: nat, i: nat) returns (j: nat)
    requires Init(s) && IsRun(s, run) && OrderlyRun(s, run) && k < |run| && run[k] == PushRefuse(i)
    ensures j < k && run[j] == PushLook(i) && forall m | j < m < k :: !StepOf(run[m], i)
    ensures IsRun(s, run[..j]) && FullUp(Final(s, run[..j]))
  {
    RunUpTo(s, run, k);
    hide Init, IsRun, OrderlyRun, Final, Inv;
    RefuserLooked(Final(s, run[..k]), i);
    j := LastLook(s, run, k, i);
    RunUpTo(s, run, j);
    InitInv(s);
    RunKeepsInv(s, run[..j]);
    LookFoundFull(Final(s, run[..j]), i);
  }

  lemma RefuserLooked(t: State, i: nat)
    requires Enabled(t, PushRefuse(i))
    ensures i < |t.producers| && t.producers[i].Looked? && t.producers[i].seqno < t.producers[i].pos
  {
  }

  lemma LookFoundFull(t: State, i: nat)
    requires Inv(t) && Enabled(t, PushLook(i))
    requires var q := Apply(t, PushLook(i)).producers[i]; q.Looked? && q.seqno < q.pos
    ensures FullUp(t)
  {
    RefusesExactlyWhenFull(t, i);
  }

  // --- When Push() wakes -------------------------------------------------------------------

  predicate HasSampled(q: Producer)
  {
    q.Sampled? || q.Stored? || q.Published?
  }

  lemma WhoSampled(t: State, a: Action, i: nat)
    requires Enabled(t, a) && i < |t.producers| && HasSampled(Apply(t, a).producers[i])
    ensures |Apply(t, a).producers| == |t.producers|
    ensures a == PushSample(i) ==>
              t.producers[i].Claimed? && Apply(t, a).producers[i].pos == t.producers[i].pos
              && Apply(t, a).producers[i].queued == t.producers[i].pos - t.deq
    ensures a != PushSample(i) ==>
              && HasSampled(t.producers[i]) && Apply(t, a).producers[i].pos == t.producers[i].pos
              && Apply(t, a).producers[i].queued == t.producers[i].queued
  {
  }

  // How many were queued ahead, as a producer remembers it, is how many there were when it looked.
  lemma {:induction false} LastSample(s: State, run: seq<Action>, k: nat, i: nat) returns (j: nat)
    requires Init(s) && IsRun(s, run) && k <= |run| && IsRun(s, run[..k])
    requires i < |Final(s, run[..k]).producers| && HasSampled(Final(s, run[..k]).producers[i])
    ensures j < k && run[j] == PushSample(i) && IsRun(s, run[..j])
    ensures i < |Final(s, run[..j]).producers| && Final(s, run[..j]).producers[i].Claimed?
    ensures var at, now := Final(s, run[..j]), Final(s, run[..k]).producers[i];
            now.pos == at.producers[i].pos && now.queued == now.pos - at.deq
    decreases k
  {
    hide Apply, Enabled, HasSampled;
    if k == 0 {
      NobodySampled(s, i);
      assert false;
    }
    RunUpTo(s, run, k - 1);
    hide Init, IsRun, Final;
    var t := Final(s, run[..k - 1]);
    SameProducers(t, run[k - 1]);
    WhoSampled(t, run[k - 1], i);
    if run[k - 1] == PushSample(i) {
      j := k - 1;
    } else {
      j := LastSample(s, run, k - 1, i);
    }
  }

  lemma NobodySampled(s: State, i: nat)
    requires Init(s) && i < |s.producers|
    ensures !HasSampled(s.producers[i])
  {
  }

  // In every run a Push() that returns wakes the drain exactly if its item was the oldest there when it
  // looked, that is, if the queue had been idle.
  lemma WakesOnTheIdleEdge(s: State, run: seq<Action>, k: nat, i: nat) returns (j: nat)
    requires Init(s) && IsRun(s, run) && k < |run| && run[k] == PushDone(i)
    ensures j < k && run[j] == PushSample(i) && IsRun(s, run[..j]) && IsRun(s, run[..k]) && IsRun(s, run[..k + 1])
    ensures i < |Final(s, run[..j]).producers| && Final(s, run[..j]).producers[i].Claimed?
    ensures var at := Final(s, run[..j]);
            Final(s, run[..k + 1]).woken == (Final(s, run[..k]).woken || at.producers[i].pos == at.deq)
  {
    RunUpTo(s, run, k);
    hide Init, IsRun, Final;
    DoneHasSampled(Final(s, run[..k]), i);
    j := LastSample(s, run, k, i);
  }

  lemma DoneHasSampled(t: State, i: nat)
    requires Enabled(t, PushDone(i))
    ensures i < |t.producers| && HasSampled(t.producers[i])
    ensures Apply(t, PushDone(i)).woken == (t.woken || t.producers[i].queued == 0)
  {
  }

  // --- A Push() with room ------------------------------------------------------------------

  // Inside Push(), not yet in, with nothing that would make it give up.
  predicate Trying(s: State, i: nat, item: Item)
  {
    && Inv(s) && i < |s.producers| && s.enq < s.Released() + |s.cells|
    && (var q := s.producers[i];
        (q.Positioned? || (q.Looked? && q.seqno >= q.pos)) && q.item == item)
  }

  predicate GotIn(s: State, i: nat)
  {
    && Inv(s) && i < |s.producers|
    && (var q := s.producers[i]; q.Claimed? || q.Sampled? || q.Stored? || q.Published? || q.Idle?)
  }

  // Steps of this producer's Push() and nobody else's.
  predicate AloneInPush(run: seq<Action>, i: nat)
  {
    forall k | 0 <= k < |run| :: StepOf(run[k], i) && !run[k].PushBegin?
  }

  lemma TryingStep(s: State, a: Action, i: nat, item: Item)
    requires Trying(s, i, item) && Enabled(s, a) && StepOf(a, i)
    ensures !a.PushRefuse? && !a.DrainAdvance?
    ensures if a.PushClaim? then GotIn(Apply(s, a), i) && s.producers[i].item == item else Trying(Apply(s, a), i, item)
  {
    StepKeepsInv(s, a);
    if a.PushLook? {
      assert ProducerOk(s, i);
      LookTells(s, s.producers[i].pos);
    }
    hide Inv;
    var t := Apply(s, a);
    assert t.Released() == s.Released() && |t.cells| == |s.cells|;
  }

  lemma GotInStep(s: State, a: Action, i: nat)
    requires GotIn(s, i) && Enabled(s, a) && StepOf(a, i) && !a.PushBegin?
    ensures GotIn(Apply(s, a), i) && !a.PushClaim? && !a.PushRefuse?
  {
    StepKeepsInv(s, a);
    hide Inv;
  }

  lemma {:induction false} NothingMore(s: State, run: seq<Action>, i: nat)
    requires GotIn(s, i) && IsRun(s, run) && AloneInPush(run, i)
    ensures Accepted(s, run) == [] && GotIn(Final(s, run), i) && forall k | 0 <= k < |run| :: !run[k].PushRefuse?
    decreases |run|
  {
    if run != [] {
      hide GotIn, Apply, Enabled, StepOf;
      GotInStep(s, run[0], i);
      NothingMore(Apply(s, run[0]), run[1..], i);
      assert run == [run[0]] + run[1..];
    }
  }

  // A Push() alone on a ring with room never gives up, however stale the cursor it set out with; and when
  // it has returned, its item was accepted, once.
  lemma {:induction false} AloneGetsIn(s: State, run: seq<Action>, i: nat, item: Item)
    requires Trying(s, i, item) && IsRun(s, run) && AloneInPush(run, i)
    ensures forall k | 0 <= k < |run| :: !run[k].PushRefuse?
    ensures if Accepted(s, run) == [] then Trying(Final(s, run), i, item)
            else Accepted(s, run) == [item] && GotIn(Final(s, run), i)
    decreases |run|
  {
    if run != [] {
      hide GotIn, Trying, Apply, Enabled, StepOf;
      TryingStep(s, run[0], i, item);
      var t := Apply(s, run[0]);
      if run[0].PushClaim? {
        NothingMore(t, run[1..], i);
      } else {
        AloneGetsIn(t, run[1..], i, item);
      }
      assert run == [run[0]] + run[1..];
    }
  }

  lemma PushSetsOut(s: State, i: nat, item: Item)
    requires Inv(s) && i < |s.producers| && s.producers[i].Idle? && s.enq < s.Released() + |s.cells|
    ensures Enabled(s, PushBegin(i, item)) && Trying(Apply(s, PushBegin(i, item)), i, item)
  {
    StepKeepsInv(s, PushBegin(i, item));
  }

  // Of a producer's next step there is no choice but whether the compare-exchange succeeds; the weak one
  // may fail though nobody interfered.
  lemma ProducerChoice(s: State, a: Action, b: Action)
    requires Enabled(s, a) && Enabled(s, b) && IsPush(a) && IsPush(b) && a.i == b.i && a != b && !a.PushBegin?
    ensures (a.PushClaim? && b.PushRetry?) || (a.PushRetry? && b.PushClaim?)
  {
  }

  // And from wherever it is, it can return with its item accepted.
  lemma AloneCanFinish(s: State, i: nat, item: Item) returns (run: seq<Action>)
    requires Trying(s, i, item)
    ensures IsRun(s, run) && AloneInPush(run, i) && Accepted(s, run) == [item]
    ensures i < |Final(s, run).producers| && Final(s, run).producers[i].Idle?
  {
    hide Leads, Inv, IsRun, Final, Accepted, AloneInPush;
    Start(s, true);
    Room(s);
    var t;
    run, t := ReachLook(s, i, item);
    run, t := BackToCursor(s, run, t, i, item);
    run, t := FromCursor(s, run, t, i, item);
    HistoryOf(s, run, t, true);
    LeadsTo(s, run, t);
    assert s.log + Accepted(s, run) == s.log + [item];
    assert Accepted(s, run) == (s.log + Accepted(s, run))[|s.log|..];
  }

  lemma LeadsTo(s: State, run: seq<Action>, t: State)
    requires Leads(s, run, t, true)
    ensures IsRun(s, run) && Final(s, run) == t
  {
  }

  lemma Room(s: State)
    requires Inv(s) && s.enq < s.Released() + |s.cells|
    ensures s.Sane() && s.At(s.enq).seqno == s.enq
  {
    assert CellOk(s, s.enq);
  }

  lemma AndOneMore(run: seq<Action>, a: Action, i: nat)
    requires AloneInPush(run, i) && StepOf(a, i) && !a.PushBegin?
    ensures AloneInPush(run + [a], i)
  {
  }

  lemma NoneOfIt(i: nat)
    ensures AloneInPush([], i)
  {
  }

  // To a look, if it has not looked.
  lemma ReachLook(s: State, i: nat, item: Item) returns (run: seq<Action>, t: State)
    requires Trying(s, i, item) && s.Sane()
    ensures Leads(s, run, t, true) && AloneInPush(run, i) && i < |s.producers| == |t.producers|
    ensures t == s.WithProducer(i, t.producers[i]) && t.producers[i].Looked? && t.producers[i].seqno >= t.producers[i].pos
    ensures t.producers[i].item == item
  {
    NoneOfIt(i);
    hide Leads, AloneInPush;
    Start(s, true);
    run, t := [], s;
    if s.producers[i].Positioned? {
      assert ProducerOk(s, i);
      TryingStep(s, PushLook(i), i, item);
      hide Inv;
      run, t := Then(s, [], s, PushLook(i), true);
      AndOneMore([], PushLook(i), i);
    }
    assert t.producers == s.producers[i := t.producers[i]];
  }

  // Whatever it saw, it may have to go back to the cursor.
  lemma BackToCursor(s: State, start: seq<Action>, t: State, i: nat, item: Item) returns (run: seq<Action>, u: State)
    requires Leads(s, start, t, true) && AloneInPush(start, i) && t.Sane() && i < |t.producers|
    requires t.producers[i].Looked? && t.producers[i].seqno >= t.producers[i].pos && t.producers[i].item == item
    ensures Leads(s, run, u, true) && AloneInPush(run, i) && u == t.WithProducer(i, Positioned(item, t.enq))
  {
    hide Leads, AloneInPush;
    run, u := Then(s, start, t, PushRetry(i), true);
    AndOneMore(start, PushRetry(i), i);
  }

  lemma FromCursor(s: State, start: seq<Action>, t: State, i: nat, item: Item) returns (run: seq<Action>, u: State)
    requires Leads(s, start, t, true) && AloneInPush(start, i) && t.Sane() && i < |t.producers|
    requires t.producers[i] == Positioned(item, t.enq) && t.At(t.enq).seqno == t.enq
    ensures Leads(s, run, u, true) && AloneInPush(run, i)
    ensures u.log == t.log + [item] && u.delivered == t.delivered && |u.producers| == |t.producers| && u.producers[i].Idle?
  {
    hide Leads, AloneInPush;
    var mid;
    mid, u := Then(s, start, t, PushLook(i), true);
    AndOneMore(start, PushLook(i), i);
    run, u := Then(s, mid, u, PushClaim(i), true);
    AndOneMore(mid, PushClaim(i), i);
    run, u := Fill(s, run, u, i);
  }

  lemma Fill(s: State, start: seq<Action>, t: State, i: nat) returns (run: seq<Action>, u: State)
    requires Leads(s, start, t, true) && AloneInPush(start, i) && t.Sane() && i < |t.producers|
    requires t.producers[i].Claimed? && 0 <= t.producers[i].pos
    ensures Leads(s, run, u, true) && AloneInPush(run, i)
    ensures u.log == t.log && u.delivered == t.delivered && |u.producers| == |t.producers| && u.producers[i].Idle?
  {
    hide Leads, AloneInPush;
    var a, b, c;
    a, u := Then(s, start, t, PushSample(i), true);
    AndOneMore(start, PushSample(i), i);
    b, u := Then(s, a, u, PushStore(i), true);
    AndOneMore(a, PushStore(i), i);
    c, u := Then(s, b, u, PushPublish(i), true);
    AndOneMore(b, PushPublish(i), i);
    run, u := Then(s, c, u, PushDone(i), true);
    AndOneMore(c, PushDone(i), i);
  }

  // --- A cursor left behind ----------------------------------------------------------------

  // A ring of two after k items went through it, all pushed by the second of two producers while the
  // first has done no more than load the write cursor.
  predicate WentThrough(t: State, k: nat)
  {
    && t.enq == k && t.deq == k && |t.cells| == 2
    && t.producers == [Positioned(0, 0), Idle] && t.drainers == [Holding]
    && t.At(k).seqno == k && t.At(k + 1).seqno == k + 1
  }

  lemma OneMore(s: State, start: seq<Action>, t: State, k: nat) returns (run: seq<Action>, u: State)
    requires Leads(s, start, t, true) && WentThrough(t, k)
    ensures Leads(s, run, u, true) && WentThrough(u, k + 1)
  {
    hide Leads;
    run, u := PushOne(s, start, t, 1, 0, true);
    run, u := Then(s, run, u, DrainLoad(0), true);
    run, u := TakeOne(s, run, u, 0, true);
    SlotsDiffer(k, k + 1, 2);
    assert Slot(k + 2, 2) == Slot(k, 2);
    assert u.drainers == [Holding];
  }

  lemma {:induction false} ManyMore(s: State, k: nat) returns (run: seq<Action>, t: State)
    requires s == State(0, 0, [Cell(0, 0), Cell(1, 0)], [Idle, Idle], [Away], None, [], [], [], false)
    ensures Leads(s, run, t, true) && WentThrough(t, k)
  {
    if k == 0 {
      Start(s, true);
      run, t := Then(s, [], s, PushBegin(0, 0), true);
      run, t := Then(s, run, t, DrainWin(0), true);
    } else {
      run, t := ManyMore(s, k - 1);
      run, t := OneMore(s, run, t, k - 1);
    }
  }

  // A cursor stale by less than half a word need not be judged right: a ring of two through which
  // 2^63 - 1 items went, now empty, looks full to a producer whose cursor is still at the start.
  lemma StaleCursorMisjudges() returns (s: State, run: seq<Action>)
    ensures Init(s) && IsRun(s, run) && OrderlyRun(s, run) && Inv(Final(s, run))
    ensures var t := Final(s, run);
            && |t.producers| == 2 && t.producers[0] == Positioned(0, 0)
            && PowerOfTwo(|t.cells|) && t.enq < HALF && t.deq == t.enq
            && var q := Looked(0, 0, t.At(0).seqno);
               && Apply(t, PushLook(0)).producers[0] == q && 0 <= q.seqno
               && WordVerdict(q.seqno % WORD, q.pos % WORD) == Full && PositionVerdict(q.seqno, q.pos) == Retry
  {
    s := State(0, 0, [Cell(0, 0), Cell(1, 0)], [Idle, Idle], [Away], None, [], [], [], false);
    var t;
    run, t := ManyMore(s, HALF - 1);
    InitInv(s);
    RunKeepsInv(s, run);
    hide IsRun, OrderlyRun, Final, Inv;
    assert PowerOfTwo(2) by { assert PowerOfTwo(1); }
    assert t.At(0) == t.At(HALF) by { SlotIsRemainder(HALF, 2); }
  }

  // --- A store that comes too late ---------------------------------------------------------

  // One thread has loaded the cursor of the still empty queue in Empty() and not stored it.
  lemma HeadLoadedEarly(s: State, orderly: bool) returns (run: seq<Action>, t: State)
    requires s == State(0, 0, [Cell(0, 0), Cell(1, 0)], [Idle], [Away, Away], None, [], [], [], false)
    ensures Leads(s, run, t, orderly) && t == s.(drainers := [HeadLoaded(0), Away])
  {
    hide Leads;
    Start(s, orderly);
    run, t := Then(s, [], s, DrainWin(0), orderly);
    run, t := FindNone(s, run, t, 0, orderly);
    assert t.drainers == [HeadLoaded(0), Away];
  }

  // The race is reachable: one producer, two draining threads, a ring of two. The slow thread
  // loads the cursor of the still empty queue; an item is pushed; the fast thread takes it.
  lemma RaceIsReachable(item: Item) returns (s: State, run: seq<Action>)
    ensures Init(s) && IsRun(s, run) && OrderlyRun(s, run)
    ensures var t := Final(s, run); |t.drainers| == 2 && t.drainers[0].HeadLoaded? && t.drainers[1].Freed? && HeadsCurrent(t)
  {
    s := State(0, 0, [Cell(0, 0), Cell(1, 0)], [Idle], [Away, Away], None, [], [], [], false);
    hide IsRun, OrderlyRun, Final;
    var t;
    run, t := HeadLoadedEarly(s, true);
    run, t := PushOne(s, run, t, 0, item, true);
    assert t.cells[0] == Cell(1, item);
    run, t := Then(s, run, t, DrainWin(1), true);
    run, t := Then(s, run, t, DrainLoad(1), true);
    run, t := FreeOne(s, run, t, 1, true);
  }

  // --- A slot handed out twice -------------------------------------------------------------

  lemma TwoPushed(s: State, start: seq<Action>, t: State, first: Item, second: Item) returns (run: seq<Action>, u: State)
    requires t == State(0, 0, [Cell(0, 0), Cell(1, 0)], [Idle], [HeadLoaded(0), Away], None, [], [], [], false)
    requires Leads(s, start, t, false)
    ensures Leads(s, run, u, false)
    ensures u == State(2, 0, [Cell(1, first), Cell(2, second)], [Idle], [HeadLoaded(0), Away], None,
                       [first, second], [0, 0], [], true)
  {
    hide Leads;
    run, u := PushOne(s, start, t, 0, first, false);
    assert u.cells == [Cell(1, first), Cell(1, 0)];
    run, u := PushOne(s, run, u, 0, second, false);
    assert u.cells == [Cell(1, first), Cell(2, second)] && u.log == [first, second] && u.claimants == [0, 0];
  }

  // The second thread takes the first item and loads the cursor; the first puts it back to where it
  // was; the second takes the second item and hands its slot back one lap too early.
  lemma TwoTaken(s: State, start: seq<Action>, t: State, first: Item, second: Item) returns (run: seq<Action>, u: State)
    requires t == State(2, 0, [Cell(1, first), Cell(2, second)], [Idle], [HeadLoaded(0), Away], None,
                        [first, second], [0, 0], [], true)
    requires Leads(s, start, t, false)
    ensures Leads(s, run, u, false)
    ensures u == State(2, 1, [Cell(2, first), Cell(2, second)], [Idle], [HeadStored(0), Holding], Some(1),
                       [first, second], [0, 0], [first, second], false)
  {
    hide Leads;
    run, u := Then(s, start, t, DrainWin(1), false);
    run, u := Then(s, run, u, DrainLoad(1), false);
    run, u := TakeOne(s, run, u, 1, false);
    assert u.cells == [Cell(2, first), Cell(2, second)] && u.drainers == [HeadLoaded(0), Holding];
    run, u := Then(s, run, u, DrainLoad(1), false);
    run, u := Then(s, run, u, EmptyStore(0), false);
    assert u.drainers == [HeadStored(0), Cursored(1)];
    run, u := TakeOne(s, run, u, 1, false);
    assert u.cells == [Cell(2, first), Cell(2, second)] && u.drainers == [HeadStored(0), Holding];
  }

  lemma TakenAgain(s: State, start: seq<Action>, t: State, first: Item, second: Item) returns (run: seq<Action>, u: State)
    requires t == State(2, 1, [Cell(2, first), Cell(2, second)], [Idle], [HeadStored(0), Holding], Some(1),
                        [first, second], [0, 0], [first, second], false)
    requires Leads(s, start, t, false)
    ensures Leads(s, run, u, false) && u.log == [first, second] && u.delivered == [first, second, second]
  {
    hide Leads;
    run, u := Then(s, start, t, DrainLoad(1), false);
    run, u := TakeOne(s, run, u, 1, false);
  }

  // The other failure: the cursor put back between NextReadable()'s two loads. The holder hands the
  // slot back under the wrong lap, finds it readable once more, and delivers three items of two. (In
  // the code the value was moved out by then, so the third is an empty one.)
  lemma MoreOutThanIn(first: Item, second: Item) returns (s: State, run: seq<Action>)
    ensures Init(s) && IsRun(s, run)
    ensures Accepted(s, run) == [first, second] && Encoded(s, run) == [first, second, second]
  {
    s := State(0, 0, [Cell(0, 0), Cell(1, 0)], [Idle], [Away, Away], None, [], [], [], false);
    hide Leads, IsRun, Accepted, Encoded;
    var t;
    run, t := HeadLoadedEarly(s, false);
    run, t := TwoPushed(s, run, t, first, second);
    run, t := TwoTaken(s, run, t, first, second);
    run, t := TakenAgain(s, run, t, first, second);
    HistoryOf(s, run, t, false);
  }
}
