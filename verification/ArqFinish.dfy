/**
 * How a connection ends: once everything is delivered, resent copies and their acknowledgements empty the sender;
 * and once both senders are empty, the two CLOSE_READs and their acknowledgements close both sides.
 */
module ArqFinish {
  import opened SeqNum
  import opened ArqTerm
  import opened ArqTermProofs
  import opened ArqState
  import opened ArqRuns
  import opened ArqCompose
  import opened ArqFlow
  import opened ArqLink
  import opened ArqTransport
  import opened ArqDelivery
  import opened ArqSender
  import opened ArqSenderRuns
  import opened ArqRecovery
  import opened ArqProgress
  import opened ArqEventually
  import opened ArqHandshake

  // ---------------------------------------------------------------------
  // Schedules
  // ---------------------------------------------------------------------

  /** What the schedule is for: freeing what was delivered, or the two-way close. */
  datatype Stage = Acknowledging | Finishing

  /**
   * The moves of each: those that delivery needs and the arrival of acknowledgements; or the end of the local input,
   * CLOSE_READ from the peer, its acknowledgement, and a pass of the write loop.
   */
  predicate Allowed(stage: Stage, act: Action) {
    match stage
    case Acknowledging => Ordinary(act) || act.AckArrives?
    case Finishing =>
      act.Own?
      && (act.ev.EvReadEOF? || act.ev.EvCloseReadReceived? || act.ev == EvControlAck(CloseRead) || act.ev.EvDrain?)
  }

  ghost predicate Leads(stage: Stage, c: Connection, moves: seq<Move>, now: int, d: Connection) {
    && Possible(c, moves) && Outcome(c, moves) == d
    && forall i :: 0 <= i < |moves| ==> moves[i].now == now && Allowed(stage, moves[i].act)
  }

  lemma LeadsNowhere(stage: Stage, c: Connection, now: int)
    ensures Leads(stage, c, [], now, c)
  {
  }

  lemma LeadsOn(stage: Stage, c: Connection, mv: Move, d: Connection, moves: seq<Move>, now: int, e: Connection)
    requires Goes(c, mv, d) && mv.now == now && Allowed(stage, mv.act) && Leads(stage, d, moves, now, e)
    ensures Leads(stage, c, [mv] + moves, now, e)
  {
    assert ([mv] + moves)[1..] == moves;
  }

  /** The first move of a schedule and the rest of it. */
  lemma LeadsFirst(stage: Stage, c: Connection, moves: seq<Move>, now: int, d: Connection) returns (e: Connection)
    requires Leads(stage, c, moves, now, d) && moves != []
    ensures Goes(c, moves[0], e) && moves[0].now == now && Allowed(stage, moves[0].act)
    ensures Leads(stage, e, moves[1..], now, d)
  {
    e := Next(c, moves[0]);
  }

  lemma {:induction false} LeadsThen(stage: Stage, c: Connection, first: seq<Move>, d: Connection, rest: seq<Move>,
                                     now: int, e: Connection)
    requires Leads(stage, c, first, now, d) && Leads(stage, d, rest, now, e)
    ensures Leads(stage, c, first + rest, now, e)
    decreases |first|
  {
    if first == [] {
      assert d == c && first + rest == rest;
    } else {
      var c1 := LeadsFirst(stage, c, first, now, d);
      LeadsThen(stage, c1, first[1..], d, rest, now, e);
      LeadsOn(stage, c, first[0], c1, first[1..] + rest, now, e);
      Regroup(first, rest);
    }
  }

  lemma Regroup(first: seq<Move>, rest: seq<Move>)
    requires first != []
    ensures [first[0]] + (first[1..] + rest) == first + rest
  {
  }

  /** A schedule of a delivery is one of these. */
  lemma ReachesLeads(c: Connection, moves: seq<Move>, now: int, d: Connection)
    requires Reaches(c, moves, now, d)
    ensures Leads(Acknowledging, c, moves, now, d)
  {
  }

  // ---------------------------------------------------------------------
  // One chunk is acknowledged
  // ---------------------------------------------------------------------

  /** Acknowledging a chunk while others are held only takes it out. */
  lemma AckFreesOne(x: Endpoint, sn: u16, other: u16, now: int)
    requires Good(x) && sn in x.s.buf && other in x.s.buf && other != sn
    requires DeferredClose in x.t.flags ==> now <= x.t.deferredDeadline
    ensures ReceiveAck(x, sn, now) == x.(t := Active(x.t, now), s := Acknowledge(x.cfg, x.s, sn, now))
  {
    var x1 := x.(t := Active(x.t, now), s := Acknowledge(x.cfg, x.s, sn, now));
    assert other in x1.s.buf;
    EmptiesMembers(x.s, x.r);
    EmptiesMembers(x1.s, x1.r);
    SelfMove(x1);
    assert TryFinalizeRemoteEOF(x.cfg, MachineOf(x1)) == MachineOf(x1);
    assert Settle(x.cfg, MachineOf(x1), now) == MachineOf(x1);
  }

  /** Acknowledging the last one leaves none. */
  lemma AckFreesLast(x: Endpoint, sn: u16, now: int)
    requires x.s.buf.Keys == {sn}
    ensures ReceiveAck(x, sn, now).s.buf == map[] && ReceiveAck(x, sn, now).h == x.h
  {
    var x1 := x.(t := Active(x.t, now), s := Acknowledge(x.cfg, x.s, sn, now));
    assert x1.s.buf == map[];
  }

  // ---------------------------------------------------------------------
  // All of them are
  // ---------------------------------------------------------------------

  /** How far a chunk lies behind what was read. */
  function Age(x: Endpoint, sn: u16): int {
    |x.h.input| - SentIndex(|x.h.input|, sn)
  }

  /** Every chunk still held is queued and at most 32768 behind: a copy from farther back is no longer acknowledged. */
  ghost predicate Freeable(x: Endpoint, now: int) {
    && (x.s.buf != map[] ==> !Flushed(x.t) && (DeferredClose in x.t.flags ==> now <= x.t.deferredDeadline))
    && AllQueued(x.s) && forall sn :: sn in x.s.buf ==> Age(x, sn) <= HALF
  }

  /** Everything read is delivered; what is held is only waiting for its acknowledgement. */
  ghost predicate Acknowledgeable(c: Connection, now: int) {
    GoesOn(c) && now > 0 && c.b.h.taken == |c.a.h.input| && Freeable(c.a, now)
  }

  lemma GoesAck(c: Connection, ack: Tag, now: int)
    requires now > 0 && ack in c.ab.acks && |c.a.h.input| - ack.i <= MODULUS
    ensures Goes(c, Move(true, AckArrives(ack), now), c.(a := ReceiveAck(c.a, ack.sn, now)))
  {
    var act: Action := AckArrives(ack);
    assert EventOf(c.ba, act) == EvAck(ack.sn) && MayAct(c.a, c.b, c.ab, c.ba, act);
    StepIsAck(c.a, ack.sn, now);
  }

  lemma StepIsAck(e: Endpoint, sn: u16, now: int)
    ensures Enabled(e, EvAck(sn)) && Step(e, EvAck(sn), now) == ReceiveAck(e, sn, now)
  {
  }

  /** A copy of a taken chunk that is alone in the channel is acknowledged, and changes nothing else. */
  lemma OldCopyIsAcked(y: Endpoint, copy: Copy, now: int)
    requires Good(y) && Receiving(y.t) && y.r.nxt == Wrap(y.h.taken) && y.cfg.window < HALF
    requires 0 < y.h.taken - copy.i <= HALF && copy.sn == Wrap(copy.i)
    ensures AcksOf(y, [copy]) == {Tag(copy.i, copy.sn)}
    ensures var z := ProcessBatch(y, PacketsOf([copy]), now);
            z.r.buf == y.r.buf && z.r.nxt == y.r.nxt && z.r.inWrite == y.r.inWrite && z.h == y.h
            && Receiving(z.t) && z.cfg == y.cfg
  {
    var batch := PacketsOf([copy]);
    SubWrapBehind(copy.i, y.h.taken);
    assert batch[..0] == [] && batch[..|batch| - 1] == [];
    assert VerdictAt(y.cfg.window, y.r.nxt, y.r.buf, batch, 0).Old?;
  }

  /** A copy comes into the empty inbound channel. */
  lemma CopyComesIn(c: Connection, copy: Copy, now: int) returns (d: Connection)
    requires Good(c.b) && Receiving(c.b.t) && c.ab.rx == [] && copy in c.ab.copies && now > 0
    ensures Goes(c, Move(false, Arrives(copy, true), now), d) && d.ab.rx == [copy] && d.ab.copies == c.ab.copies
    ensures d.a == c.a && Good(d.b) && d.b.t == c.b.t && d.b.h == c.b.h && d.b.cfg == c.b.cfg && d.b.r.nxt == c.b.r.nxt
  {
    d := c.(b := ReceiveData(c.b, true, now), ab := c.ab.(rx := c.ab.rx + [copy]));
    ReceiveDataKeeps(c.b, true, now);
    GoesArrives(c, copy, now);
  }

  /** The copy of an unacknowledged chunk arrives and is acknowledged. */
  lemma CopyArrives(c: Connection, copy: Copy, now: int) returns (moves: seq<Move>, d: Connection)
    requires Good(c.b) && Receiving(c.b.t) && c.b.r.nxt == Wrap(c.b.h.taken) && 0 <= c.b.cfg.window < HALF
    requires c.ab.rx == [] && copy in c.ab.copies && now > 0
    requires 0 < c.b.h.taken - copy.i <= HALF && copy.sn == Wrap(copy.i)
    ensures Reaches(c, moves, now, d) && |moves| == 2
    ensures d.a == c.a && d.ab.rx == [] && Tag(copy.i, copy.sn) in d.ab.acks && d.b.h == c.b.h && Receiving(d.b.t)
  {
    var c1 := CopyComesIn(c, copy, now);
    assert c1.ab.rx[..1] == [copy] && c1.ab.rx[1..] == [];
    OldCopyIsAcked(c1.b, copy, now);
    GoesProcess(c1, 1, now);
    d := c1.(b := ProcessBatch(c1.b, PacketsOf([copy]), now), ab := AfterBatch(c1.b, c1.ab, 1));
    ReachesNowhere(d, now);
    ReachesOn(c1, Move(false, Process(1), now), d, [], now, d);
    ReachesOn(c, Move(false, Arrives(copy, true), now), c1, [Move(false, Process(1), now)] + [], now, d);
    moves := [Move(false, Arrives(copy, true), now)] + ([Move(false, Process(1), now)] + []);
  }

  /** The copy of a held chunk that leaves the queue. */
  lemma PoppedCopy(c: Connection, sn: u16) returns (key: TxKey, copy: Copy)
    requires sn in c.a.s.buf && InQueue(c.a.s.queue, sn) && Age(c.a, sn) <= HALF
    ensures key in c.a.s.queue && key.sn == sn && copy in OutAfter(c.a, c.ab, Own(EvPop(key))).copies
    ensures copy.sn == sn == Wrap(copy.i) && 0 < |c.a.h.input| - copy.i <= HALF
    ensures OutAfter(c.a, c.ab, Own(EvPop(key))).rx == c.ab.rx
  {
    key := KeyOf(c.a.s.queue, sn);
    copy := Copy(SentIndex(|c.a.h.input|, sn), sn, c.a.s.queue[key]);
    LiftSpec(|c.a.h.input| - MODULUS, sn);
  }

  /** A held chunk leaves the queue, arrives, and is acknowledged. */
  lemma ChunkReturns(c: Connection, sn: u16, now: int)
    returns (moves: seq<Move>, d: Connection, key: TxKey, ack: Tag)
    requires Acknowledgeable(c, now) && sn in c.a.s.buf
    ensures Reaches(c, moves, now, d) && |moves| == 3
    ensures key in c.a.s.queue && key.sn == sn && d.a == c.a.(s := Pop(c.a.s, key, now))
    ensures ack in d.ab.acks && ack.sn == sn && |c.a.h.input| - ack.i <= HALF
    ensures d.ab.rx == [] && d.b.h == c.b.h && Receiving(d.b.t)
  {
    var copy;
    key, copy := PoppedCopy(c, sn);
    GoesPop(c, key, now);
    var c1 := c.(a := c.a.(s := Pop(c.a.s, key, now)), ab := OutAfter(c.a, c.ab, Own(EvPop(key))));
    var rest;
    rest, d := CopyArrives(c1, copy, now);
    ReachesOn(c, Move(true, Own(EvPop(key)), now), c1, rest, now, d);
    moves := [Move(true, Own(EvPop(key)), now)] + rest;
    ack := Tag(copy.i, sn);
  }

  lemma GoesIsEstablished(c: Connection, mv: Move, d: Connection)
    requires Established(c) && Goes(c, mv, d)
    ensures Established(d)
  {
    NextIsSound(c, mv);
    NextIsFit(c, mv);
    NextIsReal(c, mv);
  }

  /** Taking one chunk out leaves the others held and queued. */
  lemma OthersStayQueued(cfg: Config, s: Sender, key: TxKey, now: int)
    requires AllQueued(s) && key in s.queue && key.sn in s.buf
    ensures var s1 := Acknowledge(cfg, Pop(s, key, now), key.sn, now);
            AllQueued(s1) && s1.buf.Keys == s.buf.Keys - {key.sn}
  {
    var p := Pop(s, key, now);
    var s1 := Acknowledge(cfg, p, key.sn, now);
    assert p.buf.Keys == s.buf.Keys;
    forall sn | sn in s1.buf ensures InQueue(s1.queue, sn) {
      PopLeaves(s, key, now, sn);
      RemovedFromQueue(p.queue, key.sn, TxKey(Fresh, sn));
      RemovedFromQueue(p.queue, key.sn, TxKey(Resend, sn));
    }
  }

  lemma KeysCount<X, Y>(m: map<X, Y>, n: map<X, Y>, x: X)
    requires x in m && n.Keys == m.Keys - {x}
    ensures |n| == |m| - 1
  {
    assert |n.Keys| == |n| && |m.Keys| == |m|;
  }

  lemma AckedOneOfMore(a: Endpoint, key: TxKey, other: u16, now: int)
    requires Freeable(a, now) && key in a.s.queue && key.sn in a.s.buf && Good(a.(s := Pop(a.s, key, now)))
    requires other in a.s.buf && other != key.sn
    ensures var d := ReceiveAck(a.(s := Pop(a.s, key, now)), key.sn, now);
            Freeable(d, now) && d.s.buf.Keys == a.s.buf.Keys - {key.sn} && d.h == a.h
  {
    AckFreesOne(a.(s := Pop(a.s, key, now)), key.sn, other, now);
    OthersStayQueued(a.cfg, a.s, key, now);
  }

  lemma AckedLast(a: Endpoint, key: TxKey, now: int)
    requires key in a.s.queue && a.s.buf.Keys == {key.sn}
    ensures var d := ReceiveAck(a.(s := Pop(a.s, key, now)), key.sn, now);
            Freeable(d, now) && d.s.buf.Keys == a.s.buf.Keys - {key.sn} && d.h == a.h
  {
    var x := a.(s := Pop(a.s, key, now));
    assert x.s.buf.Keys == {key.sn};
    AckFreesLast(x, key.sn, now);
  }

  /** After the acknowledgement the rest is as before. */
  lemma AckedOne(a: Endpoint, key: TxKey, now: int)
    requires Freeable(a, now) && key in a.s.queue && key.sn in a.s.buf && Good(a.(s := Pop(a.s, key, now)))
    ensures var d := ReceiveAck(a.(s := Pop(a.s, key, now)), key.sn, now);
            Freeable(d, now) && d.s.buf.Keys == a.s.buf.Keys - {key.sn} && d.h == a.h
  {
    if a.s.buf.Keys == {key.sn} {
      AckedLast(a, key, now);
    } else {
      var other :| other in a.s.buf.Keys && other != key.sn;
      AckedOneOfMore(a, key, other, now);
    }
  }

  /** A held chunk returns and its acknowledgement frees it: four moves. */
  lemma FreeOne(c: Connection, now: int) returns (moves: seq<Move>, d: Connection)
    requires Acknowledgeable(c, now) && c.a.s.buf != map[]
    ensures Leads(Acknowledging, c, moves, now, d) && |moves| == 4 && Acknowledgeable(d, now)
    ensures |d.a.s.buf| == |c.a.s.buf| - 1 && d.a.h == c.a.h && d.b.h == c.b.h
  {
    var sn :| sn in c.a.s.buf;
    var first, c1, key, ack := ChunkReturns(c, sn, now);
    var mv := Move(true, AckArrives(ack), now);
    d := c1.(a := ReceiveAck(c1.a, sn, now));
    ReachedIsEstablished(c, first, now, c1);
    AckedOne(c.a, key, now);
    KeysCount(c.a.s.buf, d.a.s.buf, sn);
    GoesAck(c1, ack, now);
    GoesIsEstablished(c1, mv, d);
    LeadsNowhere(Acknowledging, d, now);
    LeadsOn(Acknowledging, c1, mv, d, [], now, d);
    ReachesLeads(c, first, now, c1);
    LeadsThen(Acknowledging, c, first, c1, [mv] + [], now, d);
    moves := first + ([mv] + []);
  }

  /** So four moves a chunk empty the sender. */
  lemma {:induction false} AllAcked(c: Connection, now: int) returns (moves: seq<Move>, d: Connection)
    requires Acknowledgeable(c, now)
    ensures Leads(Acknowledging, c, moves, now, d) && |moves| == 4 * |c.a.s.buf|
    ensures d.a.s.buf == map[] && d.a.h == c.a.h && d.b.h == c.b.h
    decreases |c.a.s.buf|
  {
    LeadsNowhere(Acknowledging, c, now);
    moves, d := [], c;
    if c.a.s.buf != map[] {
      var first, c1 := FreeOne(c, now);
      var rest;
      rest, d := AllAcked(c1, now);
      LeadsThen(Acknowledging, c, first, c1, rest, now, d);
      moves := first + rest;
    }
  }

  /** Everything read is written, so everything was taken. */
  lemma WrittenIsTaken(x: Endpoint, y: Endpoint, w: Wire)
    requires Link(x, y, w) && Receiving(y.t) && y.h.output == x.h.input
    ensures y.h.taken == |x.h.input|
  {
  }

  /** No chunk still unacknowledged is more than 32768 behind. */
  predicate Recent(x: Endpoint) {
    forall sn :: sn in x.s.buf ==> Age(x, sn) <= HALF
  }

  /**
   * Toward `b` everything is delivered, and the instant is late enough: its receive side is in use, and the peer's
   * send side goes on and has no chunk from too far back.
   */
  ghost predicate AllWritten(c: Connection, now: int) {
    Ripe(c, now) && Survives(c.a, now) && Recent(c.a) && c.b.h.output == c.a.h.input
  }

  /** A tick, the copies, their acknowledgements: nothing stays unacknowledged. */
  lemma Acknowledges(c: Connection, now: int, order: seq<Kind>) returns (moves: seq<Move>, d: Connection)
    requires Established(c) && AllWritten(c, now) && Walks(order, c.a.c.tracked)
    ensures Leads(Acknowledging, c, moves, now, d) && |moves| <= 4 * |c.a.s.buf| + 2
    ensures d.a.s.buf == map[] && d.a.h == c.a.h && d.b.h == c.b.h
  {
    WrittenIsTaken(c.a, c.b, c.ab);
    var first, c1 := EmptyChannel(c, now);
    var second, c2 := QueueAll(c1, now, order);
    assert |c2.a.s.buf.Keys| == |c2.a.s.buf| && |c.a.s.buf.Keys| == |c.a.s.buf|;
    var rest;
    rest, d := AllAcked(c2, now);
    ReachesLeads(c1, second, now, c2);
    LeadsThen(Acknowledging, c1, second, c2, rest, now, d);
    ReachesLeads(c, first, now, c1);
    LeadsThen(Acknowledging, c, first, c1, second + rest, now, d);
    moves := first + (second + rest);
  }

  lemma {:induction false} LeadsMirrored(stage: Stage, c: Connection, moves: seq<Move>, now: int, d: Connection)
    requires Leads(stage, c, moves, now, d)
    ensures Leads(stage, Mirror(c), Mirrored(moves), now, Mirror(d))
    decreases |moves|
  {
    if moves == [] {
      LeadsNowhere(stage, Mirror(c), now);
    } else {
      var e := LeadsFirst(stage, c, moves, now, d);
      GoesMirrored(c, moves[0], e);
      LeadsMirrored(stage, e, moves[1..], now, d);
      LeadsOn(stage, Mirror(c), moves[0].(byA := !moves[0].byA), Mirror(e), Mirrored(moves[1..]), now, Mirror(d));
    }
  }

  lemma AcknowledgesBack(c: Connection, now: int, order: seq<Kind>) returns (moves: seq<Move>, e: Connection)
    requires Established(c) && AllWritten(Mirror(c), now) && Walks(order, c.b.c.tracked)
    ensures Leads(Acknowledging, c, moves, now, e) && |moves| <= 4 * |c.b.s.buf| + 2
    ensures e.b.s.buf == map[] && e.b.h == c.b.h && e.a.h == c.a.h
  {
    EstablishedMirrored(c);
    var there, d := Acknowledges(Mirror(c), now, order);
    LeadsMirrored(Acknowledging, Mirror(c), there, now, d);
    moves, e := Mirrored(there), Mirror(d);
  }

  /**
   * In every run of a connection, for either direction: once everything read is delivered, a schedule in which every
   * chunk still unacknowledged is sent again, arrives, is acknowledged, and the acknowledgement arrives, empties the
   * sender, whatever acknowledgements were lost before.
   */
  lemma DeliveredIsAcknowledged(a: Config, b: Config, start: int, run: seq<Move>, c: Connection, now: int,
                                orderA: seq<Kind>, orderB: seq<Kind>)
    returns (toA: seq<Move>, d: Connection, toB: seq<Move>, e: Connection)
    requires Compatible(a, b) && Possible(Opened(a, b, start), run) && c == Outcome(Opened(a, b, start), run)
    requires Walks(orderA, c.a.c.tracked) && Walks(orderB, c.b.c.tracked)
    ensures AllWritten(c, now) ==>
              Leads(Acknowledging, c, toA, now, d) && |toA| <= 4 * |c.a.s.buf| + 2 && d.a.s.buf == map[]
              && d.a.h == c.a.h && d.b.h == c.b.h
    ensures AllWritten(Mirror(c), now) ==>
              Leads(Acknowledging, c, toB, now, e) && |toB| <= 4 * |c.b.s.buf| + 2 && e.b.s.buf == map[]
              && e.a.h == c.a.h && e.b.h == c.b.h
  {
    OpenedIsEstablished(a, b, start);
    RunIsEstablished(Opened(a, b, start), run);
    toA, d, toB, e := [], c, [], c;
    if AllWritten(c, now) { toA, d := Acknowledges(c, now, orderA); }
    if AllWritten(Mirror(c), now) { toB, e := AcknowledgesBack(c, now, orderB); }
  }

  // ---------------------------------------------------------------------
  // Both sides close
  // ---------------------------------------------------------------------

  /** A step of an endpoint's own that hands no copy to the network. */
  lemma GoesOwn(c: Connection, ev: Event, now: int, f: Endpoint)
    requires now > 0 && Enabled(c.a, ev) && f == Step(c.a, ev, now)
    requires !Foreign(ev) && !ev.EvPop? && !ev.EvRead? && (ev.EvCloseReadReceived? ==> CloseReadSent in c.b.t.flags)
    ensures Goes(c, Move(true, Own(ev), now), c.(a := f))
  {
    var act: Action := Own(ev);
    assert EventOf(c.ba, act) == ev && MayAct(c.a, c.b, c.ab, c.ba, act);
  }

  lemma StepIsClosing(e: Endpoint, ev: Event, now: int)
    requires Enabled(e, ev)
    ensures ev.EvReadEOF? ==> Step(e, ev, now) == ReadEOF(e, now)
    ensures ev.EvCloseReadReceived? ==> Step(e, ev, now) == Moved(e, MarkCloseReadReceived(e.cfg, MachineOf(e)))
    ensures ev == EvControlAck(CloseRead) ==>
              Step(e, ev, now) == Moved(e, ReceiveControlAck(e.cfg, MachineOf(e), CloseRead, now))
    ensures ev.EvDrain? ==> Step(e, ev, now) == Drain(e)
  {
  }

  /** What an endpoint does next to get its close beyond stage `k`, if anything is missing. */
  function NextClosing(e: Endpoint, k: nat): (ev: Event)
    requires k < 4
    ensures Allowed(Finishing, Own(ev))
  {
    if k == 0 then EvReadEOF
    else if k == 1 then EvCloseReadReceived
    else if k == 2 then EvControlAck(CloseRead)
    else EvDrain
  }

  /** Whether the endpoint is at the next stage already. */
  predicate Passed(e: Endpoint, k: nat) {
    IsClosed in e.t.flags || (k == 0 && CloseReadSent in e.t.flags) || (k == 1 && CloseReadReceived in e.t.flags)
    || (k == 2 && BothEndsRead(e.t))
  }

  /** One step of one endpoint, or none. */
  lemma AdvanceEndpoint(e: Endpoint, k: nat, now: int)
    requires Closes(e, k) && k < 4 && now > 0
    ensures Passed(e, k) ==> Closes(e, k + 1)
    ensures !Passed(e, k) ==>
              Enabled(e, NextClosing(e, k)) && Closes(Step(e, NextClosing(e, k), now), k + 1)
              && Step(e, NextClosing(e, k), now).h == e.h
  {
    if !Passed(e, k) {
      StepIsClosing(e, NextClosing(e, k), now);
      if k == 0 { EofCloses(e, now); }
      else if k == 1 { CloseReadCloses(e); }
      else if k == 2 { AckCloses(e, now); }
      else { DrainCloses(e); }
    }
  }

  lemma LeadsOnce(stage: Stage, c: Connection, mv: Move, d: Connection)
    requires Goes(c, mv, d) && Allowed(stage, mv.act)
    ensures Leads(stage, c, [mv], mv.now, d)
  {
    LeadsNowhere(stage, d, mv.now);
    LeadsOn(stage, c, mv, d, [], mv.now, d);
    assert [mv] + [] == [mv];
  }

  /** The step, as a move of the connection. */
  lemma OwnStep(c: Connection, k: nat, now: int, f: Endpoint)
    requires k < 4 && now > 0 && (k > 0 ==> CloseReadSent in c.b.t.flags)
    requires Enabled(c.a, NextClosing(c.a, k)) && f == Step(c.a, NextClosing(c.a, k), now)
    ensures Leads(Finishing, c, [Move(true, Own(NextClosing(c.a, k)), now)], now, c.(a := f))
  {
    GoesOwn(c, NextClosing(c.a, k), now, f);
    LeadsOnce(Finishing, c, Move(true, Own(NextClosing(c.a, k)), now), c.(a := f));
  }

  /** `a` gets beyond stage `k`. */
  lemma Advance(c: Connection, k: nat, now: int) returns (moves: seq<Move>, d: Connection)
    requires Closes(c.a, k) && k < 4 && now > 0 && (k > 0 ==> CloseReadSent in c.b.t.flags)
    ensures Leads(Finishing, c, moves, now, d) && |moves| <= 1
    ensures d.b == c.b && Closes(d.a, k + 1) && d.a.h == c.a.h
  {
    AdvanceEndpoint(c.a, k, now);
    if Passed(c.a, k) {
      LeadsNowhere(Finishing, c, now);
      moves, d := [], c;
    } else {
      var f := Step(c.a, NextClosing(c.a, k), now);
      OwnStep(c, k, now, f);
      moves, d := [Move(true, Own(NextClosing(c.a, k)), now)], c.(a := f);
    }
  }

  /** Both endpoints get beyond stage `k`. */
  lemma BothAdvance(c: Connection, k: nat, now: int) returns (moves: seq<Move>, d: Connection)
    requires Closes(c.a, k) && Closes(c.b, k) && k < 4 && now > 0
    ensures Leads(Finishing, c, moves, now, d) && |moves| <= 2
    ensures Closes(d.a, k + 1) && Closes(d.b, k + 1) && d.a.h == c.a.h && d.b.h == c.b.h
  {
    var first, c1 := Advance(c, k, now);
    var second, e := Advance(Mirror(c1), k, now);
    d := Mirror(e);
    LeadsMirrored(Finishing, Mirror(c1), second, now, e);
    LeadsThen(Finishing, c, first, c1, Mirrored(second), now, d);
    moves := first + Mirrored(second);
  }

  lemma {:induction false} BothCloseFrom(c: Connection, k: nat, now: int) returns (moves: seq<Move>, d: Connection)
    requires Closes(c.a, k) && Closes(c.b, k) && k <= 4 && now > 0
    ensures Leads(Finishing, c, moves, now, d) && |moves| <= 2 * (4 - k)
    ensures Closes(d.a, 4) && Closes(d.b, 4) && d.a.h == c.a.h && d.b.h == c.b.h
    decreases 4 - k
  {
    if k == 4 {
      LeadsNowhere(Finishing, c, now);
      moves, d := [], c;
    } else {
      var first, c1 := BothAdvance(c, k, now);
      var rest;
      rest, d := BothCloseFrom(c1, k + 1, now);
      LeadsThen(Finishing, c, first, c1, rest, now, d);
      moves := first + rest;
    }
  }

  /**
   * Nothing is unacknowledged, buffered, being written or inbound, the writer is intact, and no reset or CLOSE_WRITE
   * is under way; or the stream finished so already.
   */
  predicate AtRest(e: Endpoint) {
    e.r.inWrite == [] &&
    (Done(e.t) ||
     (Unfinished(MachineOf(e)) && LocalWriterBroken !in e.t.flags && CloseWriteReceived !in e.t.flags
      && e.s.buf == map[] && e.r.buf == map[] && e.r.pendingInbound == 0))
  }

  lemma RestCloses(e: Endpoint)
    requires Good(e) && AtRest(e)
    ensures Closes(e, 0)
  {
    EmptiesMembers(e.s, e.r);
  }

  /** A finished handshake was told the truth: everything the other side read was written. */
  lemma DoneIsComplete(c: Connection)
    requires Sound(c) && Done(c.a.t) && Done(c.b.t)
    ensures c.b.h.output == c.a.h.input && c.a.h.output == c.b.h.input
  {
  }

  /**
   * In every run of a connection: once both sides are at rest, the ends of their inputs, the two CLOSE_READs and
   * their acknowledgements close both sides, in at most eight moves, by a finished handshake and without a reset; and
   * each side has written everything the other read.
   */
  lemma BothSidesClose(a: Config, b: Config, start: int, run: seq<Move>, c: Connection, now: int)
    returns (moves: seq<Move>, d: Connection)
    requires Compatible(a, b) && Possible(Opened(a, b, start), run) && c == Outcome(Opened(a, b, start), run)
    requires AtRest(c.a) && AtRest(c.b) && now > 0
    ensures Leads(Finishing, c, moves, now, d) && |moves| <= 8 && Done(d.a.t) && Done(d.b.t)
    ensures d.b.h.output == d.a.h.input == c.a.h.input && d.a.h.output == d.b.h.input == c.b.h.input
  {
    OpenedIsEstablished(a, b, start);
    RunIsEstablished(Opened(a, b, start), run);
    RestCloses(c.a);
    RestCloses(c.b);
    moves, d := BothCloseFrom(c, 0, now);
    RunIsEstablished(c, moves);
    DoneIsComplete(d);
  }
}
