/**
 * Progress of delivery: from every state of a connection in which the receiver is missing a chunk, a short schedule
 * of the two endpoints takes it, once the chunk's retransmission timer ran out.
 */
module ArqProgress {
  import opened SeqNum
  import opened ArqTerm
  import opened ArqTermProofs
  import opened ArqState
  import opened ArqRuns
  import opened ArqCompose
  import opened ArqFlow
  import opened ArqLink
  import opened ArqTransport
  import opened ArqDelivery
  import opened ArqSender
  import opened ArqSenderRuns
  import opened ArqRecovery

  // ---------------------------------------------------------------------
  // The sender: an overdue tick queues the chunk
  // ---------------------------------------------------------------------

  /** The send side holds chunk `sn` and was not given up. */
  ghost predicate Holding(e: Endpoint, sn: u16, now: int) {
    Fit(e) && now > 0 && !Flushed(e.t) && IsVirtual !in e.t.flags && sn in e.s.buf
  }

  ghost predicate Overdue(e: Endpoint, sn: u16, now: int) {
    Holding(e, sn, now) && !InQueue(e.s.queue, sn) && RtoDue(e.s.buf[sn], now)
  }

  /** The close machine leaves the send side alone, or gives it up. */
  lemma MoveLeavesSender(e: Endpoint, m: Machine)
    requires CloseMove(MachineOf(e), m) && Wf(m) && e.s.buf != map[]
    ensures Flushed(Moved(e, m).t) || (Moved(e, m).s == e.s && IsClosed !in m.t.flags)
  {
    EmptiesMembers(e.s, e.r);
  }

  lemma TerminalPartGoesOn(e: Endpoint, sn: u16, now: int)
    requires Holding(e, sn, now)
    ensures var m := TerminalTick(e.cfg, MachineOf(e), now);
            Flushed(m.t) || (Moved(e, m).s == e.s && !TickEnds(e.cfg, MachineOf(e), now))
  {
    var m := TerminalTick(e.cfg, MachineOf(e), now);
    TerminalTickKeeps(e.cfg, MachineOf(e), now);
    MoveLeavesSender(e, m);
    EmptiesMembers(e.s, e.r);
  }

  lemma ScanQueues(cfg: Config, s: Sender, sn: u16, now: int)
    requires sn in s.buf && !InQueue(s.queue, sn) && RtoDue(s.buf[sn], now)
    ensures sn in Scanned(cfg, s, now).buf && InQueue(Scanned(cfg, s, now).queue, sn)
  {
    var due := Due(s.buf, now);
    assert QueuedNow(cfg.window, s, due, sn);
    ScannedInQueue(cfg.window, s, due, sn);
  }

  lemma NotSkipped(e: Endpoint, sn: u16, now: int)
    requires Overdue(e, sn, now)
    ensures !Skips(e.s, now)
  {
    assert NotLate(e.s.minRetransmitAt, e.s.buf[sn]) || e.s.minRetransmitAt == 0;
  }

  /** Nothing is given up: the scan queues the chunk. */
  lemma ScanTickQueues(e: Endpoint, sn: u16, now: int, order: seq<Kind>)
    requires Overdue(e, sn, now) && !GivesUp(e.cfg, e.s, now)
    ensures Served(ScanTick(e, now, order), sn)
  {
    NotSkipped(e, sn, now);
    ScanQueues(e.cfg, e.s, sn, now);
    var e1 := e.(s := Scanned(e.cfg, e.s, now));
    assert e1.s.buf.Keys == e.s.buf.Keys;
    PlainStepKeeps(e, e1);
    ControlScanKeeps(e.cfg, MachineOf(e1), now, order);
    MoveReflexive(MachineOf(e1));
    MoveLeavesSender(e1, ControlTick(e.cfg, MachineOf(e1), now, order));
  }

  /** The send side was given up, or a copy of the chunk is queued. */
  predicate Served(f: Endpoint, sn: u16) {
    Flushed(f.t) || (sn in f.s.buf && InQueue(f.s.queue, sn))
  }

  /** Something is given up: the stream is reset, unless it is being reset already. */
  lemma ScanTickGivesUp(e: Endpoint, sn: u16, now: int, order: seq<Kind>)
    requires Overdue(e, sn, now) && GivesUp(e.cfg, e.s, now)
    ensures AlreadyResetting(e.t) ==> ScanTick(e, now, order) == e
    ensures !AlreadyResetting(e.t) ==> Flushed(ScanTick(e, now, order).t)
  {
    NotSkipped(e, sn, now);
    EmptiesMembers(e.s, e.r);
    SelfMove(e);
  }

  /** A drain whose deadline is not over goes on through the terminal part; a due one gives the send side up. */
  lemma DrainAtTick(e: Endpoint, sn: u16, now: int)
    requires Holding(e, sn, now) && DeferredClose in e.t.flags
    ensures var m := TerminalTick(e.cfg, MachineOf(e), now);
            if now > e.t.deferredDeadline then Flushed(m.t)
            else m == MachineOf(e) && !TickEnds(e.cfg, MachineOf(e), now)
  {
    EmptiesMembers(e.s, e.r);
    TerminalTickKeeps(e.cfg, MachineOf(e), now);
  }

  /** A deadline of the close machine is over. */
  predicate DeadlineOver(t: Term, now: int) {
    if DeferredClose in t.flags then now > t.deferredDeadline else AckOverdue(t, now)
  }

  /** With chunks unacknowledged, the terminal part gives up only at a deadline, and otherwise leaves the rest alone. */
  lemma TerminalTickExactly(e: Endpoint, sn: u16, now: int)
    requires Holding(e, sn, now)
    ensures var m := TerminalTick(e.cfg, MachineOf(e), now);
            if DeferredClose in e.t.flags && now > e.t.deferredDeadline then Flushed(m.t)
            else if DeferredClose !in e.t.flags && AckOverdue(e.t, now) then Flushed(m.t)
            else m == MachineOf(e) || m == MachineOf(e).(t := Active(e.t, now))
  {
    EmptiesMembers(e.s, e.r);
    if DeferredClose in e.t.flags { DrainAtTick(e, sn, now); }
  }

  lemma DeadlineTick(e: Endpoint, sn: u16, now: int, order: seq<Kind>)
    requires Holding(e, sn, now) && DeadlineOver(e.t, now)
    ensures Flushed(Tick(e, now, order).t)
  {
    var m := TerminalTick(e.cfg, MachineOf(e), now);
    TerminalTickExactly(e, sn, now);
    TerminalTickKeeps(e.cfg, MachineOf(e), now);
    MovedStep(e, e, m);
    ScanTickKeeps(Moved(e, m), now, order);
    GivenUpGrows(m.t, ScanTick(Moved(e, m), now, order).t);
  }

  /** No deadline is over: the tick scans a state that differs from this one at most in its last activity. */
  lemma ScannedAtTick(e: Endpoint, sn: u16, now: int, order: seq<Kind>)
    returns (e1: Endpoint)
    requires Overdue(e, sn, now) && !DeadlineOver(e.t, now)
    ensures Overdue(e1, sn, now) && Tick(e, now, order) == ScanTick(e1, now, order)
    ensures e1.cfg == e.cfg && e1.s == e.s && e1.c == e.c
    ensures e1.t == e.t || e1.t == Active(e.t, now)
  {
    var m := TerminalTick(e.cfg, MachineOf(e), now);
    TerminalTickExactly(e, sn, now);
    TerminalPartGoesOn(e, sn, now);
    TerminalTickKeeps(e.cfg, MachineOf(e), now);
    MovedStep(e, e, m);
    MovedHealthy(e, m);
    e1 := Moved(e, m);
  }

  /** While chunks are held, a reset that is under way is a drain toward RST. */
  lemma NotResetting(e: Endpoint, sn: u16, now: int)
    requires Holding(e, sn, now)
    ensures AlreadyResetting(e.t) <==> DeferredClose in e.t.flags && e.t.deferredPacket == Rst
  {
  }

  lemma StalledTick(e: Endpoint, sn: u16, now: int, order: seq<Kind>)
    requires Overdue(e, sn, now) && Stalled(e, now)
    ensures Tick(e, now, order) == e
  {
    EmptiesMembers(e.s, e.r);
    DrainAtTick(e, sn, now);
    SelfMove(e);
    ScanTickGivesUp(e, sn, now, order);
  }

  /** A tick that is not stalled. */
  lemma OtherTick(e: Endpoint, sn: u16, now: int, order: seq<Kind>)
    requires Overdue(e, sn, now) && !Stalled(e, now)
    ensures Served(Tick(e, now, order), sn)
  {
    if DeadlineOver(e.t, now) {
      DeadlineTick(e, sn, now, order);
    } else {
      var e1 := ScannedAtTick(e, sn, now, order);
      if GivesUp(e.cfg, e.s, now) {
        NotResetting(e, sn, now);
        ScanTickGivesUp(e1, sn, now, order);
      } else {
        ScanTickQueues(e1, sn, now, order);
      }
    }
  }

  /**
   * A tick at which a chunk without a queued copy is due queues one or gives the send side up, if and only if it is
   * not stalled; a stalled tick does nothing at all.
   */
  lemma TickQueues(e: Endpoint, sn: u16, now: int, order: seq<Kind>)
    requires Overdue(e, sn, now)
    ensures Served(Tick(e, now, order), sn) <==> !Stalled(e, now)
    ensures Stalled(e, now) ==> Tick(e, now, order) == e
  {
    if Stalled(e, now) { StalledTick(e, sn, now, order); } else { OtherTick(e, sn, now, order); }
  }

  // ---------------------------------------------------------------------
  // Exactly when a tick gives the send side up
  // ---------------------------------------------------------------------

  /** The tick walks the map of tracked packets, each of them once. */
  predicate Walks(order: seq<Kind>, tracked: map<Kind, ControlItem>) {
    && (forall k :: k in tracked ==> k in order)
    && (forall i, j :: 0 <= i < j < |order| ==> order[i] != order[j])
  }

  predicate AnyControlExpired(cfg: Config, c: Control, now: int) {
    cfg.controlReliability && exists k :: k in c.tracked && ControlExpired(cfg, c.tracked[k], now)
  }

  /**
   * A tick at `now` goes on sending: no chunk used up its lifetime, no drain and no awaited acknowledgement is past
   * its deadline, and no tracked close packet expired, unless a reset is pending that hides it.
   */
  predicate Survives(e: Endpoint, now: int) {
    && !GivesUp(e.cfg, e.s, now) && !DeadlineOver(e.t, now)
    && (AnyControlExpired(e.cfg, e.c, now) ==> AlreadyResetting(e.t))
  }

  /** No tracked packet expired, or a reset is pending already: the scan leaves flags and deadlines alone. */
  lemma {:induction false} ControlScanGoesOn(cfg: Config, m: Machine, now: int, order: seq<Kind>)
    requires Rst !in m.c.tracked && forall i, j :: 0 <= i < j < |order| ==> order[i] != order[j]
    requires AlreadyResetting(m.t)
             || forall k :: k in order && k in m.c.tracked ==> !ControlExpired(cfg, m.c.tracked[k], now)
    ensures ControlScan(cfg, m, now, order).t == m.t
    decreases |order|
  {
    if order != [] && order[0] !in m.c.tracked {
      ControlScanGoesOn(cfg, m, now, order[1..]);
    } else if order != [] && !ControlExpired(cfg, m.c.tracked[order[0]], now) {
      ControlScanGoesOn(cfg, m.(c := ControlResend(cfg, m.c, order[0], now)), now, order[1..]);
    }
  }

  /** An expired packet resets the stream. */
  lemma {:induction false} ControlScanResets(cfg: Config, m: Machine, now: int, order: seq<Kind>, k: Kind)
    requires Rst !in m.c.tracked && !AlreadyResetting(m.t) && IsVirtual !in m.t.flags && IsClosed !in m.t.flags
    requires k in order && k in m.c.tracked && ControlExpired(cfg, m.c.tracked[k], now)
    ensures Flushed(ControlScan(cfg, m, now, order).t)
    decreases |order|
  {
    if order[0] !in m.c.tracked {
      ControlScanResets(cfg, m, now, order[1..], k);
    } else if !ControlExpired(cfg, m.c.tracked[order[0]], now) {
      ControlScanResets(cfg, m.(c := ControlResend(cfg, m.c, order[0], now)), now, order[1..], k);
    }
  }

  /** Nothing expired: the scan's result is the new send side. */
  lemma ScanTickGoesOn(e: Endpoint, sn: u16, now: int, order: seq<Kind>)
    requires Overdue(e, sn, now) && !GivesUp(e.cfg, e.s, now) && Walks(order, e.c.tracked)
    requires AnyControlExpired(e.cfg, e.c, now) ==> AlreadyResetting(e.t)
    ensures ScanTick(e, now, order).t == e.t && ScanTick(e, now, order).s == Scanned(e.cfg, e.s, now)
  {
    NotSkipped(e, sn, now);
    var e1 := e.(s := Scanned(e.cfg, e.s, now));
    assert e1.s.buf.Keys == e.s.buf.Keys;
    PlainStepKeeps(e, e1);
    ControlTickGoesOn(e1, now, order);
    MoveLeavesSender(e1, ControlTick(e.cfg, MachineOf(e1), now, order));
  }

  lemma ControlTickGoesOn(e: Endpoint, now: int, order: seq<Kind>)
    requires Good(e) && !Flushed(e.t) && now > 0 && Walks(order, e.c.tracked)
    requires AnyControlExpired(e.cfg, e.c, now) ==> AlreadyResetting(e.t)
    ensures var m := ControlTick(e.cfg, MachineOf(e), now, order);
            m.t == e.t && CloseMove(MachineOf(e), m) && Wf(m)
  {
    ControlScanKeeps(e.cfg, MachineOf(e), now, order);
    MoveReflexive(MachineOf(e));
    if e.cfg.controlReliability { ControlScanGoesOn(e.cfg, MachineOf(e), now, order); }
  }

  /** An expired close packet gives the send side up. */
  lemma ScanTickResets(e: Endpoint, sn: u16, now: int, order: seq<Kind>)
    requires Overdue(e, sn, now) && !GivesUp(e.cfg, e.s, now) && Walks(order, e.c.tracked)
    requires AnyControlExpired(e.cfg, e.c, now) && !AlreadyResetting(e.t)
    ensures Flushed(ScanTick(e, now, order).t)
  {
    NotSkipped(e, sn, now);
    EmptiesMembers(e.s, e.r);
    var m := MachineOf(e.(s := Scanned(e.cfg, e.s, now)));
    var k :| k in e.c.tracked && ControlExpired(e.cfg, e.c.tracked[k], now);
    ControlScanResets(e.cfg, m, now, order, k);
  }

  /**
   * A tick at which an unqueued chunk is due goes on sending - the scan's result is the new send side - exactly when
   * nothing is past its deadline; a stalled tick changes nothing; and every other tick gives the send side up.
   */
  lemma TickSurvives(e: Endpoint, sn: u16, now: int, order: seq<Kind>)
    requires Overdue(e, sn, now) && Walks(order, e.c.tracked)
    ensures var f := Tick(e, now, order);
            && (Survives(e, now) ==> !Flushed(f.t) && f.s == Scanned(e.cfg, e.s, now)
                                     && f.t.flags == e.t.flags && f.t.deferredDeadline == e.t.deferredDeadline)
            && (Stalled(e, now) ==> !Survives(e, now) && f == e)
            && (Flushed(f.t) <==> !Survives(e, now) && !Stalled(e, now))
  {
    if Stalled(e, now) {
      StalledTick(e, sn, now, order);
    } else if DeadlineOver(e.t, now) {
      DeadlineTick(e, sn, now, order);
    } else {
      var e1 := ScannedAtTick(e, sn, now, order);
      if GivesUp(e.cfg, e.s, now) {
        NotResetting(e, sn, now);
        ScanTickGivesUp(e1, sn, now, order);
      } else if AnyControlExpired(e.cfg, e.c, now) && !AlreadyResetting(e.t) {
        ScanTickResets(e1, sn, now, order);
      } else {
        ScanTickGoesOn(e1, sn, now, order);
      }
    }
  }

  /** The chunk is past its own lifetime, or past the common one with its retries used up. */
  predicate Exhausted(cfg: Config, item: Item, now: int) {
    if item.ttl > 0 then now >= item.createdAt + item.ttl
    else now >= item.createdAt + cfg.dataPacketTTL && item.retries >= cfg.maxDataRetries
  }

  /** Such a chunk resets the stream at the first tick at which some chunk is due, unless a reset drain is pending. */
  lemma ExhaustedChunkResets(e: Endpoint, sn: u16, late: u16, now: int, order: seq<Kind>)
    requires Overdue(e, sn, now) && Walks(order, e.c.tracked)
    requires late in e.s.buf && Exhausted(e.cfg, e.s.buf[late], now)
    requires !(DeferredClose in e.t.flags && e.t.deferredPacket == Rst)
    ensures Flushed(Tick(e, now, order).t)
  {
    assert TtlExpired(e.s.buf[late], now) || RetryExceeded(e.cfg, e.s.buf[late], now);
    TickSurvives(e, sn, now, order);
  }

  /**
   * And nothing else does while no close is pending, awaited or tracked: a tick at which no chunk is exhausted goes on.
   */
  lemma UnexhaustedGoesOn(e: Endpoint, sn: u16, now: int, order: seq<Kind>)
    requires Overdue(e, sn, now) && Walks(order, e.c.tracked)
    requires e.t.flags !! {DeferredClose, WaitingAck} && e.c.tracked == map[]
    requires forall x :: x in e.s.buf ==> !Exhausted(e.cfg, e.s.buf[x], now)
    ensures !Flushed(Tick(e, now, order).t) && InQueue(Tick(e, now, order).s.queue, sn)
  {
    UnexhaustedSurvives(e, now);
    TickSurvives(e, sn, now, order);
    ScanQueues(e.cfg, e.s, sn, now);
  }

  lemma UnexhaustedSurvives(e: Endpoint, now: int)
    requires e.t.flags !! {DeferredClose, WaitingAck} && e.c.tracked == map[]
    requires forall x :: x in e.s.buf ==> !Exhausted(e.cfg, e.s.buf[x], now)
    ensures Survives(e, now)
  {
    assert DeferredClose !in e.t.flags && WaitingAck !in e.t.flags;
    forall x | x in e.s.buf ensures !TtlExpired(e.s.buf[x], now) && !RetryExceeded(e.cfg, e.s.buf[x], now) {
      assert !Exhausted(e.cfg, e.s.buf[x], now);
    }
  }

  // ---------------------------------------------------------------------
  // The receiver: what arrives is buffered, and what is buffered is taken
  // ---------------------------------------------------------------------

  /** A receive side in use takes what is expected next into its buffer. */
  lemma BatchBuffers(y: Endpoint, batch: seq<Packet>, k: nat, now: int)
    requires Good(y) && Receiving(y.t) && k < |batch| && batch[k].sn == y.r.nxt
    ensures var z := ProcessBatch(y, batch, now);
            z.r.nxt in z.r.buf && z.r.nxt == y.r.nxt && z.t == Active(y.t, now)
            && z.h == y.h && z.r.inWrite == y.r.inWrite && z.cfg == y.cfg
  {
    assert !RejectsBatch(y.t);
    ExpectedIsKept(y.cfg.window, y.r.nxt, y.r.buf, batch, k);
  }

  /** Finishing the write before leaves the buffered chunk where it is. */
  lemma WriteDoneWaits(y: Endpoint)
    requires Good(y) && Receiving(y.t) && y.r.nxt in y.r.buf
    ensures var z := WriteDone(y);
            z.r.buf == y.r.buf && z.r.nxt == y.r.nxt && z.r.inWrite == [] && z.h.taken == y.h.taken
            && CanDrain(z) && Receiving(z.t)
  {
    var e1 := Flagged(y, {}, {LocalWritePending}).(
      r := y.r.(inWrite := []), h := y.h.(output := y.h.output + y.r.inWrite));
    EmptiesMembers(e1.s, e1.r);
    assert TryFinalizeRemoteEOF(y.cfg, MachineOf(e1)) == MachineOf(e1);
    SelfMove(e1);
  }

  lemma DrainTakes(y: Endpoint)
    requires y.r.nxt in y.r.buf
    ensures Drain(y).h.taken > y.h.taken && (Receiving(y.t) ==> Receiving(Drain(y).t))
  {
    RemoveShrinks(y.r.buf, y.r.nxt);
    assert |Ready(y.r.buf, y.r.nxt)| >= 1;
  }

  // ---------------------------------------------------------------------
  // Schedules
  // ---------------------------------------------------------------------

  /**
   * The moves that delivery needs: a copy that left the queue arrives, the inbound channel is processed, a tick, a
   * copy leaving the queue, a write that ends, a drain. Nothing is read, and no acknowledgement or control packet
   * arrives.
   */
  predicate Ordinary(act: Action) {
    match act
    case Own(ev) => ev.EvTick? || ev.EvPop? || ev.EvWriteDone? || ev.EvDrain?
    case Arrives(_, _) => true
    case Process(_) => true
    case AckArrives(_) => false
  }

  /** A schedule of such moves is possible, happens all at one instant, and leads from `c` to `d`. */
  ghost predicate Reaches(c: Connection, moves: seq<Move>, now: int, d: Connection) {
    && Possible(c, moves) && Outcome(c, moves) == d
    && forall i :: 0 <= i < |moves| ==> moves[i].now == now && Ordinary(moves[i].act)
  }

  ghost predicate Goes(c: Connection, mv: Move, d: Connection) {
    CanMove(c, mv) && Next(c, mv) == d
  }

  lemma ReachesNowhere(c: Connection, now: int)
    ensures Reaches(c, [], now, c)
  {
  }

  lemma ReachesOn(c: Connection, mv: Move, d: Connection, moves: seq<Move>, now: int, e: Connection)
    requires Goes(c, mv, d) && mv.now == now && Ordinary(mv.act) && Reaches(d, moves, now, e)
    ensures Reaches(c, [mv] + moves, now, e)
  {
    assert ([mv] + moves)[1..] == moves;
  }

  lemma GoesTick(c: Connection, order: seq<Kind>, now: int)
    requires now > 0
    ensures Goes(c, Move(true, Own(EvTick(order)), now), c.(a := Tick(c.a, now, order)))
  {
    var act: Action := Own(EvTick(order));
    assert EventOf(c.ba, act) == EvTick(order) && MayAct(c.a, c.b, c.ab, c.ba, act);
    StepIsTick(c.a, order, now);
  }

  lemma StepIsTick(e: Endpoint, order: seq<Kind>, now: int)
    ensures Enabled(e, EvTick(order)) && Step(e, EvTick(order), now) == Tick(e, now, order)
  {
  }

  lemma GoesPop(c: Connection, key: TxKey, now: int)
    requires now > 0 && key in c.a.s.queue
    ensures Goes(c, Move(true, Own(EvPop(key)), now),
                 c.(a := c.a.(s := Pop(c.a.s, key, now)), ab := OutAfter(c.a, c.ab, Own(EvPop(key)))))
  {
  }

  lemma GoesArrives(c: Connection, copy: Copy, now: int)
    requires now > 0 && copy in c.ab.copies && !RefusesData(c.b.t)
    ensures Goes(c, Move(false, Arrives(copy, true), now),
                 c.(b := ReceiveData(c.b, true, now), ab := c.ab.(rx := c.ab.rx + [copy])))
  {
  }

  lemma GoesProcess(c: Connection, n: nat, now: int)
    requires now > 0 && n <= |c.ab.rx| && MayProcess(c.b, c.ab.rx[..n])
    ensures Goes(c, Move(false, Process(n), now),
                 c.(b := ProcessBatch(c.b, PacketsOf(c.ab.rx[..n]), now), ab := AfterBatch(c.b, c.ab, n)))
  {
    var act: Action, batch := Process(n), PacketsOf(c.ab.rx[..n]);
    assert EventOf(c.ab, act) == EvBatch(batch) && MayAct(c.b, c.a, c.ba, c.ab, act);
    StepIsBatch(c.b, batch, now);
    assert InnAfter(c.b, c.ab, act) == AfterBatch(c.b, c.ab, n);
  }

  lemma StepIsBatch(e: Endpoint, batch: seq<Packet>, now: int)
    ensures Enabled(e, EvBatch(batch)) && Step(e, EvBatch(batch), now) == ProcessBatch(e, batch, now)
  {
  }

  lemma GoesWriteDone(c: Connection, now: int)
    requires now > 0 && c.b.r.inWrite != []
    ensures Goes(c, Move(false, Own(EvWriteDone), now), c.(b := WriteDone(c.b)))
  {
  }

  lemma GoesDrain(c: Connection, now: int)
    requires now > 0 && CanDrain(c.b)
    ensures Goes(c, Move(false, Own(EvDrain), now), c.(b := Drain(c.b)))
  {
  }

  /** The receiver took at least one chunk and stays in use; nothing is left in the channel if nothing was. */
  ghost predicate Took(c: Connection, d: Connection) {
    d.b.h.taken > c.b.h.taken && Receiving(d.b.t) && d.a.h == c.a.h && (c.ab.rx == [] ==> d.ab.rx == [])
  }

  /** The expected chunk is buffered: a write that is under way ends, and the drain takes it. */
  lemma TakeBuffered(c: Connection, now: int) returns (moves: seq<Move>, d: Connection)
    requires Good(c.b) && Receiving(c.b.t) && c.b.r.nxt in c.b.r.buf && now > 0
    ensures Reaches(c, moves, now, d) && |moves| <= 2 && Took(c, d) && d.a == c.a
  {
    if c.b.r.inWrite == [] {
      DrainTakes(c.b);
      GoesDrain(c, now);
      d := c.(b := Drain(c.b));
      ReachesNowhere(d, now);
      ReachesOn(c, Move(false, Own(EvDrain), now), d, [], now, d);
      moves := [Move(false, Own(EvDrain), now)] + [];
    } else {
      WriteDoneWaits(c.b);
      GoesWriteDone(c, now);
      var c1 := c.(b := WriteDone(c.b));
      DrainTakes(c1.b);
      GoesDrain(c1, now);
      d := c1.(b := Drain(c1.b));
      ReachesNowhere(d, now);
      ReachesOn(c1, Move(false, Own(EvDrain), now), d, [], now, d);
      ReachesOn(c, Move(false, Own(EvWriteDone), now), c1, [Move(false, Own(EvDrain), now)] + [], now, d);
      moves := [Move(false, Own(EvWriteDone), now)] + ([Move(false, Own(EvDrain), now)] + []);
    }
  }

  /** What waits in the inbound channel is within its lifetime, and the receive side is in use. */
  ghost predicate Listening(c: Connection) {
    Good(c.b) && Receiving(c.b.t) && MayProcess(c.b, c.ab.rx)
  }

  /** A copy of the expected chunk waits in the channel: the channel is processed, and the chunk taken. */
  lemma TakeWaiting(c: Connection, k: nat, now: int) returns (moves: seq<Move>, d: Connection)
    requires Listening(c) && k < |c.ab.rx| && c.ab.rx[k].sn == c.b.r.nxt && now > 0
    ensures Reaches(c, moves, now, d) && |moves| <= 3 && d.b.h.taken > c.b.h.taken && Receiving(d.b.t)
    ensures d.a == c.a && d.ab.rx == []
  {
    var n := |c.ab.rx|;
    assert c.ab.rx[..n] == c.ab.rx;
    var batch := PacketsOf(c.ab.rx[..n]);
    var c1 := c.(b := ProcessBatch(c.b, batch, now), ab := AfterBatch(c.b, c.ab, n));
    GoesProcess(c, n, now);
    BatchKeeps(c.b, batch, now);
    BatchBuffers(c.b, batch, k, now);
    var rest;
    rest, d := TakeBuffered(c1, now);
    ReachesOn(c, Move(false, Process(n), now), c1, rest, now, d);
    moves := [Move(false, Process(n), now)] + rest;
  }

  /** A copy of the expected chunk is on the network: it arrives, is processed after what waits, and is taken. */
  lemma TakeArriving(c: Connection, copy: Copy, now: int) returns (moves: seq<Move>, d: Connection)
    requires Listening(c) && copy in c.ab.copies && copy.sn == c.b.r.nxt && copy.i == c.b.h.taken && now > 0
    requires 0 <= c.b.cfg.window < HALF
    ensures Reaches(c, moves, now, d) && |moves| <= 4 && Took(c, d) && d.a == c.a
  {
    var c1 := c.(b := ReceiveData(c.b, true, now), ab := c.ab.(rx := c.ab.rx + [copy]));
    ReceiveDataKeeps(c.b, true, now);
    GoesArrives(c, copy, now);
    var rest;
    rest, d := TakeWaiting(c1, |c.ab.rx|, now);
    ReachesOn(c, Move(false, Arrives(copy, true), now), c1, rest, now, d);
    moves := [Move(false, Arrives(copy, true), now)] + rest;
  }

  /** The number of the expected chunk stands for that chunk at the sender, too. */
  lemma ExpectedIndex(x: Endpoint, y: Endpoint, w: Wire)
    requires Link(x, y, w) && Receiving(y.t) && y.h.taken < |x.h.input|
    ensures SentIndex(|x.h.input|, y.r.nxt) == y.h.taken
  {
    assert |x.h.input| - y.h.taken <= y.cfg.window + x.cfg.limit + 1 < MODULUS;
    LiftUnique(|x.h.input| - MODULUS, y.h.taken);
  }

  /** A copy of it is queued: it leaves the queue first. */
  lemma TakeQueued(c: Connection, key: TxKey, now: int) returns (moves: seq<Move>, d: Connection)
    requires Listening(c) && Link(c.a, c.b, c.ab) && c.b.h.taken < |c.a.h.input| && now > 0
    requires key in c.a.s.queue && key.sn == c.b.r.nxt && key.sn in c.a.s.buf
    ensures Reaches(c, moves, now, d) && |moves| <= 5 && Took(c, d)
    ensures d.a == c.a.(s := Pop(c.a.s, key, now))
  {
    ExpectedIndex(c.a, c.b, c.ab);
    GoesPop(c, key, now);
    var copy := Copy(c.b.h.taken, key.sn, c.a.s.queue[key]);
    var c1 := c.(a := c.a.(s := Pop(c.a.s, key, now)), ab := OutAfter(c.a, c.ab, Own(EvPop(key))));
    var rest;
    rest, d := TakeArriving(c1, copy, now);
    ReachesOn(c, Move(true, Own(EvPop(key)), now), c1, rest, now, d);
    moves := [Move(true, Own(EvPop(key)), now)] + rest;
  }

  /** The instant is late enough: the chunk's timer ran out if it is running and no copy waits. */
  predicate LateEnough(x: Endpoint, sn: u16, now: int) {
    now > 0 && (sn in x.s.buf && !InQueue(x.s.queue, sn) && x.s.buf[sn].dispatched ==> RtoDue(x.s.buf[sn], now))
  }

  /** The receiver expects a chunk that was read, both sides are in use, and the sender is not stalled. */
  ghost predicate Missing(c: Connection, now: int) {
    && Listening(c) && !Flushed(c.a.t) && c.b.h.taken < |c.a.h.input|
    && LateEnough(c.a, c.b.r.nxt, now) && !Stalled(c.a, now)
  }

  /** The expected chunk is neither buffered at the receiver nor queued at the sender. */
  predicate NeedsTick(c: Connection) {
    c.b.r.nxt !in c.b.r.buf && !InQueue(c.a.s.queue, c.b.r.nxt)
  }

  /** A chunk is taken, or one tick, and nothing else, gave the send side up: if it was needed and did not survive. */
  ghost predicate Progress(c: Connection, now: int, order: seq<Kind>, d: Connection) {
    && (if Flushed(d.a.t) then d == c.(a := Tick(c.a, now, order)) else Took(c, d))
    && (Walks(order, c.a.c.tracked) ==> (Flushed(d.a.t) <==> NeedsTick(c) && !Survives(c.a, now)))
  }

  function KeyOf(q: TxQueue, sn: u16): (key: TxKey)
    requires InQueue(q, sn)
    ensures key in q && key.sn == sn
  {
    if TxKey(Fresh, sn) in q then TxKey(Fresh, sn) else TxKey(Resend, sn)
  }

  lemma TakeOverdue(c: Connection, now: int, order: seq<Kind>) returns (moves: seq<Move>, d: Connection)
    requires Sound(c) && Fit(c.a) && Missing(c, now) && Overdue(c.a, c.b.r.nxt, now)
    requires NeedsTick(c)
    ensures Reaches(c, moves, now, d) && |moves| <= 6 && Progress(c, now, order, d)
  {
    var mv := Move(true, Own(EvTick(order)), now);
    var c1 := c.(a := Tick(c.a, now, order));
    GoesTick(c, order, now);
    NextIsSound(c, mv);
    TickQueues(c.a, c.b.r.nxt, now, order);
    if Walks(order, c.a.c.tracked) { TickSurvives(c.a, c.b.r.nxt, now, order); }
    TickKeepsInput(c.a, now, order);
    if Flushed(c1.a.t) {
      d := c1;
      ReachesNowhere(d, now);
      ReachesOn(c, mv, c1, [], now, d);
      moves := [mv] + [];
    } else {
      var rest;
      rest, d := TakeQueued(c1, KeyOf(c1.a.s.queue, c.b.r.nxt), now);
      ReachesOn(c, mv, c1, rest, now, d);
      moves := [mv] + rest;
    }
  }

  lemma TickKeepsInput(e: Endpoint, now: int, order: seq<Kind>)
    ensures Tick(e, now, order).h == e.h
  {
  }

  /**
   * From every state a connection can get into in which the receiver is missing a chunk, six moves at one instant
   * take the next one - a tick, the copy leaving the queue, its arrival, its processing, the end of a write, a
   * drain - or the first of them, the tick, gives the send side up: exactly if it is needed and does not survive.
   */
  lemma MissingChunkIsTaken(c: Connection, now: int, order: seq<Kind>) returns (moves: seq<Move>, d: Connection)
    requires Sound(c) && Fit(c.a) && IsVirtual !in c.a.t.flags && Missing(c, now)
    ensures Reaches(c, moves, now, d) && |moves| <= 6 && Progress(c, now, order, d)
  {
    var nxt := c.b.r.nxt;
    LinkIsLossless(c.a, c.b, c.ab);
    FitIsRecoverable(c.a, c.b);
    if nxt in c.b.r.buf {
      moves, d := TakeBuffered(c, now);
    } else if InQueue(c.a.s.queue, nxt) {
      moves, d := TakeQueued(c, KeyOf(c.a.s.queue, nxt), now);
    } else {
      moves, d := TakeOverdue(c, now, order);
    }
  }
}
