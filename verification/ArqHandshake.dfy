/** When a stream finishes by itself: the three endings, read off the flags, and the steps that lead to the first. */
module ArqHandshake {
  import opened SeqNum
  import opened ArqTerm
  import opened ArqTermProofs
  import opened ArqState
  import opened ArqRuns

  // ---------------------------------------------------------------------
  // The endings
  // ---------------------------------------------------------------------

  /** The stream is open and nothing is being reset. */
  predicate Unfinished(m: Machine) {
    IsClosed !in m.t.flags && IsVirtual !in m.t.flags && RstSent !in m.t.flags && RstReceived !in m.t.flags
    && m.t.state != Reset
  }

  /** CLOSE_READ came from the peer; the own one was sent and is acknowledged or no longer waited for. */
  predicate BothEndsRead(t: Term) {
    && CloseReadReceived in t.flags && CloseReadSent in t.flags
    && (CloseReadAcked in t.flags || WaitingAck !in t.flags || t.waitingAckFor != CloseRead)
  }

  /** The stream finished: everything of it is empty, and its owner was told once more. */
  predicate Finished(m: Machine, n: Machine, why: Reason) {
    && IsClosed in n.t.flags && n.t.reason == why && n.t.state == TimeWait
    && {Snd, Rcv} <= n.empty && n.c.tracked == map[] && n.c.queued == {} && n.c.closedCalls == m.c.closedCalls + 1
    && n.c.rsts == m.c.rsts && RstSent !in n.t.flags
  }

  /**
   * A stream with an intact writer finishes if and only if both ends read, the receive side is drained and no write
   * is pending.
   */
  lemma IntactWriterEnds(cfg: Config, m: Machine)
    requires Base(m) && Unfinished(m) && LocalWriterBroken !in m.t.flags
    ensures var n := TryFinalizeRemoteEOF(cfg, m);
            if BothEndsRead(m.t) && {Rcv, Inbound} <= m.empty && LocalWritePending !in m.t.flags
            then Finished(m, n, HandshakeDone) else n == m
  {
  }

  /**
   * A stream with a broken writer finishes as a handshake if and only if both ends read and a CLOSE_WRITE, its own
   * acknowledged or the peer's, settled the other direction.
   */
  lemma BrokenWriterEnds(cfg: Config, m: Machine)
    requires Base(m) && Unfinished(m) && LocalWriterBroken in m.t.flags
    requires BothEndsRead(m.t) && (CloseWriteAcked in m.t.flags || CloseWriteReceived in m.t.flags)
    ensures Finished(m, TryFinalizeRemoteEOF(cfg, m), HandshakeDone)
  {
  }

  /**
   * Otherwise it finishes only at a client, as a local disconnect: its CLOSE_WRITE and CLOSE_READ are acknowledged,
   * everything is drained, and nothing is pending, awaited or deferred.
   */
  lemma LocalDisconnectEnds(cfg: Config, m: Machine)
    requires Base(m) && Unfinished(m) && LocalWriterBroken in m.t.flags
    requires !(BothEndsRead(m.t) && (CloseWriteAcked in m.t.flags || CloseWriteReceived in m.t.flags))
    ensures var n := TryFinalizeRemoteEOF(cfg, m);
            if cfg.isClient && {CloseWriteAcked, CloseReadAcked} <= m.t.flags && {Snd, Rcv, Inbound} <= m.empty
               && m.t.flags !! {LocalWritePending, WaitingAck, DeferredClose}
            then Finished(m, n, LocalDisconnectDone) else n == m
  {
  }

  // ---------------------------------------------------------------------
  // What starts a close
  // ---------------------------------------------------------------------

  /**
   * Once a client's CLOSE_WRITE is acknowledged, CLOSE_READ follows: at once with nothing to drain, and otherwise when
   * the drain is over.
   */
  lemma BrokenClientFollowsUp(cfg: Config, m: Machine, now: int)
    requires Wf(m) && Unfinished(m) && Timed(cfg, now) && cfg.isClient
    requires CloseWriteSent in m.t.flags && (CloseWrite in m.c.tracked || m.t.waitingAckFor == CloseWrite)
    requires CloseReadSent !in m.t.flags && CloseReadReceived !in m.t.flags && DeferredClose !in m.t.flags
    ensures var n := ReceiveControlAck(cfg, m, CloseWrite, now);
            CloseWriteAcked in n.t.flags
            && if Snd in m.empty then CloseReadSent in n.t.flags
               else DeferredClose in n.t.flags && n.t.deferredPacket == CloseRead
  {
    var t := m.t.(lastActivity := now);
    var m1 := m.(t := MarkCloseWriteAcked(t), c := Untrack(cfg, m.c, CloseWrite, now));
    AckedFollowsUp(cfg, m1, now);
    FlagsOutlast(cfg, InitiateCloseRead(cfg, m1, now));
    assert ReceiveControlAck(cfg, m, CloseWrite, now) == TryFinalizeRemoteEOF(cfg, InitiateCloseRead(cfg, m1, now));
  }

  /** What the client asks for then. */
  lemma AckedFollowsUp(cfg: Config, m: Machine, now: int)
    requires Unfinished(m) && Timed(cfg, now) && cfg.isClient && {LocalWriterBroken, CloseWriteAcked} <= m.t.flags
    requires m.t.flags !! {CloseReadSent, CloseReadReceived, DeferredClose} && !Awaits(m.t, CloseRead)
    ensures var n := InitiateCloseRead(cfg, m, now);
            CloseWriteAcked in n.t.flags
            && if Snd in m.empty then CloseReadSent in n.t.flags
               else DeferredClose in n.t.flags && n.t.deferredPacket == CloseRead
                    && CloseReadSent !in n.t.flags && CloseReadReceived !in n.t.flags
  {
    if Snd in m.empty {
      EmitKeepsAcked(cfg, m, now);
      EmitKeepsAcked(cfg, ClearDeferred(BeginDrain(cfg, m, CloseRead, now)), now);
    }
  }

  lemma EmitKeepsAcked(cfg: Config, m: Machine, now: int)
    requires Unfinished(m) && CloseReadSent !in m.t.flags && CloseWriteAcked in m.t.flags && !Awaits(m.t, CloseRead)
    ensures {CloseReadSent, CloseWriteAcked} <= Emit(cfg, m, CloseRead, now, 0).t.flags
  {
  }

  /** Finishing takes back none of the three, and a stream whose CLOSE_READ is neither sent nor received goes on. */
  lemma FlagsOutlast(cfg: Config, m: Machine)
    requires CloseReadAcked in m.t.flags ==> CloseReadSent in m.t.flags
    ensures var n := TryFinalizeRemoteEOF(cfg, m);
            && (forall f :: f in {CloseReadSent, CloseWriteAcked} && f in m.t.flags ==> f in n.t.flags)
            && (CloseReadSent !in m.t.flags && CloseReadReceived !in m.t.flags ==> n == m)
  {
  }

  /** Asking again for a drain never brings its deadline forward, and never leaves less than the drain timeout. */
  lemma DrainNeverShortens(cfg: Config, m: Machine, k: Kind, now: int)
    requires Unfinished(m) && Snd !in m.empty
    ensures var n := Defer(cfg, m, k, now);
            n.t.deferredDeadline >= m.t.deferredDeadline || m.t.deferredDeadline == 0
    ensures Defer(cfg, m, k, now).t.deferredDeadline >= now + cfg.drainTimeout
    ensures DeferredClose in Defer(cfg, m, k, now).t.flags && Defer(cfg, m, k, now).t.deferredPacket == k
  {
  }

  /** A client that finished reading closes its write side too, two seconds after its CLOSE_READ was acknowledged. */
  lemma GraceSendsCloseWrite(cfg: Config, m: Machine, now: int)
    requires Base(m) && Unfinished(m) && cfg.isClient && {CloseReadSent, CloseReadAcked} <= m.t.flags
    requires m.t.closeReadAckedAt != 0 && now >= m.t.closeReadAckedAt + 2_000_000_000
    requires m.t.flags !! {DeferredClose, WaitingAck, CloseWriteSent, CloseWriteReceived}
    ensures CloseWriteSent in TerminalTick(cfg, m, now).t.flags
  {
  }

  /** A stream idle past the timeout is reset, unless something is unacknowledged: then it counts as active again. */
  lemma IdleStreamResets(cfg: Config, m: Machine, now: int)
    requires Base(m) && Unfinished(m) && now > m.t.lastActivity + cfg.inactivityTimeout
    requires m.t.flags !! {DeferredClose, WaitingAck} && !CloseWriteGraceOver(cfg, m.t, now)
    ensures var n := TerminalTick(cfg, m, now);
            if Snd in m.empty && m.c.tracked == map[] then RstSent in n.t.flags
            else if Snd !in m.empty then n == m.(t := m.t.(lastActivity := now))
            else RstSent in n.t.flags <==> !cfg.controlReliability
  {
  }

  // ---------------------------------------------------------------------
  // The way to the first ending
  // ---------------------------------------------------------------------

  /** Open, with an intact writer, nothing unacknowledged, nothing to write and nothing inbound. */
  ghost predicate Calm(m: Machine) {
    && Wf(m) && Unfinished(m) && LocalWriterBroken !in m.t.flags && CloseWriteReceived !in m.t.flags
    && {Snd, Rcv, Inbound} <= m.empty
  }

  /** Finished by the handshake, without a reset. */
  predicate Done(t: Term) {
    && IsClosed in t.flags && t.reason == HandshakeDone && t.state == TimeWait
    && CloseReadSent in t.flags && RstSent !in t.flags && RstReceived !in t.flags
    && LocalWriterBroken !in t.flags && CloseWriteReceived !in t.flags
  }

  /** How far the close got: own CLOSE_READ sent, the peer's received, the own one no longer waited for. */
  ghost predicate Progressed(m: Machine, k: nat) {
    Done(m.t) ||
    (Calm(m) && k < 4
     && (k >= 1 ==> CloseReadSent in m.t.flags) && (k >= 2 ==> CloseReadReceived in m.t.flags)
     && (k >= 3 ==> BothEndsRead(m.t)))
  }

  /** The end of the local input sends CLOSE_READ at once. */
  lemma EofSends(cfg: Config, m: Machine, now: int)
    requires Calm(m) && CloseReadSent !in m.t.flags && Timed(cfg, now)
    ensures Progressed(Close(cfg, m, DRAIN_THEN_CLOSE_READ, now), 1)
  {
    var m1 := ClearDeferred(BeginDrain(cfg, m, CloseRead, now));
    CloseKeeps(cfg, m, DRAIN_THEN_CLOSE_READ, now);
    assert Close(cfg, m, DRAIN_THEN_CLOSE_READ, now) == Emit(cfg, m1, CloseRead, now, 0);
  }

  lemma CloseReadArrives(cfg: Config, m: Machine)
    requires Calm(m) && CloseReadSent in m.t.flags && CloseReadReceived !in m.t.flags
    ensures Progressed(MarkCloseReadReceived(cfg, m), 2)
  {
    var m1 := m.(t := m.t.(flags := m.t.flags + {CloseReadReceived}, state := Closing));
    assert Base(m1);
    IntactWriterEnds(cfg, m1);
  }

  lemma AckArrives(cfg: Config, m: Machine, now: int)
    requires Calm(m) && CloseReadSent in m.t.flags && CloseReadReceived in m.t.flags && !BothEndsRead(m.t)
    ensures Progressed(ReceiveControlAck(cfg, m, CloseRead, now), 3)
  {
    var c := Untrack(cfg, m.c, CloseRead, now);
    var m1 := m.(t := MarkCloseReadAcked(m.t.(lastActivity := now), now), c := c);
    assert Base(m1);
    IntactWriterEnds(cfg, m1);
  }

  // ---------------------------------------------------------------------
  // The same steps of an endpoint
  // ---------------------------------------------------------------------

  /** The close of an endpoint that has written everything it took got that far. */
  ghost predicate Closes(e: Endpoint, k: nat) {
    Good(e) && e.r.inWrite == [] && Progressed(MachineOf(e), k)
  }

  lemma MoveCloses(e1: Endpoint, m: Machine, k: nat)
    requires Good(e1) && e1.r.inWrite == [] && CloseMove(MachineOf(e1), m) && Wf(m) && Progressed(m, k)
    ensures Closes(Moved(e1, m), k)
  {
    MovedStep(e1, e1, m);
    MovedKeeps(e1, m);
  }

  lemma EofCloses(e: Endpoint, now: int)
    requires Closes(e, 0) && IsClosed !in e.t.flags && CloseReadSent !in e.t.flags && now > 0
    ensures Closes(ReadEOF(e, now), 1) && ReadEOF(e, now).h == e.h
  {
    var e1 := e.(t := e.t.(clientEOFAt := if e.cfg.isClient && e.t.clientEOFAt == 0 then now else e.t.clientEOFAt));
    DataMoveKeeps(MachineOf(e), MachineOf(e1));
    CloseKeeps(e.cfg, MachineOf(e1), DRAIN_THEN_CLOSE_READ, now);
    EofSends(e.cfg, MachineOf(e1), now);
    MoveCloses(e1, Close(e.cfg, MachineOf(e1), DRAIN_THEN_CLOSE_READ, now), 1);
  }

  lemma CloseReadCloses(e: Endpoint)
    requires Closes(e, 1) && IsClosed !in e.t.flags && CloseReadReceived !in e.t.flags
    ensures var f := Moved(e, MarkCloseReadReceived(e.cfg, MachineOf(e))); Closes(f, 2) && f.h == e.h
  {
    var e1 := e.(t := e.t.(flags := e.t.flags + {CloseReadReceived}, state := Closing));
    RaiseCloseReadReceived(MachineOf(e), Closing);
    TryFinalizeWf(e.cfg, MachineOf(e1));
    CloseReadArrives(e.cfg, MachineOf(e));
    MoveCloses(e1, TryFinalizeRemoteEOF(e.cfg, MachineOf(e1)), 2);
  }

  lemma AckCloses(e: Endpoint, now: int)
    requires Closes(e, 2) && IsClosed !in e.t.flags && !BothEndsRead(e.t) && now > 0
    ensures var f := Moved(e, ReceiveControlAck(e.cfg, MachineOf(e), CloseRead, now)); Closes(f, 3) && f.h == e.h
  {
    ReceiveControlAckKeeps(e.cfg, MachineOf(e), CloseRead, now);
    AckArrives(e.cfg, MachineOf(e), now);
    MoveCloses(e, ReceiveControlAck(e.cfg, MachineOf(e), CloseRead, now), 3);
  }

  lemma DrainCloses(e: Endpoint)
    requires Closes(e, 3) && IsClosed !in e.t.flags
    ensures Closes(Drain(e), 4) && Drain(e).h == e.h && CanDrain(e)
  {
    var e1 := Flagged(e, {LocalWriteClosed}, {LocalWritePending});
    EmptiesMembers(e.s, e.r);
    DrainKeeps(e);
    WriterStepKeeps(e, e1, {LocalWriteClosed}, {LocalWritePending});
    IntactWriterEnds(e.cfg, MachineOf(e1));
    TryFinalizeWf(e.cfg, MachineOf(e1));
    MovedKeeps(e1, TryFinalizeRemoteEOF(e.cfg, MachineOf(e1)));
  }
}
