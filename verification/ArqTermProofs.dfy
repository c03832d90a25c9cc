/** What every function of the close machine keeps, and what it may change. */
module ArqTermProofs {
  import opened ArqTerm

  /** What holds at every point of a handler. */
  ghost predicate Base(m: Machine) {
    var t := m.t;
    var f := t.flags;
    && m.c.closeReads == Bit(CloseReadSent in f)
    && m.c.closeWrites == Bit(CloseWriteSent in f)
    && m.c.rsts == Bit(RstSent in f)
    && m.c.closedCalls == Bit(IsClosed in f)
    && (forall k :: k in m.c.tracked ==> Sent(t, k))
    && (CloseReadSent in f ==> Snd in m.empty && StopLocalRead in f)
    && (CloseReadAcked in f ==> CloseReadSent in f)
    && (CloseWriteSent in f ==> LocalWriterBroken in f)
    && (LocalWriterBroken in f ==> Rcv in m.empty)
    && (CloseWriteAcked in f ==> CloseWriteSent in f)
    && (CloseWriteReceived in f ==> Snd in m.empty && StopLocalRead in f)
    && (RstSent in f ==> Snd in m.empty && StopLocalRead in f)
    && (RstSent in f && IsClosed !in f ==> Awaits(t, Rst))
    && (RstReceived in f ==> IsClosed in f)
    && (IsClosed in f ==> Snd in m.empty && DeferredClose !in f && WaitingAck !in f)
    && (WaitingAck in f ==> Sent(t, t.waitingAckFor) && t.ackWaitDeadline > 0)
    && (WaitingAck !in f ==> t.waitingAckFor == NoKind)
    && (DeferredClose in f ==>
          StopLocalRead in f && (t.deferredPacket == CloseRead || t.deferredPacket == Rst) && t.deferredDeadline > 0)
  }

  /** What holds between handlers: a drain is only pending while there is data to drain. */
  ghost predicate Wf(m: Machine) {
    Base(m) && (DeferredClose in m.t.flags ==> Snd !in m.empty)
  }

  /** The send buffer was emptied by something other than acknowledgements. */
  predicate Flushed(t: Term) {
    || CloseWriteReceived in t.flags || RstSent in t.flags || RstReceived in t.flags
    || (IsClosed in t.flags && t.reason != HandshakeDone && t.reason != LocalDisconnectDone)
  }

  /** The receive side was given up. */
  predicate GaveUp(t: Term) {
    LocalWriterBroken in t.flags || RstSent in t.flags || RstReceived in t.flags
  }

  /** Flags that are never taken back. */
  const LASTING := {IsClosed, CloseReadSent, CloseReadReceived, CloseReadAcked, CloseWriteSent, CloseWriteReceived,
                    CloseWriteAcked, RstSent, RstReceived, RstAcked, LocalWriteClosed, LocalWriterBroken, StopLocalRead}

  predicate Grows(t: Term, t': Term) {
    && (forall f :: f in t.flags && f in LASTING ==> f in t'.flags)
    && (IsClosed in t.flags ==> t'.reason == t.reason)
  }

  predicate SameOrigins(c: Control, c': Control) {
    c'.closeReads == c.closeReads && c'.closeWrites == c.closeWrites && c'.rsts == c.rsts
  }

  /**
   * All a function of the machine may do: raise flags, originate packets while nothing reset or closed the
   * stream, empty a buffer under the flag that says why, and finish the handshake only when the receive side
   * is empty or given up.
   */
  ghost predicate CloseMove(m: Machine, n: Machine) {
    && Grows(m.t, n.t) && m.c.closedCalls <= n.c.closedCalls
    && (IsClosed in m.t.flags || RstReceived in m.t.flags || RstSent in m.t.flags ==> SameOrigins(m.c, n.c))
    && (Snd in m.empty ==> Snd in n.empty) && (Snd in n.empty && !Flushed(n.t) ==> Snd in m.empty)
    && (Rcv in m.empty ==> Rcv in n.empty)
    && (Rcv in n.empty && !GaveUp(n.t) && IsClosed !in n.t.flags ==> Rcv in m.empty)
    && (Inbound in n.empty <==> Inbound in m.empty)
    && (CloseReadReceived in n.t.flags <==> CloseReadReceived in m.t.flags)
    && (LocalWritePending in n.t.flags <==> LocalWritePending in m.t.flags)
    && (LocalWriteClosed in n.t.flags ==> LocalWriteClosed in m.t.flags || LocalWriterBroken in n.t.flags)
    && (IsClosed in n.t.flags && IsClosed !in m.t.flags && n.t.reason == HandshakeDone ==>
          CloseReadReceived in n.t.flags
          && (GaveUp(n.t) || (Rcv in m.empty && LocalWritePending !in m.t.flags)))
  }

  lemma MoveTransitive(m: Machine, n: Machine, o: Machine)
    requires CloseMove(m, n) && CloseMove(n, o)
    ensures CloseMove(m, o)
  {
  }

  // ---------------------------------------------------------------------
  // The functions of the machine, innermost first
  // ---------------------------------------------------------------------

  ghost predicate MayFinalize(m: Machine, why: Reason) {
    && (why == HandshakeDone ==> CloseReadReceived in m.t.flags && CloseReadSent in m.t.flags
                                 && (GaveUp(m.t) || (Rcv in m.empty && LocalWritePending !in m.t.flags)))
    && (why == LocalDisconnectDone ==> CloseReadSent in m.t.flags)
  }

  lemma FinalizeBase(m: Machine, why: Reason)
    requires Base(m)
    ensures Base(Finalize(m, why))
    ensures DeferredClose in Finalize(m, why).t.flags ==> IsVirtual in m.t.flags
  {
  }

  lemma FinalizeMove(m: Machine, why: Reason)
    requires Base(m) && MayFinalize(m, why)
    ensures CloseMove(m, Finalize(m, why))
  {
  }

  lemma TryFinalizeKeeps(cfg: Config, m: Machine)
    requires Base(m)
    ensures Base(TryFinalizeRemoteEOF(cfg, m)) && CloseMove(m, TryFinalizeRemoteEOF(cfg, m))
    ensures TryFinalizeRemoteEOF(cfg, m) == m || DeferredClose !in TryFinalizeRemoteEOF(cfg, m).t.flags
            || IsVirtual in m.t.flags
  {
    if RemoteEOFComplete(m) {
      FinalizeBase(m, HandshakeDone);
      FinalizeMove(m, HandshakeDone);
    } else if LocalDisconnectComplete(cfg, m) {
      FinalizeBase(m, LocalDisconnectDone);
      FinalizeMove(m, LocalDisconnectDone);
    }
  }

  /** CLOSE_READ may only be emitted once all sent data is acknowledged. */
  ghost predicate MayEmit(cfg: Config, m: Machine, k: Kind, now: int) {
    Base(m) && now > 0 && cfg.ackWait > 0 && (k == CloseRead ==> Snd in m.empty)
  }

  /** Emitting CLOSE_READ cannot finish the close: its own acknowledgement is still awaited. */
  lemma EmitCloseReadStaysOpen(cfg: Config, m: Machine, now: int)
    requires Base(m) && CloseReadSent !in m.t.flags
    ensures var state := StateAfterSending(m.t, HalfClosedLocal);
            var n := m.(t := Emitting(cfg, m.t, CloseRead, {CloseReadSent}, state, now));
            !RemoteEOFComplete(n) && !LocalDisconnectComplete(cfg, n)
  {
  }

  lemma EmitReadBase(cfg: Config, m: Machine, now: int, ttl: nat)
    requires MayEmit(cfg, m, CloseRead, now)
    ensures Base(Emit(cfg, m, CloseRead, now, ttl))
  {
    if CloseReadSent !in m.t.flags { EmitCloseReadStaysOpen(cfg, m, now); }
  }

  lemma EmitReadMove(cfg: Config, m: Machine, now: int, ttl: nat)
    requires MayEmit(cfg, m, CloseRead, now)
    ensures CloseMove(m, Emit(cfg, m, CloseRead, now, ttl))
  {
    if CloseReadSent !in m.t.flags { EmitCloseReadStaysOpen(cfg, m, now); }
  }

  lemma EmitWriteBase(cfg: Config, m: Machine, now: int, ttl: nat)
    requires MayEmit(cfg, m, CloseWrite, now)
    ensures Base(Emit(cfg, m, CloseWrite, now, ttl))
  {
  }

  lemma EmitWriteMove(cfg: Config, m: Machine, now: int, ttl: nat)
    requires MayEmit(cfg, m, CloseWrite, now)
    ensures CloseMove(m, Emit(cfg, m, CloseWrite, now, ttl))
  {
  }

  lemma EmitRstBase(cfg: Config, m: Machine, now: int, ttl: nat)
    requires MayEmit(cfg, m, Rst, now)
    ensures Base(Emit(cfg, m, Rst, now, ttl))
  {
  }

  lemma EmitRstMove(cfg: Config, m: Machine, now: int, ttl: nat)
    requires MayEmit(cfg, m, Rst, now)
    ensures CloseMove(m, Emit(cfg, m, Rst, now, ttl))
  {
  }

  /** After an emission nothing is deferred, unless the stream is virtual and ignores it. */
  lemma EmitClearsDeferred(cfg: Config, m: Machine, k: Kind, now: int, ttl: nat)
    requires MayEmit(cfg, m, k, now)
    ensures DeferredClose in Emit(cfg, m, k, now, ttl).t.flags ==> IsVirtual in m.t.flags
  {
    if k == CloseRead && CloseReadSent !in m.t.flags { EmitCloseReadStaysOpen(cfg, m, now); }
  }

  lemma BeginResetKeeps(m: Machine)
    requires Base(m)
    ensures Base(BeginReset(m)) && (IsClosed !in m.t.flags ==> CloseMove(m, BeginReset(m)))
  {
  }

  lemma CloseRstKeeps(cfg: Config, m: Machine, now: int, ttl: nat)
    requires MayEmit(cfg, m, Rst, now)
    ensures Base(CloseRst(cfg, m, now, ttl)) && CloseMove(m, CloseRst(cfg, m, now, ttl))
    ensures CloseRst(cfg, m, now, ttl) == m || DeferredClose !in CloseRst(cfg, m, now, ttl).t.flags
  {
    if !(IsVirtual in m.t.flags || IsClosed in m.t.flags || AlreadyResetting(m.t)) {
      var m1 := BeginReset(m);
      BeginResetKeeps(m);
      EmitRstBase(cfg, m1, now, ttl);
      EmitRstMove(cfg, m1, now, ttl);
      EmitClearsDeferred(cfg, m1, Rst, now, ttl);
      MoveTransitive(m, m1, Emit(cfg, m1, Rst, now, ttl));
    }
  }

  lemma CloseNowKeeps(cfg: Config, m: Machine, k: Kind, now: int)
    requires MayEmit(cfg, m, k, now) && DeferredClose !in m.t.flags
    ensures Base(CloseNow(cfg, m, k, now)) && CloseMove(m, CloseNow(cfg, m, k, now))
    ensures DeferredClose !in CloseNow(cfg, m, k, now).t.flags
  {
    if IsVirtual !in m.t.flags {
      match k
      case NoKind =>
        FinalizeBase(m, Forced);
        FinalizeMove(m, Forced);
      case Rst =>
        CloseRstKeeps(cfg, m, now, 0);
      case CloseRead =>
        EmitReadBase(cfg, m, now, 0);
        EmitReadMove(cfg, m, now, 0);
        EmitClearsDeferred(cfg, m, k, now, 0);
      case CloseWrite =>
        EmitWriteBase(cfg, m, now, 0);
        EmitWriteMove(cfg, m, now, 0);
        EmitClearsDeferred(cfg, m, k, now, 0);
    }
  }

  lemma ClearDeferredKeeps(m: Machine)
    requires Base(m)
    ensures Base(ClearDeferred(m)) && CloseMove(m, ClearDeferred(m))
  {
  }

  lemma SettleKeeps(cfg: Config, m: Machine, now: int)
    requires Base(m) && now > 0 && cfg.ackWait > 0
    ensures Wf(Settle(cfg, m, now)) && CloseMove(m, Settle(cfg, m, now))
  {
    if IsClosed !in m.t.flags && DeferredClose in m.t.flags && DrainDue(m, now) {
      var m1 := ClearDeferred(m);
      var k := if Snd in m.empty then m.t.deferredPacket else Rst;
      ClearDeferredKeeps(m);
      CloseNowKeeps(cfg, m1, k, now);
      MoveTransitive(m, m1, CloseNow(cfg, m1, k, now));
    }
  }

  /** Everything the lemmas below need about the settings and the clock. */
  predicate Timed(cfg: Config, now: int) {
    now > 0 && cfg.ackWait > 0 && cfg.drainTimeout > 0
  }

  lemma BeginDrainKeeps(cfg: Config, m: Machine, k: Kind, now: int)
    requires Base(m) && Timed(cfg, now) && (k == CloseRead || k == Rst) && IsClosed !in m.t.flags
    ensures Base(BeginDrain(cfg, m, k, now)) && CloseMove(m, BeginDrain(cfg, m, k, now))
  {
  }

  lemma DeferKeeps(cfg: Config, m: Machine, k: Kind, now: int)
    requires Wf(m) && Timed(cfg, now) && (k == CloseRead || k == Rst)
    ensures Wf(Defer(cfg, m, k, now)) && CloseMove(m, Defer(cfg, m, k, now))
  {
    if !(IsClosed in m.t.flags || IsVirtual in m.t.flags) {
      var m1 := BeginDrain(cfg, m, k, now);
      BeginDrainKeeps(cfg, m, k, now);
      if Snd in m.empty {
        SettleKeeps(cfg, m1, now);
        MoveTransitive(m, m1, Settle(cfg, m1, now));
      }
    }
  }

  lemma ForceCloseKeeps(m: Machine, why: Reason)
    requires Base(m) && why != HandshakeDone && why != LocalDisconnectDone
    ensures Wf(ForceClose(m, why)) && CloseMove(m, ForceClose(m, why)) && IsClosed in ForceClose(m, why).t.flags
  {
    var m1 := m.(t := m.t.(flags := m.t.flags - {IsVirtual}));
    assert Base(m1) && CloseMove(m, m1);
    FinalizeBase(m1, why);
    FinalizeMove(m1, why);
    MoveTransitive(m, m1, Finalize(m1, why));
  }

  /** An undrained CLOSE_READ may only be asked for when nothing is pending. */
  lemma CloseKeeps(cfg: Config, m: Machine, o: CloseOptions, now: int)
    requires Wf(m) && Timed(cfg, now)
    requires o.sendCloseRead && !o.afterDrain ==> Snd in m.empty
    ensures Wf(Close(cfg, m, o, now)) && CloseMove(m, Close(cfg, m, o, now))
  {
    if IsVirtual in m.t.flags && !o.force {
    } else if o.force || (!o.sendRST && !o.sendCloseRead && !o.sendCloseWrite) {
      ForceCloseKeeps(m, Forced);
    } else if o.sendCloseRead && o.afterDrain {
      DeferKeeps(cfg, m, CloseRead, now);
    } else if o.sendCloseRead {
      EmitReadBase(cfg, m, now, o.ttl);
      EmitReadMove(cfg, m, now, o.ttl);
      EmitClearsDeferred(cfg, m, CloseRead, now, o.ttl);
    } else if o.sendCloseWrite {
      EmitWriteBase(cfg, m, now, o.ttl);
      EmitWriteMove(cfg, m, now, o.ttl);
      EmitClearsDeferred(cfg, m, CloseWrite, now, o.ttl);
    } else if IsClosed in m.t.flags || AlreadyResetting(m.t) || !o.afterDrain || Snd in m.empty {
      CloseRstKeeps(cfg, m, now, o.ttl);
    } else {
      var m1 := BeginReset(m);
      BeginResetKeeps(m);
      DeferKeeps(cfg, m1, Rst, now);
      MoveTransitive(m, m1, Defer(cfg, m1, Rst, now));
    }
  }

  lemma PeerStoppedReadingKeeps(m: Machine)
    requires Base(m)
    ensures Base(PeerStoppedReading(m)) && CloseMove(m, PeerStoppedReading(m))
  {
  }

  lemma MarkCloseWriteReceivedKeeps(cfg: Config, m: Machine, now: int)
    requires Wf(m) && Timed(cfg, now)
    ensures Wf(MarkCloseWriteReceived(cfg, m, now)) && CloseMove(m, MarkCloseWriteReceived(cfg, m, now))
  {
    if IsVirtual !in m.t.flags {
      var m1 := PeerStoppedReading(m);
      var m2 := Settle(cfg, m1, now);
      PeerStoppedReadingKeeps(m);
      SettleKeeps(cfg, m1, now);
      MoveTransitive(m, m1, m2);
      TryFinalizeWf(cfg, m2);
      MoveTransitive(m, m2, TryFinalizeRemoteEOF(cfg, m2));
    }
  }

  lemma TryFinalizeWf(cfg: Config, m: Machine)
    requires Wf(m)
    ensures Wf(TryFinalizeRemoteEOF(cfg, m)) && CloseMove(m, TryFinalizeRemoteEOF(cfg, m))
  {
    TryFinalizeKeeps(cfg, m);
  }

  lemma RaiseCloseReadReceived(m: Machine, state: StreamState)
    requires Wf(m)
    ensures Wf(m.(t := m.t.(flags := m.t.flags + {CloseReadReceived}, state := state)))
  {
  }

  lemma ReceiveRstKeeps(m: Machine)
    requires Base(m)
    ensures Wf(ReceiveRst(m)) && IsClosed in ReceiveRst(m).t.flags
  {
  }

  lemma ReceiveRstMove(m: Machine)
    requires Base(m)
    ensures CloseMove(m, ReceiveRst(m))
  {
    if IsVirtual in m.t.flags {
      ForceCloseKeeps(m, Forced);
    } else if IsClosed in m.t.flags {
      assert m.t.flags + {RstReceived} - {IsVirtual} == m.t.flags + {RstReceived};
    } else {
      OpenRstMove(m);
    }
  }

  lemma OpenRstMove(m: Machine)
    requires Base(m) && IsVirtual !in m.t.flags && IsClosed !in m.t.flags
    ensures CloseMove(m, ReceiveRst(m))
  {
    var n := ReceiveRst(m);
    assert IsClosed in n.t.flags && RstReceived in n.t.flags && n.t.reason == Forced;
  }

  lemma InitiateCloseReadKeeps(cfg: Config, m: Machine, now: int)
    requires Wf(m) && Timed(cfg, now)
    ensures Wf(InitiateCloseRead(cfg, m, now)) && CloseMove(m, InitiateCloseRead(cfg, m, now))
  {
    var drain := Snd !in m.empty || LocalWritePending in m.t.flags;
    CloseKeeps(cfg, m, CloseOptions(false, false, false, true, drain, 0), now);
  }

  lemma CloseReadAckedKeeps(m: Machine, now: int)
    requires Wf(m) && CloseReadSent in m.t.flags
    ensures var n := m.(t := MarkCloseReadAcked(m.t, now)); Wf(n) && CloseMove(m, n)
  {
  }

  lemma CloseWriteAckedKeeps(m: Machine)
    requires Wf(m) && CloseWriteSent in m.t.flags
    ensures var n := m.(t := MarkCloseWriteAcked(m.t)); Wf(n) && CloseMove(m, n)
  {
  }

  lemma RstAckedKeeps(m: Machine)
    requires Wf(m) && RstSent in m.t.flags
    ensures Wf(MarkRstAcked(m)) && CloseMove(m, MarkRstAcked(m))
  {
  }

  lemma CloseAckedKeeps(cfg: Config, m: Machine, k: Kind, now: int)
    requires Wf(m) && Timed(cfg, now) && Sent(m.t, k)
    ensures Wf(CloseAcked(cfg, m, k, now)) && CloseMove(m, CloseAcked(cfg, m, k, now))
  {
    match k
    case NoKind =>
    case CloseRead =>
      var m1 := m.(t := MarkCloseReadAcked(m.t, now));
      CloseReadAckedKeeps(m, now);
      TryFinalizeWf(cfg, m1);
      MoveTransitive(m, m1, TryFinalizeRemoteEOF(cfg, m1));
    case CloseWrite =>
      var m1 := m.(t := MarkCloseWriteAcked(m.t));
      var m2 := InitiateCloseRead(cfg, m1, now);
      CloseWriteAckedKeeps(m);
      InitiateCloseReadKeeps(cfg, m1, now);
      TryFinalizeWf(cfg, m2);
      MoveTransitive(m1, m2, TryFinalizeRemoteEOF(cfg, m2));
      MoveTransitive(m, m1, TryFinalizeRemoteEOF(cfg, m2));
    case Rst =>
      var m1 := MarkRstAcked(m);
      RstAckedKeeps(m);
      FinalizeBase(m1, ResetAcked);
      FinalizeMove(m1, ResetAcked);
      MoveTransitive(m, m1, Finalize(m1, ResetAcked));
  }

  /** Changing only the tracked and queued packets. */
  lemma ControlOnly(m: Machine, t: Term, c: Control)
    requires Wf(m)
    requires t == m.t.(lastActivity := t.lastActivity)
    requires SameOrigins(m.c, c) && c.closedCalls == m.c.closedCalls && c.tracked.Keys <= m.c.tracked.Keys
    ensures Wf(m.(t := t, c := c)) && CloseMove(m, m.(t := t, c := c))
  {
    assert forall k :: k in c.tracked ==> k in m.c.tracked;
  }

  lemma ReceiveControlAckKeeps(cfg: Config, m: Machine, k: Kind, now: int)
    requires Wf(m) && Timed(cfg, now)
    ensures Wf(ReceiveControlAck(cfg, m, k, now)) && CloseMove(m, ReceiveControlAck(cfg, m, k, now))
  {
    var t := m.t.(lastActivity := now);
    if k == NoKind || (k !in m.c.tracked && m.t.waitingAckFor != k) {
      ControlOnly(m, t, m.c);
      assert m.(t := t, c := m.c) == m.(t := t);
    } else {
      var m1 := m.(t := t, c := Untrack(cfg, m.c, k, now));
      ControlOnly(m, t, m1.c);
      assert Sent(m.t, k);
      CloseAckedKeeps(cfg, m1, k, now);
      MoveTransitive(m, m1, CloseAcked(cfg, m1, k, now));
    }
  }

  lemma TerminalTickKeeps(cfg: Config, m: Machine, now: int)
    requires Wf(m) && Timed(cfg, now)
    ensures Wf(TerminalTick(cfg, m, now)) && CloseMove(m, TerminalTick(cfg, m, now))
  {
    if DeferredClose in m.t.flags {
      SettleKeeps(cfg, m, now);
    } else if AckOverdue(m.t, now) {
      FinalizeBase(m, AckWaitTimeout);
      FinalizeMove(m, AckWaitTimeout);
      CloseRstKeeps(cfg, m, now, 0);
    } else if RstReceived in m.t.flags && IsClosed !in m.t.flags {
    } else if CloseWriteGraceOver(cfg, m.t, now) {
      CloseKeeps(cfg, m, SEND_CLOSE_WRITE, now);
    } else if now - m.t.lastActivity > cfg.inactivityTimeout {
      ControlOnly(m, m.t.(lastActivity := now), m.c);
      CloseRstKeeps(cfg, m, now, 0);
    }
  }

  lemma {:induction false} ControlScanKeeps(cfg: Config, m: Machine, now: int, order: seq<Kind>)
    requires Wf(m) && Timed(cfg, now)
    ensures Wf(ControlScan(cfg, m, now, order)) && CloseMove(m, ControlScan(cfg, m, now, order))
    decreases |order|
  {
    if order == [] {
    } else if order[0] !in m.c.tracked {
      ControlScanKeeps(cfg, m, now, order[1..]);
    } else if ControlExpired(cfg, m.c.tracked[order[0]], now) {
      var m1 := m.(c := m.c.(tracked := m.c.tracked - {order[0]}));
      ControlOnly(m, m.t, m1.c);
      FinalizeBase(m1, Expired);
      FinalizeMove(m1, Expired);
      CloseRstKeeps(cfg, m1, now, 0);
      MoveTransitive(m, m1, Finalize(m1, Expired));
      MoveTransitive(m, m1, CloseRst(cfg, m1, now, 0));
    } else {
      var m1 := m.(c := ControlResend(cfg, m.c, order[0], now));
      ControlOnly(m, m.t, m1.c);
      ControlScanKeeps(cfg, m1, now, order[1..]);
      MoveTransitive(m, m1, ControlScan(cfg, m1, now, order[1..]));
    }
  }
}
