/**
 * The control plane over whole runs: its round-trip estimate and the timeouts of tracked close packets stay within
 * their bounds. Beside it, what else no function of the close machine does: make a stream virtual.
 */
module ArqControl {
  import opened SeqNum
  import opened Extrema
  import opened ArqTerm
  import opened ArqState
  import opened ArqRuns
  import opened ArqClosing
  import opened ArqSender

  /** The estimate and every tracked packet's timeout are in [controlRto, controlMaxRto]. */
  ghost predicate ControlOk(cfg: Config, c: Control) {
    && RttOk(c.rtt, cfg.controlRto, cfg.controlMaxRto)
    && forall k :: k in c.tracked ==> cfg.controlRto <= c.tracked[k].currentRTO <= cfg.controlMaxRto
  }

  /** From `m` to `n` the control plane keeps its bounds, and the stream does not become virtual. */
  ghost predicate Steady(cfg: Config, m: Machine, n: Machine) {
    (ControlOk(cfg, m.c) ==> ControlOk(cfg, n.c)) && (IsVirtual in n.t.flags ==> IsVirtual in m.t.flags)
  }

  // ---------------------------------------------------------------------
  // The control plane
  // ---------------------------------------------------------------------

  lemma SendControlOk(cfg: Config, c: Control, k: Kind, now: int, ttl: nat)
    requires ValidConfig(cfg) && ControlOk(cfg, c)
    ensures ControlOk(cfg, SendControl(cfg, c, k, now, ttl))
  {
  }

  lemma UntrackOk(cfg: Config, c: Control, k: Kind, now: int)
    requires ValidConfig(cfg) && ControlOk(cfg, c)
    ensures ControlOk(cfg, Untrack(cfg, c, k, now))
  {
    if k in c.tracked {
      SampleKeepsBounds(c.rtt, now - c.tracked[k].lastSentAt, cfg.controlRto, cfg.controlMaxRto);
    }
  }

  /** A retransmission never shortens a close packet's timeout, nor takes it out of its bounds. */
  lemma ControlResendNeverShortens(cfg: Config, c: Control, k: Kind, now: int)
    requires ValidConfig(cfg) && ControlOk(cfg, c) && k in c.tracked
    ensures ControlOk(cfg, ControlResend(cfg, c, k, now))
    ensures c.tracked[k].currentRTO <= ControlResend(cfg, c, k, now).tracked[k].currentRTO
  {
  }

  /**
   * A tracked packet that left the queue a whole timeout ago, and waits there no more, is queued again with 1.25 times
   * the timeout, rounded down, unless that is out of bounds; any other is left alone.
   */
  lemma ControlResendBacksOff(cfg: Config, c: Control, k: Kind, now: int)
    requires ValidConfig(cfg) && ControlOk(cfg, c) && k in c.tracked
    ensures var n, item := ControlResend(cfg, c, k, now), c.tracked[k];
            var due := item.dispatched && now - item.lastSentAt >= item.currentRTO && k !in c.queued;
            && k in n.tracked && (!due ==> n == c)
            && (due ==> n.queued == c.queued + {k} && n.tracked[k].retries == item.retries + 1
                        && !n.tracked[k].dispatched && n.tracked[k].lastSentAt == now
                        && (n.tracked[k].currentRTO == cfg.controlMaxRto
                            || 4 * n.tracked[k].currentRTO > 5 * item.currentRTO - 4)
                        && (4 * n.tracked[k].currentRTO <= 5 * item.currentRTO
                            || n.tracked[k].currentRTO == ControlBaseRTO(cfg, c)))
  {
  }

  lemma PopControlOk(cfg: Config, c: Control, k: Kind, now: int)
    requires ControlOk(cfg, c)
    ensures ControlOk(cfg, PopControl(cfg, c, k, now))
  {
  }

  // ---------------------------------------------------------------------
  // The functions of the machine
  // ---------------------------------------------------------------------

  lemma SteadyTransitive(cfg: Config, m: Machine, n: Machine, o: Machine)
    requires Steady(cfg, m, n) && Steady(cfg, n, o)
    ensures Steady(cfg, m, o)
  {
  }

  lemma FinalizeSteady(cfg: Config, m: Machine, why: Reason)
    ensures Steady(cfg, m, Finalize(m, why)) && Steady(cfg, m, ForceClose(m, why))
  {
  }

  lemma TryFinalizeSteady(cfg: Config, m: Machine)
    ensures Steady(cfg, m, TryFinalizeRemoteEOF(cfg, m))
  {
    FinalizeSteady(cfg, m, HandshakeDone);
    FinalizeSteady(cfg, m, LocalDisconnectDone);
  }

  lemma EmitSteady(cfg: Config, m: Machine, k: Kind, now: int, ttl: nat)
    requires ValidConfig(cfg)
    ensures Steady(cfg, m, Emit(cfg, m, k, now, ttl))
  {
    if ControlOk(cfg, m.c) { SendControlOk(cfg, m.c, k, now, ttl); }
    if ControlOk(cfg, m.c.(tracked := map[])) { SendControlOk(cfg, m.c.(tracked := map[]), k, now, ttl); }
    if k == CloseRead {
      var t := Emitting(cfg, m.t, k, {CloseReadSent}, StateAfterSending(m.t, HalfClosedLocal), now);
      var n := TryFinalizeRemoteEOF(cfg, m.(t := t));
      TryFinalizeSteady(cfg, m.(t := t));
      if ControlOk(cfg, n.c) { SendControlOk(cfg, n.c, k, now, ttl); }
    }
  }

  lemma CloseRstSteady(cfg: Config, m: Machine, now: int, ttl: nat)
    requires ValidConfig(cfg)
    ensures Steady(cfg, m, CloseRst(cfg, m, now, ttl))
  {
    EmitSteady(cfg, BeginReset(m), Rst, now, ttl);
  }

  lemma CloseNowSteady(cfg: Config, m: Machine, k: Kind, now: int)
    requires ValidConfig(cfg)
    ensures Steady(cfg, m, CloseNow(cfg, m, k, now))
  {
    FinalizeSteady(cfg, m, Forced);
    CloseRstSteady(cfg, m, now, 0);
    EmitSteady(cfg, m, k, now, 0);
  }

  lemma SettleSteady(cfg: Config, m: Machine, now: int)
    requires ValidConfig(cfg)
    ensures Steady(cfg, m, Settle(cfg, m, now))
  {
    CloseNowSteady(cfg, ClearDeferred(m), m.t.deferredPacket, now);
    CloseNowSteady(cfg, ClearDeferred(m), Rst, now);
  }

  lemma DeferSteady(cfg: Config, m: Machine, k: Kind, now: int)
    requires ValidConfig(cfg)
    ensures Steady(cfg, m, Defer(cfg, m, k, now))
  {
    SettleSteady(cfg, BeginDrain(cfg, m, k, now), now);
  }

  lemma CloseSteady(cfg: Config, m: Machine, o: CloseOptions, now: int)
    requires ValidConfig(cfg)
    ensures Steady(cfg, m, Close(cfg, m, o, now))
  {
    FinalizeSteady(cfg, m, Forced);
    DeferSteady(cfg, m, CloseRead, now);
    EmitSteady(cfg, m, CloseRead, now, o.ttl);
    EmitSteady(cfg, m, CloseWrite, now, o.ttl);
    CloseRstSteady(cfg, m, now, o.ttl);
    DeferSteady(cfg, BeginReset(m), Rst, now);
  }

  lemma CloseReadReceivedSteady(cfg: Config, m: Machine)
    ensures Steady(cfg, m, MarkCloseReadReceived(cfg, m))
  {
    var state := if CloseReadSent in m.t.flags then Closing else HalfClosedRemote;
    TryFinalizeSteady(cfg, m.(t := m.t.(flags := m.t.flags + {CloseReadReceived}, state := state)));
  }

  lemma CloseWriteReceivedSteady(cfg: Config, m: Machine, now: int)
    requires ValidConfig(cfg)
    ensures Steady(cfg, m, MarkCloseWriteReceived(cfg, m, now))
  {
    SettleSteady(cfg, PeerStoppedReading(m), now);
    TryFinalizeSteady(cfg, Settle(cfg, PeerStoppedReading(m), now));
  }

  lemma RstReceivedSteady(cfg: Config, m: Machine)
    ensures Steady(cfg, m, ReceiveRst(m))
  {
    FinalizeSteady(cfg, MarkRstReceived(m), Forced);
  }

  lemma InitiateSteady(cfg: Config, m: Machine, now: int)
    requires ValidConfig(cfg)
    ensures Steady(cfg, m, InitiateCloseRead(cfg, m, now))
  {
    var drain := Snd !in m.empty || LocalWritePending in m.t.flags;
    CloseSteady(cfg, m, CloseOptions(false, false, false, true, drain, 0), now);
  }

  lemma CloseAckedSteady(cfg: Config, m: Machine, k: Kind, now: int)
    requires ValidConfig(cfg)
    ensures Steady(cfg, m, CloseAcked(cfg, m, k, now))
  {
    match k
    case NoKind =>
    case CloseRead => TryFinalizeSteady(cfg, m.(t := MarkCloseReadAcked(m.t, now)));
    case CloseWrite =>
      var m1 := m.(t := MarkCloseWriteAcked(m.t));
      InitiateSteady(cfg, m1, now);
      TryFinalizeSteady(cfg, InitiateCloseRead(cfg, m1, now));
    case Rst => FinalizeSteady(cfg, MarkRstAcked(m), ResetAcked);
  }

  lemma ControlAckSteady(cfg: Config, m: Machine, k: Kind, now: int)
    requires ValidConfig(cfg)
    ensures Steady(cfg, m, ReceiveControlAck(cfg, m, k, now))
  {
    if ControlOk(cfg, m.c) { UntrackOk(cfg, m.c, k, now); }
    CloseAckedSteady(cfg, m.(t := m.t.(lastActivity := now), c := Untrack(cfg, m.c, k, now)), k, now);
  }

  lemma TerminalTickSteady(cfg: Config, m: Machine, now: int)
    requires ValidConfig(cfg)
    ensures Steady(cfg, m, TerminalTick(cfg, m, now))
  {
    SettleSteady(cfg, m, now);
    FinalizeSteady(cfg, m, AckWaitTimeout);
    CloseRstSteady(cfg, m, now, 0);
    RstReceivedSteady(cfg, m);
    CloseSteady(cfg, m, SEND_CLOSE_WRITE, now);
  }

  lemma {:induction false} ControlScanSteady(cfg: Config, m: Machine, now: int, order: seq<Kind>)
    requires ValidConfig(cfg)
    ensures Steady(cfg, m, ControlScan(cfg, m, now, order))
    decreases |order|
  {
    if order == [] {
    } else if order[0] !in m.c.tracked {
      ControlScanSteady(cfg, m, now, order[1..]);
    } else if ControlExpired(cfg, m.c.tracked[order[0]], now) {
      var m1 := m.(c := m.c.(tracked := m.c.tracked - {order[0]}));
      FinalizeSteady(cfg, m1, Expired);
      CloseRstSteady(cfg, m1, now, 0);
    } else {
      if ControlOk(cfg, m.c) { ControlResendNeverShortens(cfg, m.c, order[0], now); }
      ControlScanSteady(cfg, m.(c := ControlResend(cfg, m.c, order[0], now)), now, order[1..]);
    }
  }

  // ---------------------------------------------------------------------
  // Steps and runs of an endpoint
  // ---------------------------------------------------------------------

  ghost predicate SteadyStep(e: Endpoint, f: Endpoint) {
    f.cfg == e.cfg && Steady(e.cfg, MachineOf(e), MachineOf(f))
  }

  /** A move of the machine from a state with the same control plane and no new virtual mark. */
  lemma MovedSteady(e: Endpoint, e1: Endpoint, m: Machine)
    requires SteadyStep(e, e1) && Steady(e.cfg, MachineOf(e1), m)
    ensures SteadyStep(e, Moved(e1, m))
  {
  }

  lemma CloseWithSteady(e: Endpoint, e1: Endpoint, o: CloseOptions, now: int)
    requires ValidConfig(e.cfg) && SteadyStep(e, e1)
    ensures SteadyStep(e, CloseWith(e1, o, now))
  {
    CloseSteady(e.cfg, MachineOf(e1), o, now);
    MovedSteady(e, e1, Close(e.cfg, MachineOf(e1), o, now));
  }

  lemma TryFinalizedSteady(e: Endpoint, e1: Endpoint)
    requires SteadyStep(e, e1)
    ensures SteadyStep(e, TryFinalize(e1))
  {
    TryFinalizeSteady(e.cfg, MachineOf(e1));
    MovedSteady(e, e1, TryFinalizeRemoteEOF(e.cfg, MachineOf(e1)));
  }

  lemma AckSteady(e: Endpoint, sn: u16, now: int)
    requires ValidConfig(e.cfg)
    ensures SteadyStep(e, ReceiveAck(e, sn, now))
  {
    if sn in e.s.buf {
      var e1 := e.(t := Active(e.t, now), s := Acknowledge(e.cfg, e.s, sn, now));
      TryFinalizedSteady(e, e1);
      var e2 := if CloseReadReceived in e.t.flags then TryFinalize(e1) else e1;
      SettleSteady(e.cfg, MachineOf(e2), now);
      MovedSteady(e, e2, Settle(e.cfg, MachineOf(e2), now));
    }
  }

  lemma BatchSteady(e: Endpoint, batch: seq<Packet>, now: int)
    requires ValidConfig(e.cfg)
    ensures SteadyStep(e, ProcessBatch(e, batch, now))
  {
    var pending := if e.r.pendingInbound >= |batch| then e.r.pendingInbound - |batch| else 0;
    var e1 := e.(r := e.r.(pendingInbound := pending));
    CloseWithSteady(e, e1, SEND_CLOSE_WRITE, now);
  }

  lemma WriterSteady(e: Endpoint, ev: Event, now: int)
    requires ValidConfig(e.cfg) && Enabled(e, ev) && (ev.EvDrain? || ev.EvWriteDone? || ev.EvWriteFailed?)
    ensures SteadyStep(e, Step(e, ev, now))
  {
    match ev
    case EvDrain =>
      var halfClose := CloseReadReceived in e.t.flags && e.r.pendingInbound == 0 && IsClosed !in e.t.flags;
      TryFinalizedSteady(e, Flagged(e, if halfClose then {LocalWriteClosed} else {}, {LocalWritePending}));
    case EvWriteDone =>
      TryFinalizedSteady(e, Flagged(e, {}, {LocalWritePending}).(
        r := e.r.(inWrite := []), h := e.h.(output := e.h.output + e.r.inWrite)));
    case EvWriteFailed(k) =>
      CloseWithSteady(e, Flagged(e, {LocalWriterBroken}, {LocalWritePending}).(
        r := e.r.(inWrite := [], buf := map[]), h := e.h.(output := e.h.output + e.r.inWrite[..k])),
        SEND_CLOSE_WRITE, now);
    case _ =>
  }

  lemma ScanTickSteady(e: Endpoint, e1: Endpoint, now: int, order: seq<Kind>)
    requires ValidConfig(e.cfg) && SteadyStep(e, e1)
    ensures SteadyStep(e, ScanTick(e1, now, order))
  {
    if !Skips(e1.s, now) && GivesUp(e1.cfg, e1.s, now) {
      CloseRstSteady(e.cfg, MachineOf(e1), now, 0);
      MovedSteady(e, e1, CloseRst(e.cfg, MachineOf(e1), now, 0));
    } else {
      var e2 := if Skips(e1.s, now) then e1 else e1.(s := Scanned(e1.cfg, e1.s, now));
      ControlScanSteady(e.cfg, MachineOf(e2), now, order);
      MovedSteady(e, e2, ControlTick(e.cfg, MachineOf(e2), now, order));
    }
  }

  lemma TickSteady(e: Endpoint, now: int, order: seq<Kind>)
    requires ValidConfig(e.cfg)
    ensures SteadyStep(e, Tick(e, now, order))
  {
    if IsClosed !in e.t.flags {
      TerminalTickSteady(e.cfg, MachineOf(e), now);
      MovedSteady(e, e, TerminalTick(e.cfg, MachineOf(e), now));
      ScanTickSteady(e, Moved(e, TerminalTick(e.cfg, MachineOf(e), now)), now, order);
    }
  }

  lemma PeerSteady(e: Endpoint, ev: Event, now: int)
    requires ValidConfig(e.cfg) && Enabled(e, ev)
    requires ev.EvControlAck? || ev.EvCloseReadReceived? || ev.EvCloseWriteReceived? || ev.EvRstReceived?
    ensures SteadyStep(e, Step(e, ev, now))
  {
    var m := MachineOf(e);
    match ev
    case EvControlAck(k) =>
      ControlAckSteady(e.cfg, m, k, now);
      MovedSteady(e, e, ReceiveControlAck(e.cfg, m, k, now));
    case EvCloseReadReceived =>
      CloseReadReceivedSteady(e.cfg, m);
      MovedSteady(e, e, MarkCloseReadReceived(e.cfg, m));
    case EvCloseWriteReceived =>
      CloseWriteReceivedSteady(e.cfg, m, now);
    case EvRstReceived =>
      RstReceivedSteady(e.cfg, m);
      MovedSteady(e, e, ReceiveRst(m));
    case _ =>
  }

  /** Every step keeps the bounds of the control plane, and no step makes a stream virtual. */
  lemma StepSteady(e: Endpoint, ev: Event, now: int)
    requires ValidConfig(e.cfg) && Enabled(e, ev)
    ensures SteadyStep(e, Step(e, ev, now))
  {
    match ev
    case EvReadEOF =>
      var at := if e.cfg.isClient && e.t.clientEOFAt == 0 then now else e.t.clientEOFAt;
      CloseWithSteady(e, e.(t := e.t.(clientEOFAt := at)), DRAIN_THEN_CLOSE_READ, now);
    case EvClose(o) => CloseWithSteady(e, e, o, now);
    case EvPopControl(k) => if ControlOk(e.cfg, e.c) { PopControlOk(e.cfg, e.c, k, now); }
    case EvAck(sn) => AckSteady(e, sn, now);
    case EvReceiveData(_) => CloseWithSteady(e, e, SEND_CLOSE_WRITE, now);
    case EvBatch(batch) => BatchSteady(e, batch, now);
    case EvTick(order) => TickSteady(e, now, order);
    case EvRead(_) =>
    case EvPop(_) =>
    case EvNack(_) =>
    case EvDrain => WriterSteady(e, ev, now);
    case EvWriteDone => WriterSteady(e, ev, now);
    case EvWriteFailed(_) => WriterSteady(e, ev, now);
    case _ => PeerSteady(e, ev, now);
  }

  lemma {:induction false} RunSteady(e: Endpoint, trace: seq<Happening>)
    requires ValidConfig(e.cfg) && Runs(e, trace)
    ensures SteadyStep(e, After(e, trace))
    decreases |trace|
  {
    if trace != [] {
      var e1 := Step(e, trace[0].ev, trace[0].now);
      StepSteady(e, trace[0].ev, trace[0].now);
      RunSteady(e1, trace[1..]);
      SteadyTransitive(e.cfg, MachineOf(e), MachineOf(e1), MachineOf(After(e1, trace[1..])));
    }
  }

  /**
   * In every run the round-trip estimate of the control plane and the timeout of every tracked close packet stay
   * within their bounds, and a stream that was not virtual never is.
   */
  lemma ControlStaysBounded(cfg: Config, isVirtual: bool, start: int, trace: seq<Happening>)
    requires ValidConfig(cfg) && Runs(Initial(cfg, isVirtual, start), trace)
    ensures var e := After(Initial(cfg, isVirtual, start), trace);
            ControlOk(cfg, e.c) && (IsVirtual in e.t.flags ==> isVirtual)
  {
    RunSteady(Initial(cfg, isVirtual, start), trace);
  }
}
