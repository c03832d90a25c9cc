/** Every step of an endpoint keeps its sending half healthy; so does every run. */
module ArqSenderRuns {
  import opened SeqNum
  import opened ArqTerm
  import opened ArqTermProofs
  import opened ArqState
  import opened ArqRuns
  import opened ArqFlow
  import opened ArqSender
  import opened ArqClosing

  ghost predicate Fit(e: Endpoint) {
    Good(e) && Healthy(e.cfg, e.s, Flushed(e.t))
  }

  lemma EmptyHealthy(cfg: Config, s: Sender, s1: Sender, flushed: bool)
    requires Healthy(cfg, s, flushed) && s1.buf == map[] && s1.rtt == s.rtt
    requires forall key :: key in s1.queue ==> key in s.queue
    ensures Healthy(cfg, s1, true)
  {
  }

  lemma MovedHealthy(e: Endpoint, m: Machine)
    requires CloseMove(MachineOf(e), m) && Base(m) && Healthy(e.cfg, e.s, Flushed(e.t))
    ensures Healthy(e.cfg, Moved(e, m).s, Flushed(Moved(e, m).t))
  {
    var f := Moved(e, m);
    EmptiesMembers(e.s, e.r);
    GivenUpGrows(e.t, m.t);
    if Snd in m.empty {
      if Flushed(m.t) {
        EmptyHealthy(e.cfg, e.s, f.s, Flushed(e.t));
      } else {
        EmptyOneCopy(e.s, f.s);
      }
    } else {
      assert f.s == e.s;
    }
  }

  /** An empty, unflushed send side has an empty queue. */
  lemma EmptyOneCopy(s: Sender, s1: Sender)
    requires OneCopy(s, false) && s.buf == map[] && s1.buf == map[]
    requires s1.queue == s.queue || s1.queue == map[]
    ensures OneCopy(s1, false)
  {
  }

  lemma StaysFit(e: Endpoint, f: Endpoint)
    requires Healthy(e.cfg, e.s, Flushed(e.t)) && f.cfg == e.cfg && f.s == e.s
    requires f.t.flags == e.t.flags && f.t.reason == e.t.reason
    ensures Healthy(f.cfg, f.s, Flushed(f.t))
  {
  }

  lemma CloseWithHealthy(e: Endpoint, o: CloseOptions, now: int)
    requires Good(e) && Healthy(e.cfg, e.s, Flushed(e.t)) && now > 0 && (o.sendCloseRead ==> o.afterDrain)
    ensures Healthy(e.cfg, CloseWith(e, o, now).s, Flushed(CloseWith(e, o, now).t))
  {
    CloseKeeps(e.cfg, MachineOf(e), o, now);
    MovedHealthy(e, Close(e.cfg, MachineOf(e), o, now));
  }

  lemma ReadHealthy(e: Endpoint, data: Chunk, now: int)
    requires Fit(e) && CanRead(e) && e.s.nxt !in e.s.buf && now > 0
    ensures Healthy(e.cfg, Read(e, data, now).s, Flushed(Read(e, data, now).t))
  {
    assert !Flushed(e.t);
    EnqueueHealthy(e.cfg, e.s, data, now);
  }

  lemma TryFinalizeHealthy(e: Endpoint)
    requires Base(MachineOf(e)) && Healthy(e.cfg, e.s, Flushed(e.t))
    ensures Healthy(e.cfg, TryFinalize(e).s, Flushed(TryFinalize(e).t))
  {
    TryFinalizeKeeps(e.cfg, MachineOf(e));
    MovedHealthy(e, TryFinalizeRemoteEOF(e.cfg, MachineOf(e)));
  }

  lemma AcknowledgedBase(e: Endpoint, e1: Endpoint, sn: u16, now: int)
    requires Good(e) && sn in e.s.buf
    requires e1 == e.(t := Active(e.t, now), s := Acknowledge(e.cfg, e.s, sn, now))
    ensures Base(MachineOf(e1))
  {
    EmptiesMembers(e.s, e.r);
    EmptiesMembers(e1.s, e1.r);
    DataMoveKeeps(MachineOf(e), MachineOf(e1));
  }

  lemma AckHealthy(e: Endpoint, sn: u16, now: int)
    requires Fit(e) && now > 0
    ensures Healthy(e.cfg, ReceiveAck(e, sn, now).s, Flushed(ReceiveAck(e, sn, now).t))
  {
    if sn !in e.s.buf {
      StaysFit(e, ReceiveAck(e, sn, now));
    } else {
      var e1 := e.(t := Active(e.t, now), s := Acknowledge(e.cfg, e.s, sn, now));
      AcknowledgeHealthy(e.cfg, e.s, sn, now, Flushed(e.t));
      AcknowledgedBase(e, e1, sn, now);
      TryFinalizeHealthy(e1);
      TryFinalizeKeeps(e.cfg, MachineOf(e1));
      MovedKeeps(e1, TryFinalizeRemoteEOF(e.cfg, MachineOf(e1)));
      var e2 := if CloseReadReceived in e.t.flags then TryFinalize(e1) else e1;
      SettleKeeps(e.cfg, MachineOf(e2), now);
      MovedHealthy(e2, Settle(e.cfg, MachineOf(e2), now));
    }
  }

  lemma PeerClosedWriteHealthy(e: Endpoint, now: int)
    requires Fit(e) && now > 0
    ensures Healthy(e.cfg, PeerClosedWrite(e, now).s, Flushed(PeerClosedWrite(e, now).t))
  {
    if IsVirtual !in e.t.flags {
      var f := PeerClosedWrite(e, now);
      var m := MachineOf(e);
      CloseWriteReceivedKeeps(e, now);
      MarkCloseWriteReceivedKeeps(e.cfg, m, now);
      PeerStoppedReadingKeeps(m);
      SettleKeeps(e.cfg, PeerStoppedReading(m), now);
      TryFinalizeWf(e.cfg, Settle(e.cfg, PeerStoppedReading(m), now));
      EmptyHealthy(e.cfg, e.s, f.s, Flushed(e.t));
    }
  }

  lemma ScanTickHealthy(e: Endpoint, now: int, order: seq<Kind>)
    requires Fit(e) && now > 0
    ensures Healthy(e.cfg, ScanTick(e, now, order).s, Flushed(ScanTick(e, now, order).t))
  {
    if !Skips(e.s, now) && GivesUp(e.cfg, e.s, now) {
      CloseRstKeeps(e.cfg, MachineOf(e), now, 0);
      MovedHealthy(e, CloseRst(e.cfg, MachineOf(e), now, 0));
    } else {
      var e1 := if Skips(e.s, now) then e else e.(s := Scanned(e.cfg, e.s, now));
      ScanHealthy(e.cfg, e.s, now, Flushed(e.t));
      assert e1.s.buf.Keys == e.s.buf.Keys;
      PlainStepKeeps(e, e1);
      ControlScanKeeps(e.cfg, MachineOf(e1), now, order);
      MoveReflexive(MachineOf(e1));
      MovedHealthy(e1, ControlTick(e.cfg, MachineOf(e1), now, order));
    }
  }

  lemma TickHealthy(e: Endpoint, now: int, order: seq<Kind>)
    requires Fit(e) && now > 0
    ensures Healthy(e.cfg, Tick(e, now, order).s, Flushed(Tick(e, now, order).t))
  {
    if IsClosed !in e.t.flags {
      var e1 := Moved(e, TerminalTick(e.cfg, MachineOf(e), now));
      TerminalTickKeeps(e.cfg, MachineOf(e), now);
      MovedStep(e, e, TerminalTick(e.cfg, MachineOf(e), now));
      MovedHealthy(e, TerminalTick(e.cfg, MachineOf(e), now));
      ScanTickHealthy(e1, now, order);
    }
  }

  lemma WriterHealthy(e: Endpoint, ev: Event, now: int)
    requires Fit(e) && Enabled(e, ev) && now > 0
    requires ev.EvDrain? || ev.EvWriteDone? || ev.EvWriteFailed?
    ensures Healthy(e.cfg, Step(e, ev, now).s, Flushed(Step(e, ev, now).t))
  {
    match ev
    case EvDrain =>
      if Ready(e.r.buf, e.r.nxt) == [] {
        var halfClose := CloseReadReceived in e.t.flags && e.r.pendingInbound == 0 && IsClosed !in e.t.flags;
        var raised := if halfClose then {LocalWriteClosed} else {};
        WriterStepKeeps(e, Flagged(e, raised, {LocalWritePending}), raised, {LocalWritePending});
        TryFinalizeHealthy(Flagged(e, raised, {LocalWritePending}));
      }
    case EvWriteDone =>
      var e1 := Flagged(e, {}, {LocalWritePending}).(
        r := e.r.(inWrite := []), h := e.h.(output := e.h.output + e.r.inWrite));
      WriterStepKeeps(e, e1, {}, {LocalWritePending});
      TryFinalizeHealthy(e1);
    case EvWriteFailed(k) =>
      var e1 := Flagged(e, {LocalWriterBroken}, {LocalWritePending}).(
        r := e.r.(inWrite := [], buf := map[]), h := e.h.(output := e.h.output + e.r.inWrite[..k]));
      WriterStepKeeps(e, e1, {LocalWriterBroken}, {LocalWritePending});
      CloseWithHealthy(e1, SEND_CLOSE_WRITE, now);
    case _ =>
  }

  lemma InboundHealthy(e: Endpoint, ev: Event, now: int)
    requires Fit(e) && Enabled(e, ev) && now > 0 && (ev.EvReceiveData? || ev.EvBatch?)
    ensures Healthy(e.cfg, Step(e, ev, now).s, Flushed(Step(e, ev, now).t))
  {
    match ev
    case EvReceiveData(room) =>
      if NeedCloseWrite(e.t) {
        CloseWithHealthy(e, SEND_CLOSE_WRITE, now);
      } else {
        StaysFit(e, ReceiveData(e, room, now));
      }
    case EvBatch(batch) =>
      var e1 := e.(r := e.r.(pendingInbound :=
        if e.r.pendingInbound >= |batch| then e.r.pendingInbound - |batch| else 0));
      if !RejectsBatch(e.t) {
        StaysFit(e, ProcessBatch(e, batch, now));
      } else {
        StaysFit(e, e1);
        PlainStepKeeps(e, e1);
        if NeedCloseWrite(e.t) { CloseWithHealthy(e1, SEND_CLOSE_WRITE, now); }
      }
    case _ =>
  }

  lemma NackStepHealthy(e: Endpoint, sn: u16, now: int)
    requires Fit(e)
    ensures Healthy(e.cfg, HandleDataNack(e, sn, now).s, Flushed(HandleDataNack(e, sn, now).t))
  {
    if NackHonoured(e.cfg, e.s, sn, now) { NackHealthy(e.cfg, e.s, sn, now, Flushed(e.t)); }
  }

  lemma ControlHealthy(e: Endpoint, ev: Event, now: int)
    requires Fit(e) && Enabled(e, ev) && now > 0
    requires ev.EvReadEOF? || ev.EvClose? || ev.EvControlAck? || ev.EvCloseReadReceived? || ev.EvRstReceived?
    ensures Healthy(e.cfg, Step(e, ev, now).s, Flushed(Step(e, ev, now).t))
  {
    match ev
    case EvReadEOF =>
      var e1 := e.(t := e.t.(clientEOFAt := if e.cfg.isClient && e.t.clientEOFAt == 0 then now else e.t.clientEOFAt));
      DataMoveKeeps(MachineOf(e), MachineOf(e1));
      CloseWithHealthy(e1, DRAIN_THEN_CLOSE_READ, now);
    case EvClose(o) => CloseWithHealthy(e, o, now);
    case EvControlAck(k) =>
      ReceiveControlAckKeeps(e.cfg, MachineOf(e), k, now);
      MovedHealthy(e, ReceiveControlAck(e.cfg, MachineOf(e), k, now));
    case EvCloseReadReceived => CloseReadReceivedHealthy(e);
    case EvRstReceived =>
      ReceiveRstKeeps(MachineOf(e));
      ReceiveRstMove(MachineOf(e));
      MovedHealthy(e, ReceiveRst(MachineOf(e)));
    case _ =>
  }

  lemma CloseReadReceivedHealthy(e: Endpoint)
    requires Fit(e)
    ensures var f := Moved(e, MarkCloseReadReceived(e.cfg, MachineOf(e))); Healthy(e.cfg, f.s, Flushed(f.t))
  {
    if IsVirtual in e.t.flags {
      MoveReflexive(MachineOf(e));
      MovedHealthy(e, MachineOf(e));
    } else {
      var state := if CloseReadSent in e.t.flags then Closing else HalfClosedRemote;
      var e1 := e.(t := e.t.(flags := e.t.flags + {CloseReadReceived}, state := state));
      RaiseCloseReadReceived(MachineOf(e), state);
      TryFinalizeHealthy(e1);
    }
  }

  /** Every step keeps the sending half healthy, as long as no chunk is read whose number is still unacknowledged. */
  lemma StepKeepsFit(e: Endpoint, ev: Event, now: int)
    requires Fit(e) && Enabled(e, ev) && now > 0 && (ev.EvRead? ==> e.s.nxt !in e.s.buf)
    ensures Fit(Step(e, ev, now))
  {
    StepKeeps(e, ev, now);
    match ev
    case EvRead(data) => ReadHealthy(e, data, now);
    case EvPop(key) => PopHealthy(e.cfg, e.s, key, now, Flushed(e.t));
    case EvPopControl(k) =>
    case EvAck(sn) => AckHealthy(e, sn, now);
    case EvNack(sn) => NackStepHealthy(e, sn, now);
    case EvCloseWriteReceived => PeerClosedWriteHealthy(e, now);
    case EvReceiveData(_) => InboundHealthy(e, ev, now);
    case EvBatch(_) => InboundHealthy(e, ev, now);
    case EvDrain => WriterHealthy(e, ev, now);
    case EvWriteDone => WriterHealthy(e, ev, now);
    case EvWriteFailed(_) => WriterHealthy(e, ev, now);
    case EvTick(order) => TickHealthy(e, now, order);
    case _ => ControlHealthy(e, ev, now);
  }

  /** No chunk is read whose sequence number is still unacknowledged. */
  ghost predicate Spaced(e: Endpoint, trace: seq<Happening>)
    requires Runs(e, trace)
    decreases |trace|
  {
    trace == [] ||
    ((trace[0].ev.EvRead? ==> e.s.nxt !in e.s.buf) && Spaced(Step(e, trace[0].ev, trace[0].now), trace[1..]))
  }

  lemma {:induction false} RunStaysFit(e: Endpoint, trace: seq<Happening>)
    requires Fit(e) && Runs(e, trace) && Spaced(e, trace)
    ensures Fit(After(e, trace)) && After(e, trace).cfg == e.cfg
    decreases |trace|
  {
    if trace != [] {
      StepKeepsFit(e, trace[0].ev, trace[0].now);
      StepKeeps(e, trace[0].ev, trace[0].now);
      RunStaysFit(Step(e, trace[0].ev, trace[0].now), trace[1..]);
    }
  }

  /**
   * In every run no unacknowledged chunk is forgotten, the queue holds at most one copy of each, timeouts stay
   * within their bounds, samples are unambiguous and the hint is sound.
   */
  lemma SenderStaysHealthy(cfg: Config, isVirtual: bool, start: int, trace: seq<Happening>)
    requires ValidConfig(cfg) && Runs(Initial(cfg, isVirtual, start), trace)
    requires Spaced(Initial(cfg, isVirtual, start), trace)
    ensures var e := After(Initial(cfg, isVirtual, start), trace); Healthy(cfg, e.s, Flushed(e.t))
  {
    InitialIsGood(cfg, isVirtual, start);
    RunStaysFit(Initial(cfg, isVirtual, start), trace);
  }
}
