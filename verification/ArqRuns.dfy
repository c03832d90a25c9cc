/** What every step of an endpoint keeps, and what follows for whole runs of it. */
module ArqRuns {
  import opened SeqNum
  import opened ArqTerm
  import opened ArqTermProofs
  import opened ArqState

  ghost predicate Good(e: Endpoint) {
    && ValidConfig(e.cfg)
    && Wf(MachineOf(e))
    && (e.r.inWrite != [] ==> LocalWritePending in e.t.flags)
  }

  /** No flag of the close machine is taken back, and nothing originates after a reset or a close. */
  ghost predicate Onward(e: Endpoint, f: Endpoint) {
    && f.cfg == e.cfg
    && Grows(e.t, f.t)
    && (IsClosed in e.t.flags || RstReceived in e.t.flags || RstSent in e.t.flags ==> SameOrigins(e.c, f.c))
    && e.c.closedCalls <= f.c.closedCalls
  }

  lemma OnwardTransitive(e: Endpoint, f: Endpoint, g: Endpoint)
    requires Onward(e, f) && Onward(f, g)
    ensures Onward(e, g)
  {
  }

  lemma EmptiesMembers(s: Sender, r: Receiver)
    ensures Snd in Empties(s, r) <==> s.buf == map[]
    ensures Rcv in Empties(s, r) <==> r.buf == map[]
    ensures Inbound in Empties(s, r) <==> r.pendingInbound == 0
  {
  }

  lemma SameBuffers(a: set<Buffer>, b: set<Buffer>)
    requires (Snd in a <==> Snd in b) && (Rcv in a <==> Rcv in b) && (Inbound in a <==> Inbound in b)
    ensures a == b
  {
    forall x ensures x in a <==> x in b {
      match x
      case Snd =>
      case Rcv =>
      case Inbound =>
    }
  }

  /** Putting the machine's result back loses nothing of it. */
  lemma MovedKeeps(e: Endpoint, m: Machine)
    requires CloseMove(MachineOf(e), m)
    ensures MachineOf(Moved(e, m)) == m
    ensures Onward(e, Moved(e, m))
  {
    var f := Moved(e, m);
    EmptiesMembers(e.s, e.r);
    EmptiesMembers(f.s, f.r);
    SameBuffers(Empties(f.s, f.r), m.empty);
  }

  // ---------------------------------------------------------------------
  // One lemma per kind of step
  // ---------------------------------------------------------------------

  /** States in which the send buffer stays empty. */
  predicate StaysDrained(t: Term) {
    CloseReadSent in t.flags || CloseWriteReceived in t.flags || RstSent in t.flags || IsClosed in t.flags
  }

  /** The flags the write loop itself raises and lowers. */
  const WRITER_FLAGS := {LocalWritePending, LocalWriteClosed, LocalWriterBroken}

  ghost predicate DataMove(m: Machine, n: Machine) {
    && n.c == m.c
    && n.t == m.t.(lastActivity := n.t.lastActivity, clientEOFAt := n.t.clientEOFAt, flags := n.t.flags)
    && (forall f :: f !in WRITER_FLAGS ==> (f in n.t.flags <==> f in m.t.flags))
    && (LocalWriteClosed in m.t.flags ==> LocalWriteClosed in n.t.flags)
    && (LocalWriterBroken in m.t.flags ==> LocalWriterBroken in n.t.flags)
    && (StaysDrained(m.t) && Snd in m.empty ==> Snd in n.empty)
    && (LocalWriterBroken in n.t.flags ==> Rcv in n.empty)
  }

  lemma DataMoveKeeps(m: Machine, n: Machine)
    requires Wf(m) && DataMove(m, n)
    ensures Base(n) && Grows(m.t, n.t)
    ensures (DeferredClose in m.t.flags ==> Snd !in n.empty) ==> Wf(n)
  {
  }

  lemma MovedStep(e: Endpoint, e1: Endpoint, m: Machine)
    requires Good(e) && e1.cfg == e.cfg && e1.r.inWrite == e.r.inWrite && Onward(e, e1)
    requires CloseMove(MachineOf(e1), m) && Wf(m)
    requires e1.r.inWrite != [] ==> LocalWritePending in e1.t.flags
    ensures Good(Moved(e1, m)) && Onward(e, Moved(e1, m))
  {
    MovedKeeps(e1, m);
    OnwardTransitive(e, e1, Moved(e1, m));
  }

  lemma ReadKeeps(e: Endpoint, data: Chunk, now: int)
    requires Good(e) && CanRead(e)
    ensures Good(Read(e, data, now)) && Onward(e, Read(e, data, now))
  {
    var f := Read(e, data, now);
    EmptiesMembers(f.s, f.r);
    assert e.s.nxt in f.s.buf;
    DataMoveKeeps(MachineOf(e), MachineOf(f));
  }

  lemma CloseStepKeeps(e: Endpoint, e1: Endpoint, o: CloseOptions, now: int)
    requires Good(e) && Good(e1) && Onward(e, e1) && e1.r.inWrite == e.r.inWrite && now > 0
    requires o.sendCloseRead ==> o.afterDrain
    ensures Good(CloseWith(e1, o, now)) && Onward(e, CloseWith(e1, o, now))
  {
    CloseKeeps(e.cfg, MachineOf(e1), o, now);
    MovedStep(e, e1, Close(e.cfg, MachineOf(e1), o, now));
  }

  lemma ReadEOFKeeps(e: Endpoint, now: int)
    requires Good(e) && now > 0
    ensures Good(ReadEOF(e, now)) && Onward(e, ReadEOF(e, now))
  {
    var e1 := e.(t := e.t.(clientEOFAt := if e.cfg.isClient && e.t.clientEOFAt == 0 then now else e.t.clientEOFAt));
    DataMoveKeeps(MachineOf(e), MachineOf(e1));
    CloseStepKeeps(e, e1, DRAIN_THEN_CLOSE_READ, now);
  }

  /** Steps that leave every flag alone and do not empty the send buffer. */
  lemma PlainStepKeeps(e: Endpoint, f: Endpoint)
    requires Good(e) && f.cfg == e.cfg && f.r.inWrite == e.r.inWrite && f.c == e.c
    requires f.t == e.t || f.t == Active(e.t, f.t.lastActivity)
    requires f.s.buf == map[] <==> e.s.buf == map[]
    requires LocalWriterBroken in e.t.flags ==> f.r.buf == e.r.buf
    ensures Good(f) && Onward(e, f)
  {
    EmptiesMembers(e.s, e.r);
    EmptiesMembers(f.s, f.r);
    DataMoveKeeps(MachineOf(e), MachineOf(f));
  }

  lemma AckKeeps(e: Endpoint, sn: u16, now: int)
    requires Good(e) && now > 0
    ensures Good(ReceiveAck(e, sn, now)) && Onward(e, ReceiveAck(e, sn, now))
  {
    if sn !in e.s.buf {
      PlainStepKeeps(e, ReceiveAck(e, sn, now));
    } else {
      var e1 := e.(t := Active(e.t, now), s := Acknowledge(e.cfg, e.s, sn, now));
      EmptiesMembers(e.s, e.r);
      EmptiesMembers(e1.s, e1.r);
      DataMoveKeeps(MachineOf(e), MachineOf(e1));
      TryFinalizeKeeps(e.cfg, MachineOf(e1));
      var e2 := if CloseReadReceived in e.t.flags then TryFinalize(e1) else e1;
      MovedKeeps(e1, TryFinalizeRemoteEOF(e.cfg, MachineOf(e1)));
      OnwardTransitive(e, e1, e2);
      SettleKeeps(e.cfg, MachineOf(e2), now);
      MovedStep(e, e2, Settle(e.cfg, MachineOf(e2), now));
    }
  }

  lemma CloseWriteReceivedKeeps(e: Endpoint, now: int)
    requires Good(e) && now > 0
    ensures Good(PeerClosedWrite(e, now)) && Onward(e, PeerClosedWrite(e, now))
  {
    if IsVirtual !in e.t.flags {
      var purged := map key | key in e.s.queue && key.sn !in e.s.buf :: e.s.queue[key];
      var e1 := e.(s := e.s.(queue := purged, minRetransmitAt := 0));
      MarkCloseWriteReceivedKeeps(e.cfg, MachineOf(e), now);
      PlainStepKeeps(e, e1);
      MovedStep(e, e1, MarkCloseWriteReceived(e.cfg, MachineOf(e), now));
    }
  }

  lemma CloseReadReceivedKeeps(e: Endpoint)
    requires Good(e)
    ensures var f := Moved(e, MarkCloseReadReceived(e.cfg, MachineOf(e))); Good(f) && Onward(e, f)
  {
    if IsVirtual in e.t.flags {
      MovedSame(e);
    } else {
      var state := if CloseReadSent in e.t.flags then Closing else HalfClosedRemote;
      var e1 := e.(t := e.t.(flags := e.t.flags + {CloseReadReceived}, state := state));
      RaiseCloseReadReceived(MachineOf(e), state);
      TryFinalizeWf(e.cfg, MachineOf(e1));
      MovedStep(e, e1, TryFinalizeRemoteEOF(e.cfg, MachineOf(e1)));
    }
  }

  lemma MovedSame(e: Endpoint)
    requires Good(e)
    ensures Good(Moved(e, MachineOf(e))) && Onward(e, Moved(e, MachineOf(e)))
  {
    MovedStep(e, e, MachineOf(e));
  }

  lemma ReceiveDataKeeps(e: Endpoint, room: bool, now: int)
    requires Good(e) && now > 0
    ensures Good(ReceiveData(e, room, now)) && Onward(e, ReceiveData(e, room, now))
  {
    if NeedCloseWrite(e.t) {
      CloseStepKeeps(e, e, SEND_CLOSE_WRITE, now);
    } else {
      PlainStepKeeps(e, ReceiveData(e, room, now));
    }
  }

  lemma BatchKeeps(e: Endpoint, batch: seq<Packet>, now: int)
    requires Good(e) && now > 0
    ensures Good(ProcessBatch(e, batch, now)) && Onward(e, ProcessBatch(e, batch, now))
  {
    if RejectsBatch(e.t) {
      var e1 := e.(r := e.r.(pendingInbound :=
        if e.r.pendingInbound >= |batch| then e.r.pendingInbound - |batch| else 0));
      PlainStepKeeps(e, e1);
      if NeedCloseWrite(e.t) {
        CloseStepKeeps(e, e1, SEND_CLOSE_WRITE, now);
      }
    } else {
      PlainStepKeeps(e, ProcessBatch(e, batch, now));
    }
  }

  /** Steps of the write loop, up to the close-machine call they end with. */
  lemma WriterStepKeeps(e: Endpoint, f: Endpoint, raised: set<Flag>, lowered: set<Flag>)
    requires Good(e) && f.cfg == e.cfg && f.c == e.c && f.s == e.s
    requires f.t == e.t.(flags := e.t.flags + raised - lowered)
    requires raised <= WRITER_FLAGS && lowered <= {LocalWritePending}
    requires LocalWriterBroken in f.t.flags ==> f.r.buf == e.r.buf || f.r.buf == map[]
    requires LocalWriterBroken in raised ==> f.r.buf == map[]
    requires f.r.inWrite != [] ==> LocalWritePending in f.t.flags
    ensures Good(f) && Onward(e, f)
  {
    EmptiesMembers(e.s, e.r);
    EmptiesMembers(f.s, f.r);
    DataMoveKeeps(MachineOf(e), MachineOf(f));
  }

  lemma TryFinalizeStepKeeps(e: Endpoint, e1: Endpoint)
    requires Good(e1) && Onward(e, e1)
    ensures Good(TryFinalize(e1)) && Onward(e, TryFinalize(e1))
  {
    TryFinalizeWf(e1.cfg, MachineOf(e1));
    MovedStep(e1, e1, TryFinalizeRemoteEOF(e1.cfg, MachineOf(e1)));
    OnwardTransitive(e, e1, TryFinalize(e1));
  }

  lemma DrainKeeps(e: Endpoint)
    requires Good(e) && CanDrain(e)
    ensures Good(Drain(e)) && Onward(e, Drain(e))
  {
    if Ready(e.r.buf, e.r.nxt) == [] {
      var halfClose := CloseReadReceived in e.t.flags && e.r.pendingInbound == 0 && IsClosed !in e.t.flags;
      var raised := if halfClose then {LocalWriteClosed} else {};
      var e1 := Flagged(e, raised, {LocalWritePending});
      WriterStepKeeps(e, e1, raised, {LocalWritePending});
      TryFinalizeStepKeeps(e, e1);
    } else {
      WriterStepKeeps(e, Drain(e), {LocalWritePending}, {});
    }
  }

  lemma WriteDoneKeeps(e: Endpoint)
    requires Good(e)
    ensures Good(WriteDone(e)) && Onward(e, WriteDone(e))
  {
    var e1 := Flagged(e, {}, {LocalWritePending}).(
      r := e.r.(inWrite := []), h := e.h.(output := e.h.output + e.r.inWrite));
    WriterStepKeeps(e, e1, {}, {LocalWritePending});
    TryFinalizeStepKeeps(e, e1);
  }

  lemma WriteFailedKeeps(e: Endpoint, k: nat, now: int)
    requires Good(e) && k <= |e.r.inWrite| && now > 0
    ensures Good(WriteFailed(e, k, now)) && Onward(e, WriteFailed(e, k, now))
  {
    var e1 := Flagged(e, {LocalWriterBroken}, {LocalWritePending}).(
      r := e.r.(inWrite := [], buf := map[]), h := e.h.(output := e.h.output + e.r.inWrite[..k]));
    WriterStepKeeps(e, e1, {LocalWriterBroken}, {LocalWritePending});
    CloseStepKeeps(e1, e1, SEND_CLOSE_WRITE, now);
    OnwardTransitive(e, e1, WriteFailed(e, k, now));
  }

  lemma ScanTickKeeps(e: Endpoint, now: int, order: seq<Kind>)
    requires Good(e) && now > 0
    ensures Good(ScanTick(e, now, order)) && Onward(e, ScanTick(e, now, order))
  {
    if !Skips(e.s, now) && GivesUp(e.cfg, e.s, now) {
      CloseRstKeeps(e.cfg, MachineOf(e), now, 0);
      MovedStep(e, e, CloseRst(e.cfg, MachineOf(e), now, 0));
    } else {
      var e1 := if Skips(e.s, now) then e else e.(s := Scanned(e.cfg, e.s, now));
      assert e1.s.buf.Keys == e.s.buf.Keys;
      PlainStepKeeps(e, e1);
      ControlScanKeeps(e.cfg, MachineOf(e1), now, order);
      MoveReflexive(MachineOf(e1));
      MovedStep(e, e1, ControlTick(e.cfg, MachineOf(e1), now, order));
    }
  }

  lemma MoveReflexive(m: Machine)
    ensures CloseMove(m, m)
  {
  }

  lemma TickKeeps(e: Endpoint, now: int, order: seq<Kind>)
    requires Good(e) && now > 0
    ensures Good(Tick(e, now, order)) && Onward(e, Tick(e, now, order))
  {
    if IsClosed !in e.t.flags {
      var e1 := Moved(e, TerminalTick(e.cfg, MachineOf(e), now));
      TerminalTickKeeps(e.cfg, MachineOf(e), now);
      MovedStep(e, e, TerminalTick(e.cfg, MachineOf(e), now));
      ScanTickKeeps(e1, now, order);
      OnwardTransitive(e, e1, ScanTick(e1, now, order));
    }
  }

  /** Every step of an endpoint, whatever happens to it, keeps the invariant and goes onward. */
  lemma StepKeeps(e: Endpoint, ev: Event, now: int)
    requires Good(e) && Enabled(e, ev) && now > 0
    ensures Good(Step(e, ev, now)) && Onward(e, Step(e, ev, now))
  {
    match ev
    case EvRead(data) => ReadKeeps(e, data, now);
    case EvReadEOF => ReadEOFKeeps(e, now);
    case EvClose(o) => CloseStepKeeps(e, e, o, now);
    case EvPop(key) =>
      assert key.sn in e.s.buf ==> key.sn in Pop(e.s, key, now).buf;
      PlainStepKeeps(e, e.(s := Pop(e.s, key, now)));
    case EvPopControl(k) => PopControlKeeps(e, k, now);
    case EvAck(sn) => AckKeeps(e, sn, now);
    case EvNack(sn) =>
      assert sn in e.s.buf ==> sn in HandleDataNack(e, sn, now).s.buf;
      PlainStepKeeps(e, HandleDataNack(e, sn, now));
    case EvControlAck(k) =>
      ReceiveControlAckKeeps(e.cfg, MachineOf(e), k, now);
      MovedStep(e, e, ReceiveControlAck(e.cfg, MachineOf(e), k, now));
    case EvCloseReadReceived => CloseReadReceivedKeeps(e);
    case EvCloseWriteReceived => CloseWriteReceivedKeeps(e, now);
    case EvRstReceived =>
      ReceiveRstKeeps(MachineOf(e));
      ReceiveRstMove(MachineOf(e));
      MovedStep(e, e, ReceiveRst(MachineOf(e)));
    case EvReceiveData(room) => ReceiveDataKeeps(e, room, now);
    case EvBatch(batch) => BatchKeeps(e, batch, now);
    case EvDrain => DrainKeeps(e);
    case EvWriteDone => WriteDoneKeeps(e);
    case EvWriteFailed(k) => WriteFailedKeeps(e, k, now);
    case EvTick(order) => TickKeeps(e, now, order);
  }

  lemma PopControlKeeps(e: Endpoint, k: Kind, now: int)
    requires Good(e)
    ensures var f := e.(c := PopControl(e.cfg, e.c, k, now)); Good(f) && Onward(e, f)
  {
    ControlOnly(MachineOf(e), e.t, PopControl(e.cfg, e.c, k, now));
  }
}
