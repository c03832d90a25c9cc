/** What each step of an endpoint can do to the chunks it sends and receives, close machine included. */
module ArqFlow {
  import opened SeqNum
  import opened ArqTerm
  import opened ArqTermProofs
  import opened ArqState
  import opened ArqRuns

  /** The receive side is in use. */
  predicate Receiving(t: Term) {
    !GaveUp(t) && IsClosed !in t.flags
  }

  /** A queued copy is one that was queued already or carries the data of an unacknowledged chunk. */
  ghost predicate QueueFrom(s: Sender, queue: TxQueue) {
    forall key :: key in queue ==>
      (key in s.queue && queue[key] == s.queue[key]) || (key.sn in s.buf && queue[key] == s.buf[key.sn].data)
  }

  ghost predicate SameData(buf: map<u16, Item>, buf1: map<u16, Item>) {
    forall sn :: sn in buf1 ==> sn in buf && buf1[sn].data == buf[sn].data
  }

  /** Nothing is read; unacknowledged chunks go only when the send side is given up. */
  ghost predicate SenderQuiet(e: Endpoint, f: Endpoint) {
    && f.h.input == e.h.input && f.s.nxt == e.s.nxt
    && SameData(e.s.buf, f.s.buf) && QueueFrom(e.s, f.s.queue)
    && (f.s.buf.Keys == e.s.buf.Keys || Flushed(f.t))
  }

  /** The stream finished its handshake in this step. */
  predicate Finishes(t: Term, t': Term) {
    IsClosed !in t.flags && IsClosed in t'.flags && t'.reason == HandshakeDone
  }

  /** Nothing is taken or written; buffered chunks go only when the receive side is given up or closed. */
  ghost predicate ReceiverQuiet(e: Endpoint, f: Endpoint) {
    && f.h.taken == e.h.taken && f.h.output == e.h.output && f.r.nxt == e.r.nxt && f.r.inWrite == e.r.inWrite
    && (f.r.buf == e.r.buf || (f.r.buf == map[] && !Receiving(f.t)))
    && (LocalWriteClosed in f.t.flags && !GaveUp(f.t) ==> LocalWriteClosed in e.t.flags)
    && (Finishes(e.t, f.t) && !GaveUp(f.t) ==>
          CloseReadReceived in f.t.flags && e.r.buf == map[] && e.r.inWrite == [])
  }

  /** Whether the step told the endpoint that the peer finished sending. */
  predicate EofKept(t: Term, t': Term) {
    CloseReadReceived in t'.flags ==> CloseReadReceived in t.flags
  }

  ghost predicate Quiet(e: Endpoint, f: Endpoint) {
    Onward(e, f) && SenderQuiet(e, f) && ReceiverQuiet(e, f)
  }

  lemma GivenUpGrows(t: Term, t': Term)
    requires Grows(t, t')
    ensures Flushed(t) ==> Flushed(t')
    ensures GaveUp(t) ==> GaveUp(t')
    ensures Receiving(t') ==> Receiving(t)
  {
  }

  lemma QueueFromTransitive(s: Sender, s1: Sender, queue: TxQueue)
    requires QueueFrom(s, s1.queue) && SameData(s.buf, s1.buf) && QueueFrom(s1, queue)
    ensures QueueFrom(s, queue)
  {
  }

  lemma SenderQuietTransitive(e: Endpoint, f: Endpoint, g: Endpoint)
    requires SenderQuiet(e, f) && SenderQuiet(f, g) && Grows(f.t, g.t)
    ensures SenderQuiet(e, g)
  {
    GivenUpGrows(f.t, g.t);
    QueueFromTransitive(e.s, f.s, g.s.queue);
  }

  /** A step that stays clear of the receive side, then a machine move. */
  lemma ReceiverQuietAfter(e: Endpoint, e1: Endpoint, f: Endpoint)
    requires e1.r.buf == e.r.buf && e1.r.nxt == e.r.nxt && e1.r.inWrite == e.r.inWrite
    requires e1.h.taken == e.h.taken && e1.h.output == e.h.output
    requires IsClosed in e1.t.flags <==> IsClosed in e.t.flags
    requires LocalWriteClosed in e1.t.flags ==> LocalWriteClosed in e.t.flags
    requires ReceiverQuiet(e1, f)
    ensures ReceiverQuiet(e, f)
  {
  }

  /** The machine touches the data only as its contract says. */
  lemma MovedQuiet(e: Endpoint, m: Machine)
    requires CloseMove(MachineOf(e), m) && (e.r.inWrite != [] ==> LocalWritePending in e.t.flags)
    ensures Quiet(e, Moved(e, m)) && EofKept(e.t, Moved(e, m).t)
  {
    MovedKeeps(e, m);
    EmptiesMembers(e.s, e.r);
  }

  /** A data step without effect on the receive side, followed by a machine move. */
  lemma StepThenMove(e: Endpoint, e1: Endpoint, m: Machine)
    requires Good(e) && Onward(e, e1) && SenderQuiet(e, e1)
    requires e1.r.buf == e.r.buf && e1.r.nxt == e.r.nxt && e1.r.inWrite == e.r.inWrite
    requires e1.h.taken == e.h.taken && e1.h.output == e.h.output
    requires IsClosed in e1.t.flags <==> IsClosed in e.t.flags
    requires LocalWriteClosed in e1.t.flags ==> LocalWriteClosed in e.t.flags
    requires CloseMove(MachineOf(e1), m) && (e1.r.inWrite != [] ==> LocalWritePending in e1.t.flags)
    ensures Quiet(e, Moved(e1, m)) && EofKept(e1.t, Moved(e1, m).t)
  {
    var f := Moved(e1, m);
    MovedQuiet(e1, m);
    OnwardTransitive(e, e1, f);
    SenderQuietTransitive(e, e1, f);
    ReceiverQuietAfter(e, e1, f);
  }

  /** Steps that change neither the data nor the close flags. */
  lemma PlainQuiet(e: Endpoint, f: Endpoint)
    requires f.s == e.s && f.h == e.h && f.r.buf == e.r.buf && f.r.nxt == e.r.nxt && f.r.inWrite == e.r.inWrite
    requires f.t.flags == e.t.flags && f.t.reason == e.t.reason
    ensures SenderQuiet(e, f) && ReceiverQuiet(e, f) && EofKept(e.t, f.t)
  {
  }

  /** Steps that only rewrite the send buffer's timers or queue copies of what is in it. */
  lemma SendOnlyQuiet(e: Endpoint, f: Endpoint)
    requires f.h == e.h && f.r == e.r && f.s.nxt == e.s.nxt
    requires f.t.flags == e.t.flags && f.t.reason == e.t.reason
    requires f.s.buf.Keys == e.s.buf.Keys && SameData(e.s.buf, f.s.buf) && QueueFrom(e.s, f.s.queue)
    ensures SenderQuiet(e, f) && ReceiverQuiet(e, f) && EofKept(e.t, f.t)
  {
  }

  lemma PushFrom(s: Sender, lane: Lane, sn: u16)
    requires sn in s.buf
    ensures QueueFrom(s, PushTX(s.queue, lane, sn, s.buf[sn].data))
  {
  }

  lemma ResendDueFrom(cfg: Config, s: Sender, now: int)
    ensures var s1 := ResendDue(cfg, s, now);
            s1.buf.Keys == s.buf.Keys && SameData(s.buf, s1.buf) && QueueFrom(s, s1.queue)
  {
  }

  lemma MachineStepQuiet(e: Endpoint, m: Machine)
    requires Good(e) && CloseMove(MachineOf(e), m)
    ensures Quiet(e, Moved(e, m)) && EofKept(e.t, Moved(e, m).t)
  {
    MovedQuiet(e, m);
  }

  lemma ScanTickQuiet(e: Endpoint, now: int, order: seq<Kind>)
    requires Good(e) && now > 0
    ensures Quiet(e, ScanTick(e, now, order)) && EofKept(e.t, ScanTick(e, now, order).t)
  {
    if !Skips(e.s, now) && GivesUp(e.cfg, e.s, now) {
      CloseRstKeeps(e.cfg, MachineOf(e), now, 0);
      MachineStepQuiet(e, CloseRst(e.cfg, MachineOf(e), now, 0));
    } else {
      var e1 := if Skips(e.s, now) then e else e.(s := Scanned(e.cfg, e.s, now));
      ResendDueFrom(e.cfg, e.s, now);
      PlainStepKeeps(e, e1);
      SendOnlyQuiet(e, e1);
      ControlScanKeeps(e.cfg, MachineOf(e1), now, order);
      MoveReflexive(MachineOf(e1));
      StepThenMove(e, e1, ControlTick(e.cfg, MachineOf(e1), now, order));
    }
  }

  lemma ReceiverQuietTransitive(e: Endpoint, f: Endpoint, g: Endpoint)
    requires ReceiverQuiet(e, f) && ReceiverQuiet(f, g) && Grows(e.t, f.t) && Grows(f.t, g.t)
    ensures ReceiverQuiet(e, g)
  {
    GivenUpGrows(e.t, f.t);
    GivenUpGrows(f.t, g.t);
  }

  lemma TickQuiet(e: Endpoint, now: int, order: seq<Kind>)
    requires Good(e) && now > 0
    ensures Quiet(e, Tick(e, now, order)) && EofKept(e.t, Tick(e, now, order).t)
  {
    if IsClosed in e.t.flags {
      PlainQuiet(e, e);
    } else {
      var e1 := Moved(e, TerminalTick(e.cfg, MachineOf(e), now));
      TerminalTickKeeps(e.cfg, MachineOf(e), now);
      MovedStep(e, e, TerminalTick(e.cfg, MachineOf(e), now));
      MachineStepQuiet(e, TerminalTick(e.cfg, MachineOf(e), now));
      ScanTickQuiet(e1, now, order);
      var f := ScanTick(e1, now, order);
      OnwardTransitive(e, e1, f);
      SenderQuietTransitive(e, e1, f);
      ReceiverQuietTransitive(e, e1, f);
    }
  }

  lemma CloseStepQuiet(e: Endpoint, e1: Endpoint, o: CloseOptions, now: int)
    requires Good(e) && Good(e1) && Onward(e, e1) && SenderQuiet(e, e1) && now > 0
    requires e1.r.buf == e.r.buf && e1.r.nxt == e.r.nxt && e1.r.inWrite == e.r.inWrite && e1.h == e.h
    requires e1.t.flags == e.t.flags
    requires o.sendCloseRead ==> o.afterDrain
    ensures Quiet(e, CloseWith(e1, o, now)) && EofKept(e.t, CloseWith(e1, o, now).t)
  {
    CloseKeeps(e.cfg, MachineOf(e1), o, now);
    StepThenMove(e, e1, Close(e.cfg, MachineOf(e1), o, now));
  }

  lemma ReadEOFQuiet(e: Endpoint, now: int)
    requires Good(e) && now > 0
    ensures Quiet(e, ReadEOF(e, now)) && EofKept(e.t, ReadEOF(e, now).t)
  {
    var e1 := e.(t := e.t.(clientEOFAt := if e.cfg.isClient && e.t.clientEOFAt == 0 then now else e.t.clientEOFAt));
    DataMoveKeeps(MachineOf(e), MachineOf(e1));
    PlainQuiet(e, e1);
    CloseStepQuiet(e, e1, DRAIN_THEN_CLOSE_READ, now);
  }

  lemma CloseWriteReceivedQuiet(e: Endpoint, now: int)
    requires Good(e) && now > 0
    ensures Quiet(e, PeerClosedWrite(e, now)) && EofKept(e.t, PeerClosedWrite(e, now).t)
  {
    if IsVirtual in e.t.flags {
      PlainQuiet(e, e);
    } else {
      var purged := map key | key in e.s.queue && key.sn !in e.s.buf :: e.s.queue[key];
      var e1 := e.(s := e.s.(queue := purged, minRetransmitAt := 0));
      MarkCloseWriteReceivedKeeps(e.cfg, MachineOf(e), now);
      PlainStepKeeps(e, e1);
      SendOnlyQuiet(e, e1);
      StepThenMove(e, e1, MarkCloseWriteReceived(e.cfg, MachineOf(e), now));
    }
  }

  lemma CloseReadReceivedQuiet(e: Endpoint)
    requires Good(e)
    ensures Quiet(e, Moved(e, MarkCloseReadReceived(e.cfg, MachineOf(e))))
  {
    if IsVirtual in e.t.flags {
      MoveReflexive(MachineOf(e));
      MachineStepQuiet(e, MachineOf(e));
    } else {
      var state := if CloseReadSent in e.t.flags then Closing else HalfClosedRemote;
      var e1 := e.(t := e.t.(flags := e.t.flags + {CloseReadReceived}, state := state));
      RaiseCloseReadReceived(MachineOf(e), state);
      TryFinalizeWf(e.cfg, MachineOf(e1));
      assert SenderQuiet(e, e1);
      StepThenMove(e, e1, TryFinalizeRemoteEOF(e.cfg, MachineOf(e1)));
    }
  }

  lemma ReceiveDataQuiet(e: Endpoint, room: bool, now: int)
    requires Good(e) && now > 0
    ensures Quiet(e, ReceiveData(e, room, now)) && EofKept(e.t, ReceiveData(e, room, now).t)
  {
    if NeedCloseWrite(e.t) {
      PlainQuiet(e, e);
      CloseStepQuiet(e, e, SEND_CLOSE_WRITE, now);
    } else {
      PlainQuiet(e, ReceiveData(e, room, now));
    }
  }

  lemma NackQuiet(e: Endpoint, sn: u16, now: int)
    requires Good(e)
    ensures Quiet(e, HandleDataNack(e, sn, now)) && EofKept(e.t, HandleDataNack(e, sn, now).t)
  {
    var f := HandleDataNack(e, sn, now);
    if NackHonoured(e.cfg, e.s, sn, now) { PushFrom(e.s, Resend, sn); }
    assert f.s.buf.Keys == e.s.buf.Keys;
    SendOnlyQuiet(e, f);
  }

  /** The steps that move no chunk. */
  predicate IsQuiet(ev: Event) {
    match ev
    case EvRead(_) => false
    case EvAck(_) => false
    case EvBatch(_) => false
    case EvDrain => false
    case EvWriteDone => false
    case EvWriteFailed(_) => false
    case _ => true
  }

  lemma StepQuiet(e: Endpoint, ev: Event, now: int)
    requires Good(e) && Enabled(e, ev) && now > 0 && IsQuiet(ev)
    ensures Quiet(e, Step(e, ev, now))
    ensures !ev.EvCloseReadReceived? ==> EofKept(e.t, Step(e, ev, now).t)
  {
    match ev
    case EvReadEOF => ReadEOFQuiet(e, now);
    case EvClose(o) =>
      PlainQuiet(e, e);
      CloseStepQuiet(e, e, o, now);
    case EvPop(key) =>
      assert Pop(e.s, key, now).buf.Keys == e.s.buf.Keys;
      SendOnlyQuiet(e, e.(s := Pop(e.s, key, now)));
    case EvPopControl(k) =>
      PopControlKeeps(e, k, now);
      PlainQuiet(e, e.(c := PopControl(e.cfg, e.c, k, now)));
    case EvNack(sn) => NackQuiet(e, sn, now);
    case EvControlAck(k) =>
      ReceiveControlAckKeeps(e.cfg, MachineOf(e), k, now);
      MachineStepQuiet(e, ReceiveControlAck(e.cfg, MachineOf(e), k, now));
    case EvCloseReadReceived => CloseReadReceivedQuiet(e);
    case EvCloseWriteReceived => CloseWriteReceivedQuiet(e, now);
    case EvRstReceived =>
      ReceiveRstMove(MachineOf(e));
      MachineStepQuiet(e, ReceiveRst(MachineOf(e)));
    case EvReceiveData(room) => ReceiveDataQuiet(e, room, now);
    case EvTick(order) => TickQuiet(e, now, order);
    case _ =>
  }
}
