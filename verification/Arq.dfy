/**
 * One ARQ endpoint as the object it is: fields that its handlers change in place, and loops over its maps.
 * Each handler is proved to do what the step of the same event does in ArqState, and each function of the close
 * machine to move the endpoint as the function of the same name in ArqTerm moves its machine. The flags and
 * deadlines of that machine, and its packets, are held as two records.
 */
module Arq {
  import opened SeqNum
  import opened Extrema
  import opened ArqTerm
  import opened ArqTermProofs
  import opened ArqState
  import opened ArqRuns
  import opened ArqCompose
  import opened ArqPriority
  import opened ArqScan
  import opened ArqLink
  import opened ArqFlow
  import opened ArqSender
  import opened ArqSenderRuns
  import opened ArqControl

  /** The owner of an endpoint: the stream with its transmit queue, seen through its census of keys. */
  class TxStream {
    var queue: TxQueue

    constructor ()
      ensures queue == map[]
    {
      queue := map[];
    }

    /** PushTXPacket for the two data lanes: a refused packet changes nothing. */
    method PushTXPacket(lane: Lane, sn: u16, data: Chunk) returns (ok: bool)
      modifies this
      ensures ok == Accepts(old(queue), lane, sn)
      ensures queue == PushTX(old(queue), lane, sn, data)
    {
      match lane {
        case Fresh =>
          if TxKey(Fresh, sn) in queue || TxKey(Resend, sn) in queue { return false; }
        case Resend =>
          if TxKey(Resend, sn) in queue { return false; }
      }
      queue := queue[TxKey(lane, sn) := data];
      if lane == Resend {
        queue := queue - {TxKey(Fresh, sn)};
      }
      return true;
    }

    /** RemoveQueuedData: drop the copies of one chunk from both lanes. */
    method RemoveQueuedData(sn: u16) returns (removedAny: bool)
      modifies this
      ensures queue == ArqState.RemoveQueuedData(old(queue), sn)
      ensures removedAny == (queue != old(queue))
    {
      removedAny := false;
      var lanes := [Fresh, Resend];
      ghost var before := queue;
      for i := 0 to 2
        invariant queue == if i == 0 then before else if i == 1 then before - {TxKey(Fresh, sn)}
                           else before - {TxKey(Fresh, sn), TxKey(Resend, sn)}
        invariant removedAny == (queue != before)
      {
        if TxKey(lanes[i], sn) in queue {
          queue := queue - {TxKey(lanes[i], sn)};
          removedAny := true;
        }
      }
    }

    /** PopNextTXPacket, for a packet of the data lanes: some queued packet leaves. */
    method PopNextTXPacket(key: TxKey) returns (data: Chunk)
      requires key in queue
      modifies this
      ensures data == old(queue)[key] && queue == old(queue) - {key}
    {
      data := queue[key];
      queue := queue - {key};
    }
  }

  /** The acknowledgements a batch calls for, in order. */
  ghost function AckNumbers(window: int, nxt: u16, buf: map<u16, Chunk>, batch: seq<Packet>): seq<u16> {
    if batch == [] then []
    else
      var n := |batch| - 1;
      AckNumbers(window, nxt, buf, batch[..n])
      + if Acked(VerdictAt(window, nxt, buf, batch, n)) then [batch[n].sn] else []
  }

  /** Packet `k` has number `sn` and is acknowledged. */
  ghost predicate AckedAt(window: int, nxt: u16, buf: map<u16, Chunk>, batch: seq<Packet>, sn: u16, k: nat)
    requires k < |batch|
  {
    batch[k].sn == sn && Acked(VerdictAt(window, nxt, buf, batch, k))
  }

  lemma {:induction false} AckedIsPushed(window: int, nxt: u16, buf: map<u16, Chunk>, batch: seq<Packet>, sn: u16,
                                         k: nat)
    requires k < |batch| && AckedAt(window, nxt, buf, batch, sn, k)
    ensures sn in AckNumbers(window, nxt, buf, batch)
    decreases |batch|
  {
    var n := |batch| - 1;
    if k < n {
      VerdictOfFront(window, nxt, buf, batch, k);
      assert batch[..n][k] == batch[k];
      AckedIsPushed(window, nxt, buf, batch[..n], sn, k);
    }
  }

  lemma {:induction false} PushedIsAcked(window: int, nxt: u16, buf: map<u16, Chunk>, batch: seq<Packet>, sn: u16)
    returns (k: nat)
    requires sn in AckNumbers(window, nxt, buf, batch)
    ensures k < |batch| && AckedAt(window, nxt, buf, batch, sn, k)
    decreases |batch|
  {
    var n := |batch| - 1;
    if AckedAt(window, nxt, buf, batch, sn, n) { return n; }
    k := PushedIsAcked(window, nxt, buf, batch[..n], sn);
    VerdictOfFront(window, nxt, buf, batch, k);
  }

  /**
   * Which packets of a batch get an acknowledgement: those behind the next expected number, and those buffered when
   * the batch is through. None is pushed for another number.
   */
  ghost predicate AcksWhatWasReceived(nxt: u16, after: map<u16, Chunk>, batch: seq<Packet>, acks: seq<u16>) {
    && (forall k :: 0 <= k < |batch| ==>
          (batch[k].sn in acks <==> Sub(batch[k].sn, nxt) >= 32768 || batch[k].sn in after))
    && (forall sn :: sn in acks ==> exists k :: 0 <= k < |batch| && batch[k].sn == sn)
  }

  lemma AckNumbersExactly(window: int, nxt: u16, buf: map<u16, Chunk>, batch: seq<Packet>)
    requires InWindow(window, nxt, buf)
    ensures AcksWhatWasReceived(nxt, Insert(window, nxt, buf, batch), batch, AckNumbers(window, nxt, buf, batch))
  {
    var acks := AckNumbers(window, nxt, buf, batch);
    forall k | 0 <= k < |batch|
      ensures batch[k].sn in acks <==>
              Sub(batch[k].sn, nxt) >= 32768 || batch[k].sn in Insert(window, nxt, buf, batch)
    {
      AckedExactly(window, nxt, buf, batch, k);
      if AckedAt(window, nxt, buf, batch, batch[k].sn, k) { AckedIsPushed(window, nxt, buf, batch, batch[k].sn, k); }
      if batch[k].sn in acks {
        var j := PushedIsAcked(window, nxt, buf, batch, batch[k].sn);
        AckedExactly(window, nxt, buf, batch, j);
      }
    }
    forall sn | sn in acks ensures exists k :: 0 <= k < |batch| && batch[k].sn == sn {
      var k := PushedIsAcked(window, nxt, buf, batch, sn);
    }
  }

  lemma ReadyUnfolds(buf: map<u16, Chunk>, nxt: u16)
    requires nxt in buf
    ensures |buf - {nxt}| == |buf| - 1
    ensures Ready(buf, nxt) == [buf[nxt]] + Ready(buf - {nxt}, Inc(nxt))
    ensures Rest(buf, nxt) == Rest(buf - {nxt}, Inc(nxt))
  {
    RemoveShrinks(buf, nxt);
  }

  lemma ReadyEnds(buf: map<u16, Chunk>, nxt: u16)
    requires nxt !in buf
    ensures Ready(buf, nxt) == [] && Rest(buf, nxt) == buf
  {
  }

  lemma Associates<T>(a: seq<T>, x: T, b: seq<T>)
    ensures a + ([x] + b) == (a + [x]) + b
  {
  }

  /** The write loop took `chunks` so far and has `buf` and `nxt` left. */
  ghost predicate SoFar(buf0: map<u16, Chunk>, nxt0: u16, chunks: seq<Chunk>, buf: map<u16, Chunk>, nxt: u16) {
    && Ready(buf0, nxt0) == chunks + Ready(buf, nxt) && Rest(buf0, nxt0) == Rest(buf, nxt)
    && nxt == Wrap(nxt0 + |chunks|)
  }

  lemma SoFarStep(buf0: map<u16, Chunk>, nxt0: u16, chunks: seq<Chunk>, buf: map<u16, Chunk>, nxt: u16)
    requires SoFar(buf0, nxt0, chunks, buf, nxt) && nxt in buf
    ensures SoFar(buf0, nxt0, chunks + [buf[nxt]], buf - {nxt}, Inc(nxt)) && |buf - {nxt}| < |buf|
  {
    ReadyUnfolds(buf, nxt);
    Associates(chunks, buf[nxt], Ready(buf - {nxt}, Inc(nxt)));
    WrapStep(nxt0 + |chunks|);
  }

  lemma SoFarEnds(buf0: map<u16, Chunk>, nxt0: u16, chunks: seq<Chunk>, buf: map<u16, Chunk>, nxt: u16)
    requires SoFar(buf0, nxt0, chunks, buf, nxt) && nxt !in buf
    ensures chunks == Ready(buf0, nxt0) && buf == Rest(buf0, nxt0) && nxt == Wrap(nxt0 + |chunks|)
  {
    ReadyEnds(buf, nxt);
  }

  method Contiguous(buf0: map<u16, Chunk>, nxt0: u16) returns (chunks: seq<Chunk>, buf: map<u16, Chunk>, nxt: u16)
    ensures chunks == Ready(buf0, nxt0) && buf == Rest(buf0, nxt0) && nxt == Wrap(nxt0 + |chunks|)
  {
    chunks, buf, nxt := [], buf0, nxt0;
    assert [] + Ready(buf, nxt) == Ready(buf, nxt);
    while nxt in buf
      invariant SoFar(buf0, nxt0, chunks, buf, nxt)
      decreases |buf|
    {
      SoFarStep(buf0, nxt0, chunks, buf, nxt);
      chunks := chunks + [buf[nxt]];
      buf := buf - {nxt};
      nxt := Inc(nxt);
    }
    SoFarEnds(buf0, nxt0, chunks, buf, nxt);
  }

  lemma ResentDated(cfg: Config, s: Sender, now: int)
    requires forall sn :: sn in s.buf ==> Dated(s.buf[sn])
    ensures forall sn :: sn in ResendDue(cfg, s, now).buf ==> Dated(ResendDue(cfg, s, now).buf[sn])
  {
  }

  /** noteSuccessfulControlSample, if the round trip of the acknowledged packet is unambiguous. */
  method SampleControl(cfg: Config, rtt: AdaptiveRTO, item: ControlItem, now: int) returns (r: AdaptiveRTO)
    ensures r == if item.sampleEligible && item.dispatched && item.lastSentAt != 0
                 then UpdateAdaptiveRTO(rtt, now - item.lastSentAt, cfg.controlRto, cfg.controlMaxRto) else rtt
  {
    if !item.sampleEligible || !item.dispatched || item.lastSentAt == 0 { return rtt; }
    return UpdateAdaptiveRTO(rtt, now - item.lastSentAt, cfg.controlRto, cfg.controlMaxRto);
  }

  /** A close packet whose retransmission was queued waits for its copy to leave, with a longer timeout. */
  method ResentControl(cfg: Config, c: Control, item: ControlItem, now: int) returns (r: ControlItem)
    ensures r == item.(lastSentAt := now, dispatched := false, retries := item.retries + 1, sampleEligible := false,
                       currentRTO := Clamp(item.currentRTO * 5 / 4, ControlBaseRTO(cfg, c), cfg.controlMaxRto))
  {
    var base := if c.rtt.currentBase <= 0 then cfg.controlRto
                else Clamp(c.rtt.currentBase, cfg.controlRto, cfg.controlMaxRto);
    r := item.(lastSentAt := now, dispatched := false, retries := item.retries + 1, sampleEligible := false,
               currentRTO := Clamp(item.currentRTO * 5 / 4, base, cfg.controlMaxRto));
  }

  /** A chunk whose retransmission was queued waits for its copy to leave, with a longer timeout. */
  method ResentItem(item: Item, floor: int, maxRTO: int, now: int) returns (r: Item)
    ensures r == Resent(item, floor, maxRTO, now)
  {
    r := item.(lastSentAt := now, dispatched := false, retries := item.retries + 1, sampleEligible := false,
               currentRTO := Clamp(item.currentRTO * 27 / 20, floor, maxRTO));
  }

  class ARQ {
    const cfg: Config
    const stream: TxStream

    // Sequence numbers and buffers
    var sndNxt: u16
    var rcvNxt: u16
    var sndBuf: map<u16, Item>
    var rcvBuf: map<u16, Chunk>
    var pendingInbound: nat
    var minRetransmitAt: int
    var dataAdaptiveRTO: AdaptiveRTO

    // Flags and deadlines of the close machine, and its packets
    var term: Term
    var control: Control

    // The chunks the write loop holds, and what passed through the local connection
    var toWrite: seq<Chunk>
    ghost var h: History

    ghost function S(): Sender reads this, stream {
      Sender(sndNxt, sndBuf, minRetransmitAt, dataAdaptiveRTO, stream.queue)
    }

    ghost function R(): Receiver reads this {
      Receiver(rcvNxt, rcvBuf, pendingInbound, toWrite)
    }

    ghost function State(): Endpoint reads this, stream {
      Endpoint(cfg, S(), R(), term, control, h)
    }

    /** The invariant: the close machine is well formed, the sending half healthy and the control plane in bounds. */
    ghost predicate Valid() reads this, stream {
      Fit(State()) && ControlOk(cfg, control)
    }

    function Machinery(): Machine reads this {
      Machine(term, control, (if sndBuf == map[] then {Snd} else {}) + (if rcvBuf == map[] then {Rcv} else {})
                             + (if pendingInbound == 0 then {Inbound} else {}))
    }

    constructor (cfg: Config, stream: TxStream, isVirtual: bool, now: int)
      requires stream.queue == map[]
      ensures State() == Initial(cfg, isVirtual, now) && this.stream == stream
      ensures ValidConfig(cfg) ==> Valid()
    {
      this.cfg, this.stream := cfg, stream;
      sndNxt, rcvNxt, sndBuf, rcvBuf, pendingInbound, minRetransmitAt := 0, 0, map[], map[], 0, 0;
      dataAdaptiveRTO := AdaptiveRTO(0, 0, cfg.rto, false);
      term, control := InitialTerm(isVirtual, now), InitialControl(cfg);
      h, toWrite := History([], 0, []), [];
    }

    // -------------------------------------------------------------------
    // Closing
    // -------------------------------------------------------------------

    /** clearAllQueues. */
    method ClearAllQueues()
      modifies this`control, this`sndBuf, this`rcvBuf
      ensures sndBuf == map[] && rcvBuf == map[] && control == old(control).(tracked := map[])
    {
      sndBuf, rcvBuf := map[], map[];
      control := control.(tracked := map[]);
    }

    /** finalizeClose, with OnARQClosed of the owner. */
    method FinalizeClose(why: Reason)
      modifies this`term, this`control, this`sndBuf, this`rcvBuf, stream
      ensures State() == Moved(old(State()), Finalize(old(Machinery()), why))
    {
      var t := term;
      if IsClosed in t.flags || IsVirtual in t.flags {
        SelfMove(State());
        return;
      }
      t := t.(flags := t.flags + {IsClosed} - {DeferredClose, WaitingAck}, reason := why,
              deferredPacket := NoKind, deferredDeadline := 0, waitingAckFor := NoKind, ackWaitDeadline := 0);
      if term.state == Reset || RstReceived in term.flags || RstSent in term.flags {
        t := t.(state := Reset);
      } else if CloseReadSent in term.flags || CloseReadReceived in term.flags
                || CloseWriteSent in term.flags || CloseWriteReceived in term.flags {
        t := t.(state := TimeWait);
      } else {
        t := t.(state := StreamState.Closing);
      }
      term := t;
      ClearAllQueues();
      control := control.(queued := {}, closedCalls := control.closedCalls + 1);
      stream.queue := map[];
    }

    /** The condition tryFinalizeRemoteEOF reads under the lock. */
    method HandshakeComplete() returns (shouldClose: bool)
      ensures shouldClose == RemoteEOFComplete(Machinery())
    {
      EmptiesMembers(S(), R());
      var f := term.flags;
      var waitingForCloseReadAck := WaitingAck in f && term.waitingAckFor == CloseRead;
      var receiveDrained := (|rcvBuf| == 0 && pendingInbound == 0) || LocalWriterBroken in f;
      var writeSideSettled :=
        if LocalWriterBroken in f then CloseWriteAcked in f || CloseWriteReceived in f
        else CloseWriteSent !in f || CloseWriteAcked in f;
      shouldClose :=
        && IsClosed !in f && CloseReadReceived in f && receiveDrained
        && (LocalWritePending !in f || LocalWriterBroken in f)
        && (CloseReadAcked in f || (CloseReadSent in f && !waitingForCloseReadAck)) && writeSideSettled;
    }

    /** tryFinalizeRemoteEOF. */
    method TryFinalizeRemoteEof()
      modifies this`term, this`control, this`sndBuf, this`rcvBuf, stream
      ensures State() == TryFinalize(old(State()))
    {
      var shouldClose := HandshakeComplete();
      if shouldClose {
        FinalizeClose(HandshakeDone);
      } else {
        TryFinalizeClientLocalDisconnect();
      }
    }

    /** tryFinalizeClientLocalDisconnect. */
    method TryFinalizeClientLocalDisconnect()
      modifies this`term, this`control, this`sndBuf, this`rcvBuf, stream
      ensures State() == Moved(old(State()), if LocalDisconnectComplete(cfg, old(Machinery()))
                                             then Finalize(old(Machinery()), LocalDisconnectDone) else old(Machinery()))
    {
      EmptiesMembers(S(), R());
      var f := term.flags;
      if cfg.isClient && IsClosed !in f && LocalWriterBroken in f
         && CloseWriteAcked in f && CloseReadSent in f && CloseReadAcked in f
         && |sndBuf| == 0 && |rcvBuf| == 0 && pendingInbound == 0
         && LocalWritePending !in f && WaitingAck !in f && DeferredClose !in f {
        FinalizeClose(LocalDisconnectDone);
      } else {
        SelfMove(State());
      }
    }

    /** SendControlPacketWithTTL for a close packet: track it, unless it is tracked already, and queue a copy. */
    method SendControlPacket(k: Kind, now: int, ttl: nat)
      modifies this`control
      ensures control == SendControl(cfg, old(control), k, now, ttl)
    {
      var c := control;
      c := c.(closeReads := c.closeReads + Bit(k == CloseRead), closeWrites := c.closeWrites + Bit(k == CloseWrite),
              rsts := c.rsts + Bit(k == Rst));
      if !cfg.controlReliability {
        control := c.(queued := c.queued + {k});
        return;
      }
      if k in c.tracked {
        control := c;
        return;
      }
      var rto := ControlBaseRTO(cfg, control);
      var item := ControlItem(now, 0, false, 0, rto, true, ttl);
      var ok := k !in c.queued;
      if !ok { item := item.(dispatched := true, lastSentAt := now - rto); }
      control := c.(queued := c.queued + {k}, tracked := c.tracked[k := item]);
    }

    /** emitTerminalPacketWithTTL. */
    method EmitTerminalPacket(k: Kind, now: int, ttl: nat)
      modifies this`term, this`control, this`sndBuf, this`rcvBuf, stream
      ensures State() == Moved(old(State()), Emit(cfg, old(Machinery()), k, now, ttl))
    {
      SelfMove(State());
      if IsClosed in term.flags || IsVirtual in term.flags { return; }
      var f := term.flags;
      var blocked := (WaitingAck in f && term.waitingAckFor == k) || RstSent in f || RstReceived in f;
      match k {
        case CloseRead =>
          if blocked || CloseReadSent in f { EmitNothing(k, now, ttl); } else { EmitCloseRead(now, ttl); }
        case CloseWrite =>
          if blocked || CloseWriteSent in f { EmitNothing(k, now, ttl); } else { EmitCloseWrite(now, ttl); }
        case Rst =>
          if blocked { EmitNothing(k, now, ttl); } else { EmitRst(now, ttl); }
        case NoKind =>
          EmitNothing(k, now, ttl);
      }
    }

    /** The fields set before the packet is looked at; there is nothing to send. */
    method EmitNothing(k: Kind, ghost now: int, ghost ttl: nat)
      requires IsClosed !in term.flags && IsVirtual !in term.flags && (EmitBlocked(term, k) || k == NoKind)
      modifies this`term
      ensures State() == Moved(old(State()), Emit(cfg, old(Machinery()), k, now, ttl))
    {
      term := term.(flags := term.flags + {StopLocalRead} - {DeferredClose}, reason := Requested,
                    deferredPacket := NoKind, deferredDeadline := 0);
      MovedAfter(old(State()), term, control, Machinery());
      SelfMove(State());
    }

    /** The packet is going to leave: nothing is deferred any more, and its acknowledgement is awaited. */
    method AwaitAck(k: Kind, now: int)
      modifies this`term
      ensures term == Emitting(cfg, old(term), k, {}, old(term).state, now)
    {
      term := term.(flags := term.flags + {StopLocalRead, WaitingAck} - {DeferredClose}, reason := Requested,
                    deferredPacket := NoKind, deferredDeadline := 0,
                    waitingAckFor := k, ackWaitDeadline := now + cfg.ackWait);
    }

    /** The part of MarkCloseReadSent under the lock. */
    method MarkCloseReadSent()
      modifies this`term
      ensures term == old(term).(flags := old(term).flags + {CloseReadSent},
                                 state := StateAfterSending(old(term), HalfClosedLocal))
    {
      var state := HalfClosedLocal;
      if CloseReadReceived in term.flags { state := StreamState.Closing; }
      term := term.(flags := term.flags + {CloseReadSent}, state := state);
    }

    method BeginCloseRead(now: int)
      modifies this`term
      ensures term == Emitting(cfg, old(term), CloseRead, {CloseReadSent},
                               StateAfterSending(old(term), HalfClosedLocal), now)
    {
      AwaitAck(CloseRead, now);
      MarkCloseReadSent();
      EmittingReads(cfg, old(term), now);
    }

    method EmitCloseRead(now: int, ttl: nat)
      requires IsClosed !in term.flags && IsVirtual !in term.flags && !EmitBlocked(term, CloseRead)
      modifies this`term, this`control, this`sndBuf, this`rcvBuf, stream
      ensures State() == Moved(old(State()), Emit(cfg, old(Machinery()), CloseRead, now, ttl))
    {
      BeginCloseRead(now);
      EmitsCloseRead(cfg, old(Machinery()), now, ttl);
      MovedAfter(old(State()), term, control, FinalizedAndSent(cfg, Machinery(), now, ttl));
      FinalizeAndSend(now, ttl);
    }

    /** The rest of MarkCloseReadSent, and the packet. */
    method FinalizeAndSend(now: int, ttl: nat)
      modifies this`term, this`control, this`sndBuf, this`rcvBuf, stream
      ensures State() == Moved(old(State()), FinalizedAndSent(cfg, old(Machinery()), now, ttl))
    {
      TryFinalizeRemoteEof();
      SendControlPacket(CloseRead, now, ttl);
    }

    /** MarkCloseWriteSent. */
    method MarkCloseWriteSent()
      modifies this`term, this`rcvBuf
      ensures rcvBuf == map[]
      ensures term == old(term).(flags := old(term).flags + {CloseWriteSent, LocalWriterBroken, LocalWriteClosed},
                                 state := StateAfterSending(old(term), old(term).state))
    {
      rcvBuf := map[];
      var state := term.state;
      if CloseReadReceived in term.flags { state := StreamState.Closing; }
      term := term.(flags := term.flags + {CloseWriteSent, LocalWriterBroken, LocalWriteClosed}, state := state);
    }

    method EmitCloseWrite(now: int, ttl: nat)
      requires IsClosed !in term.flags && IsVirtual !in term.flags && !EmitBlocked(term, CloseWrite)
      modifies this`term, this`control, this`rcvBuf
      ensures State() == Moved(old(State()), Emit(cfg, old(Machinery()), CloseWrite, now, ttl))
    {
      EmptiesMembers(S(), R());
      AwaitAck(CloseWrite, now);
      MarkCloseWriteSent();
      EmittingWrites(cfg, old(term), now);
      SendControlPacket(CloseWrite, now, ttl);
    }

    method EmitRst(now: int, ttl: nat)
      requires IsClosed !in term.flags && IsVirtual !in term.flags && !EmitBlocked(term, Rst)
      modifies this`term, this`control, this`sndBuf, this`rcvBuf
      ensures State() == Moved(old(State()), Emit(cfg, old(Machinery()), Rst, now, ttl))
    {
      ClearAllQueues();
      AwaitAck(Rst, now);
      term := term.(flags := term.flags + {RstSent}, state := Reset);
      EmittingResets(cfg, old(term), now);
      SendControlPacket(Rst, now, ttl);
    }

    /** settleTerminalDrain. */
    method SettleTerminalDrain(now: int)
      modifies this`term, this`control, this`sndBuf, this`rcvBuf, stream
      ensures State() == SettleDrain(old(State()), now)
      decreases 1
    {
      EmptiesMembers(S(), R());
      SelfMove(State());
      if IsClosed in term.flags || DeferredClose !in term.flags { return; }
      var k := NoKind;
      if sndBuf == map[] {
        k := term.deferredPacket;
      } else if term.deferredDeadline != 0 && now > term.deferredDeadline {
        k := Rst;
      } else {
        return;
      }
      term := term.(flags := term.flags - {DeferredClose}, deferredPacket := NoKind, deferredDeadline := 0);
      MovedAfter(old(State()), term, control, CloseNow(cfg, Machinery(), k, now));
      CloseNowIsClose(cfg, Machinery(), k, now);
      CloseStream(OptionsFor(k), now);
    }

    /** deferTerminalPacket. */
    method DeferTerminalPacket(k: Kind, now: int)
      modifies this`term, this`control, this`sndBuf, this`rcvBuf, stream
      ensures State() == Moved(old(State()), Defer(cfg, old(Machinery()), k, now))
      decreases 2
    {
      EmptiesMembers(S(), R());
      if IsClosed in term.flags || IsVirtual in term.flags {
        SelfMove(State());
        return;
      }
      BeginTerminalDrain(k, now);
      if sndBuf == map[] {
        MovedAfter(old(State()), term, control, Settle(cfg, Machinery(), now));
        SettleTerminalDrain(now);
      } else {
        MovedAfter(old(State()), term, control, Machinery());
        SelfMove(State());
      }
    }

    method BeginTerminalDrain(k: Kind, now: int)
      modifies this`term
      ensures term == BeginDrain(cfg, old(Machinery()), k, now).t
    {
      var state := if term.state != Reset && term.state != StreamState.Closed then Draining else term.state;
      var deadline := now + cfg.drainTimeout;
      if term.deferredDeadline != 0 && deadline <= term.deferredDeadline { deadline := term.deferredDeadline; }
      term := term.(flags := term.flags + {StopLocalRead, DeferredClose}, state := state,
                    deferredPacket := k, deferredDeadline := deadline);
    }

    /** Close. */
    method CloseStream(o: CloseOptions, now: int)
      modifies this`term, this`control, this`sndBuf, this`rcvBuf, stream
      ensures State() == CloseWith(old(State()), o, now)
      decreases if o.afterDrain then 3 else 0, 1
    {
      EmptiesMembers(S(), R());
      SelfMove(State());
      if IsVirtual in term.flags && !o.force { return; }
      if o.force || (!o.sendRST && !o.sendCloseRead && !o.sendCloseWrite) {
        ForceClosed(Forced);
        return;
      }
      if o.sendCloseRead {
        if o.afterDrain { DeferTerminalPacket(CloseRead, now); } else { EmitTerminalPacket(CloseRead, now, o.ttl); }
        return;
      }
      if o.sendCloseWrite {
        EmitTerminalPacket(CloseWrite, now, o.ttl);
        return;
      }
      CloseWithRst(o.afterDrain, o.ttl, now);
    }

    /** The part of Close for a reset under the lock. */
    method BeginResetting() returns (alreadyResetting: bool)
      modifies this`term
      ensures alreadyResetting == AlreadyResetting(old(term))
      ensures term == if alreadyResetting then old(term) else BeginReset(old(Machinery())).t
    {
      var f := term.flags;
      alreadyResetting := RstSent in f || RstReceived in f || (WaitingAck in f && term.waitingAckFor == Rst)
                          || (DeferredClose in f && term.deferredPacket == Rst);
      if alreadyResetting { return; }
      term := term.(flags := term.flags - {DeferredClose}, reason := Requested, state := Reset,
                    deferredPacket := NoKind, deferredDeadline := 0);
    }

    /** The part of Close for a reset, after a drain if that is wanted and anything is unacknowledged. */
    method CloseWithRst(afterDrain: bool, ttl: nat, now: int)
      requires IsVirtual !in term.flags
      modifies this`term, this`control, this`sndBuf, this`rcvBuf, stream
      ensures State() == Moved(old(State()), ClosedWithRst(cfg, old(Machinery()), afterDrain, ttl, now))
      decreases if afterDrain then 3 else 0, 0
    {
      EmptiesMembers(S(), R());
      SelfMove(State());
      if IsClosed in term.flags { return; }
      var alreadyResetting := BeginResetting();
      if alreadyResetting { return; }
      var hasPendingData := sndBuf != map[];
      if afterDrain && hasPendingData {
        MovedAfter(old(State()), term, control, Defer(cfg, Machinery(), Rst, now));
        DeferTerminalPacket(Rst, now);
      } else {
        MovedAfter(old(State()), term, control, Emit(cfg, Machinery(), Rst, now, ttl));
        EmitTerminalPacket(Rst, now, ttl);
      }
    }

    /** A forced close clears the virtual mark first. */
    method ForceClosed(why: Reason)
      modifies this`term, this`control, this`sndBuf, this`rcvBuf, stream
      ensures State() == Moved(old(State()), ForceClose(old(Machinery()), why))
    {
      term := term.(flags := term.flags - {IsVirtual});
      MovedAfter(old(State()), term, control, Finalize(Machinery(), why));
      FinalizeClose(why);
    }

    // -------------------------------------------------------------------
    // Sending
    // -------------------------------------------------------------------

    function CurrentDataBaseRTO(): (r: int)
      reads this, stream
      ensures r == DataBaseRTO(cfg, S())
    {
      if dataAdaptiveRTO.currentBase <= 0 then cfg.rto else Clamp(dataAdaptiveRTO.currentBase, cfg.rto, cfg.maxRTO)
    }

    /** The part of ioLoop after a successful read. */
    method ReadChunk(data: Chunk, now: int)
      modifies this`term, this`sndNxt, this`sndBuf, this`minRetransmitAt, this`h, stream
      ensures State() == Read(old(State()), data, now)
    {
      term := term.(lastActivity := now);
      var sn := sndNxt;
      var rto := CurrentDataBaseRTO();
      sndNxt := Inc(sndNxt);
      var item := Item(data, now, 0, false, 0, 0, rto, true, 0, 0);
      var ok := stream.PushTXPacket(Fresh, sn, data);
      if !ok {
        item := item.(dispatched := true, lastSentAt := now - rto);
      }
      sndBuf := sndBuf[sn := item];
      minRetransmitAt := 0;
      h := h.(input := h.input + [data]);
    }

    /** The local application closed its side: the part of ioLoop from noteClientEOF on. */
    method OnLocalEof(now: int)
      modifies this`term, this`control, this`sndBuf, this`rcvBuf, stream
      ensures State() == ReadEOF(old(State()), now)
    {
      if cfg.isClient && term.clientEOFAt == 0 {
        term := term.(clientEOFAt := now);
      }
      CloseStream(DRAIN_THEN_CLOSE_READ, now);
    }

    method NoteTXPacketDequeued(sn: u16, now: int)
      modifies this`sndBuf, this`minRetransmitAt
      ensures sndBuf == if sn in old(sndBuf) then old(sndBuf)[sn := Dequeued(old(sndBuf)[sn], now)] else old(sndBuf)
      ensures minRetransmitAt == if sn in old(sndBuf) then 0 else old(minRetransmitAt)
    {
      if sn in sndBuf {
        var item := sndBuf[sn];
        sndBuf := sndBuf[sn := item.(lastSentAt := now, dispatched := true, sends := item.sends + 1)];
        minRetransmitAt := 0;
      }
    }

    /** NoteTXPacketDequeued for a close packet, with the pop before it. */
    method PopNextControl(k: Kind, now: int)
      requires k in control.queued
      modifies this`control
      ensures control == PopControl(cfg, old(control), k, now)
    {
      control := control.(queued := control.queued - {k});
      if cfg.controlReliability && k in control.tracked {
        var item := control.tracked[k];
        control := control.(tracked := control.tracked[k := item.(lastSentAt := now, dispatched := true)]);
      }
    }

    method PopNext(key: TxKey, now: int) returns (data: Chunk)
      requires key in stream.queue
      modifies this`sndBuf, this`minRetransmitAt, stream
      ensures State() == old(State()).(s := Pop(old(S()), key, now)) && data == old(stream.queue)[key]
    {
      data := stream.PopNextTXPacket(key);
      NoteTXPacketDequeued(key.sn, now);
    }

    method HandleNack(sn: u16, now: int) returns (honoured: bool)
      modifies this`term, this`sndBuf, stream
      ensures State() == HandleDataNack(old(State()), sn, now)
      ensures honoured ==> NackHonoured(cfg, old(S()), sn, now)
      ensures !honoured ==> State() == old(State()).(t := State().t)
    {
      if IsClosed in term.flags || term.state == Reset || RstReceived in term.flags || RstSent in term.flags {
        return false;
      }
      term := term.(lastActivity := now);
      if sn !in sndBuf { return false; }
      var item := sndBuf[sn];
      if item.lastNackSentAt != 0 && now - item.lastNackSentAt < cfg.nackRepeat { return false; }
      var ok := stream.PushTXPacket(Resend, sn, item.data);
      if !ok { return false; }
      sndBuf := sndBuf[sn := item.(lastNackSentAt := now, sampleEligible := false)];
      return true;
    }

    /** ReceiveAck. */
    method ReceiveDataAck(sn: u16, now: int) returns (handled: bool)
      modifies this`term, this`control, this`sndBuf, this`rcvBuf, this`dataAdaptiveRTO, stream
      ensures State() == ReceiveAck(old(State()), sn, now) && handled == (sn in old(sndBuf))
    {
      term := term.(lastActivity := now);
      if sn !in sndBuf { return false; }
      Free(sn, now);
      SettleAfterAck(now);
      return true;
    }

    /** The chunk leaves the send buffer and the queue, with a sample if its round trip is unambiguous. */
    method Free(sn: u16, now: int)
      requires sn in sndBuf
      modifies this`sndBuf, this`dataAdaptiveRTO, stream
      ensures S() == Acknowledge(cfg, old(S()), sn, now)
    {
      var item := sndBuf[sn];
      if item.sampleEligible && item.dispatched && item.lastSentAt != 0 {
        dataAdaptiveRTO := UpdateAdaptiveRTO(dataAdaptiveRTO, now - item.lastSentAt, cfg.rto, cfg.maxRTO);
      }
      sndBuf := sndBuf - {sn};
      var _ := stream.RemoveQueuedData(sn);
    }

    method SettleAfterAck(now: int)
      modifies this`term, this`control, this`sndBuf, this`rcvBuf, stream
      ensures State() == SettleDrain(
                if CloseReadReceived in old(term).flags then TryFinalize(old(State())) else old(State()), now)
    {
      if CloseReadReceived in term.flags {
        TryFinalizeRemoteEof();
      }
      SettleTerminalDrain(now);
    }

    // -------------------------------------------------------------------
    // Receiving
    // -------------------------------------------------------------------

    /** Data for a writer that is closed: the peer is to stop, unless it was told so. */
    method RefuseInbound(now: int)
      modifies this`term, this`control, this`sndBuf, this`rcvBuf, stream
      ensures State() ==
              if NeedCloseWrite(old(term)) then CloseWith(old(State()), SEND_CLOSE_WRITE, now) else old(State())
    {
      var f := term.flags;
      var needCloseWrite := LocalWriterBroken in f && CloseWriteSent !in f
                            && !(WaitingAck in f && term.waitingAckFor == CloseWrite)
                            && IsClosed !in f && RstReceived !in f && RstSent !in f;
      if needCloseWrite { CloseStream(SEND_CLOSE_WRITE, now); }
    }

    /** ReceiveData; `room` is whether the inbound channel takes the packet. */
    method Receive(room: bool, now: int) returns (accepted: bool)
      modifies this`term, this`control, this`sndBuf, this`rcvBuf, this`pendingInbound, stream
      ensures State() == ReceiveData(old(State()), room, now)
      ensures accepted == (!RefusesData(old(term)) && room)
    {
      if IsClosed in term.flags || RstReceived in term.flags || RstSent in term.flags { return false; }
      if LocalWriterBroken in term.flags {
        RefuseInbound(now);
        return false;
      }
      pendingInbound := pendingInbound + 1;
      if !room {
        if pendingInbound > 0 { pendingInbound := pendingInbound - 1; }
        return false;
      }
      return true;
    }

    /** Categorise one packet of a batch and insert it if it is new. */
    method Categorise(p: Packet) returns (ack: bool)
      modifies this`rcvBuf
      ensures ack == Acked(Classify(cfg.window, rcvNxt, old(rcvBuf), p.sn))
      ensures rcvBuf ==
              if Classify(cfg.window, rcvNxt, old(rcvBuf), p.sn).New? then old(rcvBuf)[p.sn := p.data] else old(rcvBuf)
    {
      var diff := Sub(p.sn, rcvNxt);
      if diff >= 32768 { return true; }
      if diff > cfg.window { return false; }
      var buffered := p.sn in rcvBuf;
      if !buffered && |rcvBuf| >= cfg.window && p.sn != rcvNxt { return false; }
      if !buffered { rcvBuf := rcvBuf[p.sn := p.data]; }
      return true;
    }

    /** The part of processReceivedDataBatch for a batch that is not rejected. */
    method InsertBatch(batch: seq<Packet>) returns (acks: seq<u16>)
      modifies this`rcvBuf
      ensures rcvBuf == Insert(cfg.window, rcvNxt, old(rcvBuf), batch)
      ensures acks == AckNumbers(cfg.window, rcvNxt, old(rcvBuf), batch)
    {
      acks := [];
      for i := 0 to |batch|
        invariant rcvBuf == Insert(cfg.window, rcvNxt, old(rcvBuf), batch[..i])
        invariant acks == AckNumbers(cfg.window, rcvNxt, old(rcvBuf), batch[..i])
      {
        assert batch[..i + 1][..i] == batch[..i];
        var ack := Categorise(batch[i]);
        if ack { acks := acks + [batch[i].sn]; }
      }
      assert batch[..|batch|] == batch;
    }

    /** processReceivedDataBatch; `acks` are the acknowledgements it pushes. */
    method ProcessReceivedDataBatch(batch: seq<Packet>, now: int) returns (acks: seq<u16>)
      modifies this`term, this`control, this`sndBuf, this`rcvBuf, this`pendingInbound, stream
      ensures State() == ProcessBatch(old(State()), batch, now)
      ensures acks == if RejectsBatch(old(term)) then [] else AckNumbers(cfg.window, rcvNxt, old(rcvBuf), batch)
      ensures !RejectsBatch(old(term)) && InWindow(cfg.window, rcvNxt, old(rcvBuf)) ==>
                AcksWhatWasReceived(rcvNxt, rcvBuf, batch, acks)
    {
      if pendingInbound >= |batch| { pendingInbound := pendingInbound - |batch|; } else { pendingInbound := 0; }
      if LocalWriterBroken in term.flags || CloseWriteSent in term.flags || CloseWriteAcked in term.flags {
        RefuseInbound(now);
        return [];
      }
      if InWindow(cfg.window, rcvNxt, rcvBuf) { AckNumbersExactly(cfg.window, rcvNxt, rcvBuf, batch); }
      term := term.(lastActivity := now);
      acks := InsertBatch(batch);
    }

    /** The loop of writeLoop that takes every contiguous chunk. */
    method TakeContiguous()
      modifies this`toWrite, this`rcvBuf, this`rcvNxt
      ensures toWrite == Ready(old(rcvBuf), old(rcvNxt)) && rcvBuf == Rest(old(rcvBuf), old(rcvNxt))
      ensures rcvNxt == Wrap(old(rcvNxt) + |toWrite|)
    {
      toWrite, rcvBuf, rcvNxt := Contiguous(rcvBuf, rcvNxt);
    }

    /** One pass of writeLoop up to the write. */
    method DrainPass()
      requires toWrite == []
      modifies this`term, this`control, this`sndBuf, this`rcvBuf, this`rcvNxt, this`toWrite, this`h, stream
      ensures State() == Drain(old(State()))
    {
      TakeContiguous();
      if toWrite == [] {
        NothingToWrite();
      } else {
        term := term.(flags := term.flags + {LocalWritePending} - {});
        h := h.(taken := h.taken + |toWrite|);
      }
    }

    /** The buffer is drained: the writer is half-closed at the end of the peer's data, which may finish the stream. */
    method NothingToWrite()
      modifies this`term, this`control, this`sndBuf, this`rcvBuf, stream
      ensures var f := old(term).flags;
              var halfClose := CloseReadReceived in f && pendingInbound == 0 && IsClosed !in f;
              State() == TryFinalize(
                Flagged(old(State()), if halfClose then {LocalWriteClosed} else {}, {LocalWritePending}))
    {
      var halfClose := CloseReadReceived in term.flags && pendingInbound == 0 && IsClosed !in term.flags;
      term := term.(flags := term.flags + (if halfClose then {LocalWriteClosed} else {}) - {LocalWritePending});
      TryFinalizeRemoteEof();
    }

    /** The write finished. */
    method FinishWrite()
      modifies this`term, this`control, this`sndBuf, this`rcvBuf, this`toWrite, this`h, stream
      ensures State() == WriteDone(old(State()))
    {
      h := h.(output := h.output + toWrite);
      toWrite := [];
      term := term.(flags := term.flags + {} - {LocalWritePending});
      TryFinalizeRemoteEof();
    }

    /** The write failed after `k` chunks: markLocalWriterBroken, then CLOSE_WRITE. */
    method AbandonWrite(k: nat, now: int)
      requires k <= |toWrite|
      modifies this`term, this`control, this`sndBuf, this`rcvBuf, this`toWrite, this`h, stream
      ensures State() == WriteFailed(old(State()), k, now)
    {
      h := h.(output := h.output + toWrite[..k]);
      toWrite, rcvBuf := [], map[];
      term := term.(flags := term.flags + {LocalWriterBroken} - {LocalWritePending});
      CloseStream(SEND_CLOSE_WRITE, now);
    }

    // -------------------------------------------------------------------
    // Retransmitting
    // -------------------------------------------------------------------

    /** The second loop of checkRetransmits: offer every due chunk to the queue, in its lane. */
    method RequeueDue(jobs: seq<u16>, now: int)
      requires Distinct(jobs) && Elements(jobs) == Due(sndBuf, now)
      modifies this`sndBuf, stream
      ensures S() == ResendDue(cfg, old(S()), now)
    {
      ghost var s0, due := S(), Due(sndBuf, now);
      var kinds := PriorityKinds(cfg.window, sndNxt, jobs);
      var floor := CurrentDataBaseRTO();
      RequeuedNone(cfg, s0, now, due);
      assert jobs[..0] == [];
      for i := 0 to |jobs|
        invariant Requeued(cfg, s0, now, due, Elements(jobs[..i]), sndBuf, stream.queue)
      {
        var sn := jobs[i];
        NotSeen(jobs, i);
        assert sn in due;
        var lane := if kinds[i] then Resend else Fresh;
        var ok := RequeueOne(s0, due, Elements(jobs[..i]), sn, lane, floor, now);
      }
      assert jobs[..|jobs|] == jobs;
      RequeuedAll(cfg, s0, now, sndBuf, stream.queue);
    }

    method RequeueOne(ghost s0: Sender, ghost due: set<u16>, ghost done: set<u16>, sn: u16, lane: Lane, floor: int,
                      now: int)
      returns (ok: bool)
      requires Requeued(cfg, s0, now, due, done, sndBuf, stream.queue) && sn in due && sn in s0.buf && sn !in done
      requires lane == LaneOf(cfg.window, due, s0.nxt, sn) && floor == DataBaseRTO(cfg, s0)
      modifies this`sndBuf, stream
      ensures Requeued(cfg, s0, now, due, done + {sn}, sndBuf, stream.queue)
    {
      var item := sndBuf[sn];
      RequeueOffered(cfg, s0, now, due, done, sndBuf, stream.queue, sn, lane);
      ok := stream.PushTXPacket(lane, sn, item.data);
      if ok {
        var resent := ResentItem(item, floor, cfg.maxRTO, now);
        sndBuf := sndBuf[sn := resent];
      }
    }

    /** checkControlRetransmits, walking the tracked packets in the order `order`. */
    method CheckControlRetransmits(now: int) returns (ghost order: seq<Kind>)
      modifies this`term, this`control, this`sndBuf, this`rcvBuf, stream
      ensures State() == Moved(old(State()), ControlScan(cfg, old(Machinery()), now, order))
    {
      var kinds := Enumerate(control.tracked.Keys);
      order := kinds;
      var i := 0;
      while i < |kinds|
        invariant i <= |kinds| && State() == old(State()).(c := control)
        invariant ControlScan(cfg, old(Machinery()), now, kinds) == ControlScan(cfg, Machinery(), now, kinds[i..])
      {
        var k := kinds[i];
        assert kinds[i..][0] == k && kinds[i..][1..] == kinds[i + 1..];
        if k in control.tracked {
          if ControlExpired(cfg, control.tracked[k], now) {
            MovedAfter(old(State()), term, control, ControlScan(cfg, old(Machinery()), now, kinds));
            GiveUpControl(k, now);
            return;
          }
          ResendControl(k, now);
        }
        i := i + 1;
      }
      MovedAfter(old(State()), term, control, Machinery());
      SelfMove(State());
    }

    /** A tracked packet whose RTO ran out is pushed again; a refused push leaves it as it is. */
    method ResendControl(k: Kind, now: int)
      requires k in control.tracked
      modifies this`control
      ensures control == ControlResend(cfg, old(control), k, now)
    {
      var item := control.tracked[k];
      if !item.dispatched || now - item.lastSentAt < item.currentRTO || k in control.queued { return; }
      var resent := ResentControl(cfg, control, item, now);
      control := control.(queued := control.queued + {k}, tracked := control.tracked[k := resent]);
    }

    /** A tracked packet expired: an RST ends the stream, anything else resets it. */
    method GiveUpControl(k: Kind, now: int)
      requires k in control.tracked
      modifies this`term, this`control, this`sndBuf, this`rcvBuf, stream
      ensures var m := old(Machinery()).(c := old(control).(tracked := old(control).tracked - {k}));
              State() == Moved(old(State()), if k == Rst then Finalize(m, Expired) else CloseRst(cfg, m, now, 0))
    {
      control := control.(tracked := control.tracked - {k});
      ghost var m := Machinery();
      MovedAfter(old(State()), term, control, if k == Rst then Finalize(m, Expired) else CloseRst(cfg, m, now, 0));
      if k == Rst {
        FinalizeClose(Expired);
      } else {
        SendRstIsReset(cfg, Machinery(), now);
        CloseStream(SEND_RST, now);
      }
    }

    /** The part of checkRetransmits between the fast path and the control packets; a give-up resets the stream. */
    method ScanData(now: int) returns (gaveUp: bool)
      requires forall sn :: sn in sndBuf ==> Dated(sndBuf[sn])
      modifies this`term, this`control, this`sndBuf, this`rcvBuf, this`minRetransmitAt, stream
      ensures gaveUp == GivesUp(cfg, old(S()), now)
      ensures gaveUp ==> State() == Moved(old(State()), CloseRst(cfg, old(Machinery()), now, 0))
      ensures !gaveUp ==> State() == old(State()).(s := Scanned(cfg, old(S()), now))
    {
      var jobs, ttlExpired, retryExceeded := ScanSendBuffer(cfg, sndBuf, now);
      if ttlExpired || retryExceeded {
        SendRstIsReset(cfg, Machinery(), now);
        CloseStream(SEND_RST, now);
        return true;
      }
      RequeueDue(jobs, now);
      ResentDated(cfg, old(S()), now);
      minRetransmitAt := RecomputeHint(sndBuf);
      return false;
    }

    method ControlPart(now: int) returns (ghost order: seq<Kind>)
      modifies this`term, this`control, this`sndBuf, this`rcvBuf, stream
      ensures State() == Moved(old(State()), ControlTick(cfg, old(Machinery()), now, order))
    {
      order := [];
      SelfMove(State());
      if cfg.controlReliability {
        order := CheckControlRetransmits(now);
      }
    }

    /** The rest of checkRetransmits: the scan, unless the hint says nothing can be due, then the control packets. */
    method ScanTick(now: int) returns (ghost order: seq<Kind>)
      requires forall sn :: sn in sndBuf ==> Dated(sndBuf[sn])
      modifies this`term, this`control, this`sndBuf, this`rcvBuf, this`minRetransmitAt, stream
      ensures State() == ArqState.ScanTick(old(State()), now, order)
    {
      order := [];
      if |sndBuf| > 0 && minRetransmitAt != 0 && now < minRetransmitAt {
        order := ControlPart(now);
        return;
      }
      var gaveUp := ScanData(now);
      if !gaveUp {
        order := ControlPart(now);
      }
    }

    /** checkRetransmits. */
    method CheckRetransmits(now: int) returns (ghost order: seq<Kind>)
      requires forall sn :: sn in sndBuf ==> Dated(sndBuf[sn])
      modifies this`term, this`control, this`sndBuf, this`rcvBuf, this`minRetransmitAt, stream
      ensures State() == Tick(old(State()), now, order)
    {
      order := [];
      if IsClosed in term.flags { return; }
      var ends := HandleTerminalState(now);
      if !ends {
        order := ScanTick(now);
      }
    }

    /** handleTerminalRetransmitState; the result ends the tick. */
    method HandleTerminalState(now: int) returns (ends: bool)
      modifies this`term, this`control, this`sndBuf, this`rcvBuf, stream
      ensures State() == Moved(old(State()), TerminalTick(cfg, old(Machinery()), now))
      ensures ends == TickEnds(cfg, old(Machinery()), now)
    {
      EmptiesMembers(S(), R());
      SelfMove(State());
      SendRstIsReset(cfg, Machinery(), now);
      ends := false;
      if DeferredClose in term.flags {
        if sndBuf == map[] || (term.deferredDeadline != 0 && now > term.deferredDeadline) {
          SettleTerminalDrain(now);
        }
        return IsClosed in term.flags;
      }
      if WaitingAck in term.flags && term.ackWaitDeadline != 0 && now > term.ackWaitDeadline {
        if term.waitingAckFor == Rst {
          FinalizeClose(AckWaitTimeout);
          return true;
        }
        if term.waitingAckFor != NoKind { CloseStream(SEND_RST, now); }
        return;
      }
      if RstReceived in term.flags && IsClosed !in term.flags {
        OnRst();
        return true;
      }
      ends := WatchIdle(now);
    }

    /** The end of handleTerminalRetransmitState: the grace period of a client, and inactivity. */
    method WatchIdle(now: int) returns (ends: bool)
      modifies this`term, this`control, this`sndBuf, this`rcvBuf, stream
      ensures State() == Moved(old(State()), IdleTick(cfg, old(Machinery()), now))
      ensures ends == (!CloseWriteGraceOver(cfg, old(term), now)
                       && now - old(term).lastActivity > cfg.inactivityTimeout && !HasPending(cfg, old(Machinery())))
    {
      SelfMove(State());
      ends := false;
      var graceOver := GraceIsOver(now);
      if graceOver {
        CloseStream(SEND_CLOSE_WRITE, now);
      } else if now - term.lastActivity > cfg.inactivityTimeout {
        ends := StopInactive(now);
      }
    }

    /** Whether a client that finished reading is to close its write side as well. */
    method GraceIsOver(now: int) returns (over: bool)
      ensures over == CloseWriteGraceOver(cfg, term, now)
    {
      var f := term.flags;
      var elapsed := (term.clientEOFAt != 0 && now - term.clientEOFAt >= CLOSE_WRITE_GRACE)
                     || (term.closeReadAckedAt != 0 && now - term.closeReadAckedAt >= CLOSE_WRITE_GRACE);
      over := cfg.isClient && elapsed && IsClosed !in f && RstSent !in f && RstReceived !in f
              && CloseReadSent in f && CloseReadAcked in f
              && CloseWriteSent !in f && CloseWriteAcked !in f && CloseWriteReceived !in f
              && !(WaitingAck in f && term.waitingAckFor == CloseWrite);
    }

    /** An inactive stream is reset, unless something is still pending. */
    method StopInactive(now: int) returns (ends: bool)
      modifies this`term, this`control, this`sndBuf, this`rcvBuf, stream
      ensures ends == !HasPending(cfg, old(Machinery()))
      ensures ends ==> State() == Moved(old(State()), CloseRst(cfg, old(Machinery()), now, 0))
      ensures !ends ==> State() == Moved(old(State()), old(Machinery()).(t := old(term).(lastActivity := now)))
    {
      EmptiesMembers(S(), R());
      if |sndBuf| > 0 || (cfg.controlReliability && |control.tracked| > 0) {
        term := term.(lastActivity := now);
        MovedAfter(old(State()), term, control, Machinery());
        SelfMove(State());
        return false;
      }
      SendRstIsReset(cfg, Machinery(), now);
      CloseStream(SEND_RST, now);
      return true;
    }

    // -------------------------------------------------------------------
    // Close packets of the peer, and acknowledgements of one's own
    // -------------------------------------------------------------------

    /** The loop of MarkCloseWriteReceived: drop the queued copies of everything unacknowledged. */
    method DropQueued()
      modifies stream
      ensures stream.queue == map key | key in old(stream.queue) && key.sn !in sndBuf :: old(stream.queue)[key]
    {
      var order := Enumerate(sndBuf.Keys);
      for i := 0 to |order|
        invariant forall key :: key in stream.queue <==> key in old(stream.queue) && key.sn !in order[..i]
        invariant forall key :: key in stream.queue ==> stream.queue[key] == old(stream.queue)[key]
      {
        assert order[..i + 1] == order[..i] + [order[i]];
        ghost var before := stream.queue;
        var _ := stream.RemoveQueuedData(order[i]);
        forall key ensures key in stream.queue <==> key in before && key.sn != order[i] {
          RemovedFromQueue(before, order[i], key);
        }
      }
      assert order[..|order|] == order;
    }

    /** MarkCloseWriteReceived. */
    method OnCloseWrite(now: int)
      modifies this`term, this`control, this`sndBuf, this`rcvBuf, this`minRetransmitAt, stream
      ensures State() == PeerClosedWrite(old(State()), now)
    {
      if IsVirtual in term.flags { return; }
      ghost var m := Machinery();
      DropQueued();
      minRetransmitAt := 0;
      ghost var e := State();
      StopSending();
      PeerStoppedShrinks(m);
      SettleAndFinish(e, PeerStoppedReading(m), now);
    }

    method StopSending()
      modifies this`term, this`sndBuf
      ensures State() == Moved(old(State()), PeerStoppedReading(old(Machinery())))
    {
      EmptiesMembers(S(), R());
      term := term.(flags := term.flags + {CloseWriteReceived, StopLocalRead});
      sndBuf := map[];
    }

    method SettleAndFinish(ghost e: Endpoint, ghost m: Machine, now: int)
      requires State() == Moved(e, m) && Shrinks(MachineOf(e), m) && e.cfg == cfg
      modifies this`term, this`control, this`sndBuf, this`rcvBuf, stream
      ensures State() == Moved(e, TryFinalizeRemoteEOF(cfg, Settle(cfg, m, now)))
    {
      ghost var n := Settle(cfg, m, now);
      SettleShrinks(cfg, m, now);
      TryFinalizeShrinks(cfg, n);
      ThenMove(e, m, n);
      SettleTerminalDrain(now);
      ThenMove(e, n, TryFinalizeRemoteEOF(cfg, n));
      TryFinalizeRemoteEof();
    }

    /** MarkCloseReadReceived. */
    method OnCloseRead()
      modifies this`term, this`control, this`sndBuf, this`rcvBuf, stream
      ensures State() == Moved(old(State()), MarkCloseReadReceived(cfg, old(Machinery())))
    {
      SelfMove(State());
      if IsVirtual in term.flags { return; }
      var t := term.(flags := term.flags + {CloseReadReceived});
      if CloseReadSent in term.flags {
        t := t.(state := StreamState.Closing);
      } else {
        t := t.(state := HalfClosedRemote);
      }
      term := t;
      MovedAfter(old(State()), term, control, TryFinalizeRemoteEOF(cfg, Machinery()));
      TryFinalizeRemoteEof();
    }

    /** MarkRstReceived, and the forced close its callers follow it with. */
    method OnRst()
      modifies this`term, this`control, this`sndBuf, this`rcvBuf, stream
      ensures State() == Moved(old(State()), ReceiveRst(old(Machinery())))
    {
      SelfMove(State());
      MarkReset();
      ghost var m := MarkRstReceived(old(Machinery()));
      MarkRstShrinks(old(Machinery()));
      ForceCloseShrinks(m, Forced);
      ThenMove(old(State()), m, ForceClose(m, Forced));
      ForceClosed(Forced);
    }

    method MarkReset()
      modifies this`term, this`control, this`sndBuf, this`rcvBuf
      ensures State() == Moved(old(State()), MarkRstReceived(old(Machinery())))
    {
      SelfMove(State());
      if IsVirtual in term.flags { return; }
      term := term.(flags := term.flags + {RstReceived}, state := Reset);
      ClearAllQueues();
    }

    /** ReceiveControlAck for the acknowledgement of close packet `k`. */
    method OnControlAck(k: Kind, now: int) returns (handled: bool)
      modifies this`term, this`control, this`sndBuf, this`rcvBuf, stream
      ensures State() == Moved(old(State()), ReceiveControlAck(cfg, old(Machinery()), k, now))
    {
      term := term.(lastActivity := now);
      if k == NoKind || (k !in control.tracked && term.waitingAckFor != k) {
        MovedAfter(old(State()), term, control, Machinery());
        SelfMove(State());
        return false;
      }
      if k in control.tracked { StopTracking(k, now); }
      MovedAfter(old(State()), term, control, CloseAcked(cfg, Machinery(), k, now));
      CloseAcknowledged(k, now);
      handled := true;
    }

    method StopTracking(k: Kind, now: int)
      requires k in control.tracked
      modifies this`control
      ensures control == Untrack(cfg, old(control), k, now)
    {
      var rtt := SampleControl(cfg, control.rtt, control.tracked[k], now);
      control := control.(tracked := control.tracked - {k}, rtt := rtt);
    }

    /** handleTrackedCloseOrResetAck and handleWaitingTerminalAck, which do the same for a close packet. */
    method CloseAcknowledged(k: Kind, now: int)
      requires k != NoKind
      modifies this`term, this`control, this`sndBuf, this`rcvBuf, stream
      ensures State() == Moved(old(State()), CloseAcked(cfg, old(Machinery()), k, now))
    {
      match k {
        case CloseRead =>
          CloseReadIsAcked(now);
          MovedAfter(old(State()), term, control, TryFinalizeRemoteEOF(cfg, Machinery()));
          TryFinalizeRemoteEof();
        case CloseWrite =>
          CloseWriteIsAcked();
          MovedAfter(old(State()), term, control, TryFinalizeRemoteEOF(cfg, InitiateCloseRead(cfg, Machinery(), now)));
          InitiateAndFinish(now);
        case Rst =>
          ResetAndFinish();
      }
    }

    /** clearWaitingAck. */
    method ClearWaitingAckFor(k: Kind)
      modifies this`term
      ensures term == ClearWaitingAck(old(term), k)
    {
      if WaitingAck in term.flags && term.waitingAckFor == k {
        term := term.(flags := term.flags - {WaitingAck}, waitingAckFor := NoKind, ackWaitDeadline := 0);
      }
    }

    /** markCloseReadAcked and clearWaitingAck. */
    method CloseReadIsAcked(now: int)
      modifies this`term
      ensures term == MarkCloseReadAcked(old(term), now)
    {
      term := term.(flags := term.flags + {CloseReadAcked}, closeReadAckedAt := now);
      if CloseReadReceived in term.flags { term := term.(state := StreamState.Closing); }
      ClearWaitingAckFor(CloseRead);
    }

    /** markCloseWriteAcked and clearWaitingAck. */
    method CloseWriteIsAcked()
      modifies this`term
      ensures term == MarkCloseWriteAcked(old(term))
    {
      term := term.(flags := term.flags + {CloseWriteAcked, LocalWriterBroken, LocalWriteClosed});
      ClearWaitingAckFor(CloseWrite);
    }

    /** maybeInitiateClientCloseReadAfterWriterBreak, then tryFinalizeRemoteEOF. */
    method InitiateAndFinish(now: int)
      modifies this`term, this`control, this`sndBuf, this`rcvBuf, stream
      ensures State() == Moved(old(State()), TryFinalizeRemoteEOF(cfg, InitiateCloseRead(cfg, old(Machinery()), now)))
    {
      ghost var e, m := State(), Machinery();
      InitiateShrinks(cfg, m, now);
      TryFinalizeShrinks(cfg, InitiateCloseRead(cfg, m, now));
      ThenMove(e, InitiateCloseRead(cfg, m, now), TryFinalizeRemoteEOF(cfg, InitiateCloseRead(cfg, m, now)));
      MaybeInitiateCloseRead(now);
      TryFinalizeRemoteEof();
    }

    method MaybeInitiateCloseRead(now: int)
      modifies this`term, this`control, this`sndBuf, this`rcvBuf, stream
      ensures State() == Moved(old(State()), InitiateCloseRead(cfg, old(Machinery()), now))
    {
      EmptiesMembers(S(), R());
      SelfMove(State());
      var f := term.flags;
      if cfg.isClient && LocalWriterBroken in f && IsClosed !in f && RstSent !in f && RstReceived !in f
         && CloseReadSent !in f && CloseReadReceived !in f {
        var drain := |sndBuf| > 0 || LocalWritePending in f;
        CloseStream(CloseOptions(false, false, false, true, drain, 0), now);
      }
    }

    /** markRstAcked, then finalizeClose. */
    method ResetAndFinish()
      modifies this`term, this`control, this`sndBuf, this`rcvBuf, stream
      ensures State() == Moved(old(State()), Finalize(MarkRstAcked(old(Machinery())), ResetAcked))
    {
      ghost var e, m := State(), Machinery();
      MarkRstShrinks(m);
      FinalizeShrinks(MarkRstAcked(m), ResetAcked);
      ThenMove(e, MarkRstAcked(m), Finalize(MarkRstAcked(m), ResetAcked));
      ResetAcknowledged();
      FinalizeClose(ResetAcked);
    }

    method ResetAcknowledged()
      modifies this`term, this`control, this`sndBuf, this`rcvBuf
      ensures State() == Moved(old(State()), MarkRstAcked(old(Machinery())))
    {
      term := term.(flags := term.flags + {RstAcked}, state := Reset);
      ClearAllQueues();
    }

    // -------------------------------------------------------------------
    // Any event
    // -------------------------------------------------------------------

    /**
     * The object runs as ArqState's endpoint does: whatever event comes, its handler takes exactly the step. A
     * tick walks the tracked packets in an order of its own. Events take back no lasting flag and originate nothing
     * after a reset or a close, and they keep the invariant, except for the one case in which a chunk is read whose
     * number is still unacknowledged.
     */
    method Perform(ev: Event, now: int) returns (ghost done: Event)
      requires Valid() && Enabled(State(), ev) && now > 0
      modifies this, stream
      ensures done == ev || (ev.EvTick? && done.EvTick?)
      ensures Enabled(old(State()), done) && State() == Step(old(State()), done, now)
      ensures (ev.EvRead? ==> old(sndNxt) !in old(sndBuf)) ==> Valid()
      ensures Onward(old(State()), State()) && Good(State()) && ControlOk(cfg, control)
    {
      ghost var e := State();
      HealthyIsDated(cfg, S(), Flushed(term));
      done := Handle(ev, now);
      StepKeeps(e, done, now);
      StepSteady(e, done, now);
      if !ev.EvRead? || e.s.nxt !in e.s.buf { StepKeepsFit(e, done, now); }
    }

    /** The handler of each event. */
    method Handle(ev: Event, now: int) returns (ghost done: Event)
      requires Enabled(State(), ev)
      requires forall sn :: sn in sndBuf ==> Dated(sndBuf[sn])
      modifies this, stream
      ensures done == ev || (ev.EvTick? && done.EvTick?)
      ensures Enabled(old(State()), done) && State() == Step(old(State()), done, now)
    {
      done := ev;
      match ev {
        case EvRead(data) => ReadChunk(data, now);
        case EvReadEOF => OnLocalEof(now);
        case EvClose(o) => CloseStream(o, now);
        case EvPop(key) => var _ := PopNext(key, now);
        case EvPopControl(k) => PopNextControl(k, now);
        case EvAck(sn) => var _ := ReceiveDataAck(sn, now);
        case EvNack(sn) => var _ := HandleNack(sn, now);
        case EvControlAck(k) => var _ := OnControlAck(k, now);
        case EvCloseReadReceived => OnCloseRead();
        case EvCloseWriteReceived => OnCloseWrite(now);
        case EvRstReceived => OnRst();
        case EvReceiveData(room) => var _ := Receive(room, now);
        case EvBatch(batch) => var _ := ProcessReceivedDataBatch(batch, now);
        case EvDrain => DrainPass();
        case EvWriteDone => FinishWrite();
        case EvWriteFailed(k) => AbandonWrite(k, now);
        case EvTick(_) =>
          ghost var order := CheckRetransmits(now);
          done := EvTick(order);
      }
    }
  }

  /** What the invariant says of an object, however it got where it is. */
  lemma ValidMeans(o: ARQ)
    requires o.Valid()
    ensures o.control.closeReads <= 1 && o.control.closeWrites <= 1 && o.control.rsts <= 1
    ensures o.control.closedCalls <= 1 && (o.control.closedCalls == 1 <==> IsClosed in o.term.flags)
    ensures forall sn :: sn in o.sndBuf ==> o.sndBuf[sn].dispatched || InQueue(o.stream.queue, sn)
    ensures forall sn :: sn in o.sndBuf ==> o.cfg.rto <= o.sndBuf[sn].currentRTO <= o.cfg.maxRTO
    ensures forall k :: k in o.control.tracked ==>
              o.cfg.controlRto <= o.control.tracked[k].currentRTO <= o.cfg.controlMaxRto
    ensures o.minRetransmitAt == 0 || forall sn :: sn in o.sndBuf ==> NotLate(o.minRetransmitAt, o.sndBuf[sn])
  {
    assert Healthy(o.cfg, o.S(), Flushed(o.term));
    forall sn | sn in o.sndBuf ensures o.cfg.rto <= o.sndBuf[sn].currentRTO <= o.cfg.maxRTO {
      assert ItemOk(o.cfg, o.sndBuf[sn], InQueue(o.stream.queue, sn));
    }
  }
}
