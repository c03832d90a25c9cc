/**
 * Two endpoints and a network that loses, duplicates and reorders: a copy that was ever sent may arrive at any
 * later time, any number of times, or never. Which chunks arrive is proved for whole runs.
 */
module ArqTransport {
  import opened SeqNum
  import Extrema
  import opened ArqTerm
  import opened ArqTermProofs
  import opened ArqState
  import opened ArqRuns
  import opened ArqFlow
  import opened ArqLink

  /**
   * One direction: the copies of chunks ever sent, those waiting in the receiver's inbound channel, and the
   * acknowledgements ever sent back. Nothing is ever removed from the two sets.
   */
  datatype Wire = Wire(copies: set<Copy>, rx: seq<Copy>, acks: set<Tag>)

  // ---------------------------------------------------------------------
  // The invariant of one direction, from endpoint x to endpoint y
  // ---------------------------------------------------------------------

  ghost predicate QueueMatch(s: Sender, flushed: bool) {
    forall key :: key in s.queue ==>
      if key.sn in s.buf then s.queue[key] == s.buf[key.sn].data else flushed
  }

  ghost predicate Sending(input: seq<Chunk>, s: Sender, limit: int, flushed: bool) {
    s.nxt == Wrap(|input|) && SentMatch(input, s.buf) && QueueMatch(s, flushed) && |s.buf| <= limit
  }

  ghost predicate SenderInv(x: Endpoint) {
    Sending(x.h.input, x.s, x.cfg.limit, Flushed(x.t))
  }

  ghost predicate WireInv(input: seq<Chunk>, w: Wire) {
    && (forall c :: c in w.copies ==> Genuine(input, c))
    && (forall k :: 0 <= k < |w.rx| ==> Genuine(input, w.rx[k]))
    && (forall a :: a in w.acks ==> 0 <= a.i < |input| && a.sn == Wrap(a.i))
  }

  /** What was written and what is being written are the first chunks of the input; a broken writer may lose some. */
  predicate Delivered(input: seq<Chunk>, taken: nat, output: seq<Chunk>, inWrite: seq<Chunk>, broken: bool) {
    && |output| + |inWrite| <= taken <= |input|
    && output + inWrite == input[..|output| + |inWrite|]
    && (!broken ==> |output| + |inWrite| == taken)
  }

  ghost predicate ReceiverInv(input: seq<Chunk>, y: Endpoint) {
    && y.r.nxt == Wrap(y.h.taken)
    && HeldMatch(input, y.h.taken, y.cfg.window, y.r.buf) && Fits(y.cfg.window, y.r.nxt, y.r.buf)
    && Delivered(input, y.h.taken, y.h.output, y.r.inWrite, LocalWriterBroken in y.t.flags)
  }

  /** While the receive side is in use, no chunk is lost. */
  ghost predicate FlowInv(x: Endpoint, y: Endpoint, acks: set<Tag>) {
    Receiving(y.t) ==>
      Flow(|x.h.input|, x.s.buf, x.cfg.limit, Flushed(x.t), y.h.taken, y.r.buf, y.cfg.window, acks)
  }

  /** The local application was told that the peer's data is complete. */
  predicate Ended(t: Term) {
    LocalWriteClosed in t.flags || (IsClosed in t.flags && t.reason == HandshakeDone)
  }

  ghost predicate EndInv(x: Endpoint, y: Endpoint) {
    && (CloseReadReceived in y.t.flags ==> CloseReadSent in x.t.flags)
    && (Ended(y.t) && !GaveUp(y.t) && !Flushed(x.t) ==>
          CloseReadReceived in y.t.flags && y.r.inWrite == [] && y.h.output == x.h.input)
  }

  /** The window and the limit together cover less than half the number space. */
  predicate Narrow(x: Config, y: Config) {
    0 <= y.window && 0 <= x.limit && y.window + x.limit < HALF
  }

  ghost predicate Link(x: Endpoint, y: Endpoint, w: Wire) {
    && Narrow(x.cfg, y.cfg)
    && SenderInv(x) && WireInv(x.h.input, w) && ReceiverInv(x.h.input, y)
    && FlowInv(x, y, w.acks) && EndInv(x, y)
  }

  // ---------------------------------------------------------------------
  // Steps of the sender
  // ---------------------------------------------------------------------

  lemma SendingKept(input: seq<Chunk>, s: Sender, s1: Sender, limit: int, flushed: bool, flushed1: bool)
    requires Sending(input, s, limit, flushed) && (flushed ==> flushed1)
    requires s1.nxt == s.nxt && SameData(s.buf, s1.buf) && QueueFrom(s, s1.queue)
    requires s1.buf.Keys == s.buf.Keys || flushed1
    ensures Sending(input, s1, limit, flushed1)
  {
    Extrema.SubsetCount(s1.buf.Keys, s.buf.Keys);
    assert |s1.buf.Keys| == |s1.buf| && |s.buf.Keys| == |s.buf|;
  }

  lemma FlowSenderQuiet(x: Endpoint, x1: Endpoint, y: Endpoint, acks: set<Tag>)
    requires FlowInv(x, y, acks) && Onward(x, x1) && SenderQuiet(x, x1)
    ensures FlowInv(x1, y, acks)
  {
    GivenUpGrows(x.t, x1.t);
    assert x1.s.buf.Keys == x.s.buf.Keys ==> forall sn :: sn in x1.s.buf <==> sn in x.s.buf;
  }

  lemma EndSenderQuiet(x: Endpoint, x1: Endpoint, y: Endpoint)
    requires EndInv(x, y) && Grows(x.t, x1.t) && x1.h.input == x.h.input
    ensures EndInv(x1, y)
  {
    GivenUpGrows(x.t, x1.t);
  }

  lemma SenderQuietKeeps(x: Endpoint, x1: Endpoint, y: Endpoint, w: Wire)
    requires Link(x, y, w) && Onward(x, x1) && SenderQuiet(x, x1)
    ensures Link(x1, y, w)
  {
    GivenUpGrows(x.t, x1.t);
    SendingKept(x.h.input, x.s, x1.s, x.cfg.limit, Flushed(x.t), Flushed(x1.t));
    FlowSenderQuiet(x, x1, y, w.acks);
    EndSenderQuiet(x, x1, y);
  }

  /** While reading is possible the send side is intact and the peer was not told of an end. */
  lemma ReadingIsIntact(x: Endpoint, y: Endpoint)
    requires Good(x) && EndInv(x, y) && CanRead(x)
    ensures !Flushed(x.t) && CloseReadReceived !in y.t.flags
    ensures !(Ended(y.t) && !GaveUp(y.t))
  {
  }

  lemma EnqueueSending(cfg: Config, input: seq<Chunk>, s: Sender, data: Chunk, now: int)
    requires Sending(input, s, cfg.limit, false) && s.nxt !in s.buf && |s.buf| < cfg.limit
    ensures var s1 := Enqueue(cfg, s, data, now);
            Sending(input + [data], s1, cfg.limit, false) && s1.buf == s.buf[s.nxt := s1.buf[s.nxt]]
  {
    var s1 := Enqueue(cfg, s, data, now);
    SentAppend(input, s.buf, data, s1.buf[s.nxt]);
    WrapStep(|input|);
    RemoveShrinks(s1.buf, s.nxt);
    assert s1.buf - {s.nxt} == s.buf;
  }

  lemma AppendKeepsReceiver(input: seq<Chunk>, data: Chunk, y: Endpoint, w: Wire)
    requires ReceiverInv(input, y) && WireInv(input, w)
    ensures ReceiverInv(input + [data], y) && WireInv(input + [data], w)
  {
    var k := |y.h.output| + |y.r.inWrite|;
    assert (input + [data])[..k] == input[..k];
  }

  lemma ReadFlow(x: Endpoint, data: Chunk, now: int, y: Endpoint, acks: set<Tag>)
    requires Narrow(x.cfg, y.cfg) && SenderInv(x) && !Flushed(x.t) && CanRead(x) && x.s.nxt !in x.s.buf
    requires ReceiverInv(x.h.input, y) && FlowInv(x, y, acks)
    ensures FlowInv(Read(x, data, now), y, acks)
  {
    var s1 := Enqueue(x.cfg, x.s, data, now);
    EnqueueSending(x.cfg, x.h.input, x.s, data, now);
    if Receiving(y.t) {
      FlowRead(x.h.input, x.s.buf, x.cfg.limit, data, s1.buf[x.s.nxt], y.h.taken, y.r.buf, y.cfg.window, acks);
    }
  }

  lemma ReadKeepsLink(x: Endpoint, data: Chunk, now: int, y: Endpoint, w: Wire)
    requires Link(x, y, w) && Good(x) && CanRead(x) && x.s.nxt !in x.s.buf
    ensures Link(Read(x, data, now), y, w)
  {
    ReadingIsIntact(x, y);
    ReadKeeps(x, data, now);
    EnqueueSending(x.cfg, x.h.input, x.s, data, now);
    AppendKeepsReceiver(x.h.input, data, y, w);
    ReadFlow(x, data, now, y, w.acks);
  }

  /** A copy that leaves the queue is a copy of the chunk its number stands for. */
  lemma PoppedIsGenuine(x: Endpoint, key: TxKey)
    requires SenderInv(x) && key in x.s.queue && key.sn in x.s.buf
    ensures Genuine(x.h.input, Copy(SentIndex(|x.h.input|, key.sn), key.sn, x.s.queue[key]))
  {
    LiftSpec(|x.h.input| - MODULUS, key.sn);
  }

  lemma AcknowledgeSending(cfg: Config, input: seq<Chunk>, s: Sender, sn: u16, now: int, limit: int, flushed: bool)
    requires Sending(input, s, limit, flushed) && sn in s.buf
    ensures Sending(input, Acknowledge(cfg, s, sn, now), limit, flushed)
  {
    var s1 := Acknowledge(cfg, s, sn, now);
    RemoveShrinks(s.buf, sn);
    forall key | key in s1.queue ensures key in s.queue && key.sn != sn {
      RemovedFromQueue(s.queue, sn, key);
    }
    assert QueueMatch(s1, flushed);
  }

  lemma AcknowledgeGood(x: Endpoint, sn: u16, now: int)
    requires Good(x) && sn in x.s.buf
    ensures var x1 := x.(t := Active(x.t, now), s := Acknowledge(x.cfg, x.s, sn, now));
            Base(MachineOf(x1)) && Onward(x, x1)
  {
    var x1 := x.(t := Active(x.t, now), s := Acknowledge(x.cfg, x.s, sn, now));
    EmptiesMembers(x.s, x.r);
    EmptiesMembers(x1.s, x1.r);
    DataMoveKeeps(MachineOf(x), MachineOf(x1));
  }

  /** The acknowledgement itself, before the close machine looks at the state. */
  lemma AcknowledgeKeepsLink(x: Endpoint, a: Tag, now: int, y: Endpoint, w: Wire)
    requires Link(x, y, w) && a in w.acks && |x.h.input| - a.i <= MODULUS && a.sn in x.s.buf
    ensures Link(x.(t := Active(x.t, now), s := Acknowledge(x.cfg, x.s, a.sn, now)), y, w)
  {
    AcknowledgeSending(x.cfg, x.h.input, x.s, a.sn, now, x.cfg.limit, Flushed(x.t));
    if Receiving(y.t) {
      FlowAck(|x.h.input|, x.s.buf, x.cfg.limit, Flushed(x.t), y.h.taken, y.r.buf, y.cfg.window, w.acks, a);
    }
  }

  /** What the close machine does after an acknowledgement. */
  lemma AckSettles(x: Endpoint, sn: u16, now: int)
    requires Good(x) && sn in x.s.buf && now > 0
    ensures var x1 := x.(t := Active(x.t, now), s := Acknowledge(x.cfg, x.s, sn, now));
            Quiet(x1, ReceiveAck(x, sn, now)) && EofKept(x1.t, ReceiveAck(x, sn, now).t)
  {
    var x1 := x.(t := Active(x.t, now), s := Acknowledge(x.cfg, x.s, sn, now));
    AcknowledgeGood(x, sn, now);
    var x2 := if CloseReadReceived in x.t.flags then TryFinalize(x1) else x1;
    MaybeFinalizeQuiet(x1, x2);
    SettleQuiet(x2, now);
    var f := ReceiveAck(x, sn, now);
    assert f == SettleDrain(x2, now);
    OnwardTransitive(x1, x2, f);
    SenderQuietTransitive(x1, x2, f);
    ReceiverQuietTransitive(x1, x2, f);
  }

  lemma MaybeFinalizeQuiet(x: Endpoint, x2: Endpoint)
    requires Base(MachineOf(x)) && (x.r.inWrite != [] ==> LocalWritePending in x.t.flags)
    requires x2 == x || x2 == TryFinalize(x)
    ensures Quiet(x, x2) && EofKept(x.t, x2.t) && Base(MachineOf(x2))
    ensures x2.r.inWrite != [] ==> LocalWritePending in x2.t.flags
  {
    var m := TryFinalizeRemoteEOF(x.cfg, MachineOf(x));
    TryFinalizeKeeps(x.cfg, MachineOf(x));
    MovedQuiet(x, m);
    MovedKeeps(x, m);
    PlainQuiet(x, x);
  }

  lemma SettleQuiet(x: Endpoint, now: int)
    requires Base(MachineOf(x)) && (x.r.inWrite != [] ==> LocalWritePending in x.t.flags) && x.cfg.ackWait > 0
    requires now > 0
    ensures Quiet(x, SettleDrain(x, now)) && EofKept(x.t, SettleDrain(x, now).t)
  {
    SettleKeeps(x.cfg, MachineOf(x), now);
    MovedQuiet(x, Settle(x.cfg, MachineOf(x), now));
  }

  lemma AckKeepsLink(x: Endpoint, a: Tag, now: int, y: Endpoint, w: Wire)
    requires Link(x, y, w) && Good(x) && a in w.acks && |x.h.input| - a.i <= MODULUS && now > 0
    ensures Link(ReceiveAck(x, a.sn, now), y, w)
  {
    if a.sn in x.s.buf {
      AcknowledgeKeepsLink(x, a, now, y, w);
      AckSettles(x, a.sn, now);
      SenderQuietKeeps(x.(t := Active(x.t, now), s := Acknowledge(x.cfg, x.s, a.sn, now)),
                       ReceiveAck(x, a.sn, now), y, w);
    } else {
      PlainQuiet(x, ReceiveAck(x, a.sn, now));
      SenderQuietKeeps(x, ReceiveAck(x, a.sn, now), y, w);
    }
  }

  // ---------------------------------------------------------------------
  // Steps of the receiver
  // ---------------------------------------------------------------------

  lemma SentAllDrained(x: Endpoint)
    requires Good(x) && CloseReadSent in x.t.flags
    ensures x.s.buf == map[]
  {
    EmptiesMembers(x.s, x.r);
  }

  /** Once the sender finished and the next chunk is missing, everything that was read has been written. */
  lemma CompleteAtGap(x: Endpoint, y: Endpoint, w: Wire)
    requires Link(x, y, w) && Good(x) && CloseReadSent in x.t.flags && !Flushed(x.t) && Receiving(y.t)
    requires Wrap(y.h.taken) !in y.r.buf && y.r.inWrite == []
    ensures y.h.output == x.h.input
  {
    SentAllDrained(x);
    FlowComplete(|x.h.input|, x.s.buf, x.cfg.limit, y.h.taken, y.r.buf, y.cfg.window, w.acks);
    assert y.h.output + y.r.inWrite == y.h.output;
    assert x.h.input[..|x.h.input|] == x.h.input;
  }

  lemma EndReceiverQuiet(x: Endpoint, y: Endpoint, y1: Endpoint, w: Wire)
    requires Link(x, y, w) && Good(x) && Onward(y, y1) && ReceiverQuiet(y, y1)
    requires EofKept(y.t, y1.t) || CloseReadSent in x.t.flags
    ensures EndInv(x, y1)
  {
    GivenUpGrows(y.t, y1.t);
    if Finishes(y.t, y1.t) && !GaveUp(y1.t) && !Flushed(x.t) {
      CompleteAtGap(x, y, w);
    }
  }

  lemma ReceiverInvQuiet(input: seq<Chunk>, y: Endpoint, y1: Endpoint)
    requires ReceiverInv(input, y) && Onward(y, y1) && ReceiverQuiet(y, y1) && 0 <= y.cfg.window
    ensures ReceiverInv(input, y1)
  {
  }

  lemma FlowReceiverQuiet(x: Endpoint, y: Endpoint, y1: Endpoint, acks: set<Tag>)
    requires FlowInv(x, y, acks) && Onward(y, y1) && ReceiverQuiet(y, y1)
    ensures FlowInv(x, y1, acks)
  {
    GivenUpGrows(y.t, y1.t);
  }

  lemma ReceiverQuietKeeps(x: Endpoint, y: Endpoint, y1: Endpoint, w: Wire)
    requires Link(x, y, w) && Good(x) && Onward(y, y1) && ReceiverQuiet(y, y1)
    requires EofKept(y.t, y1.t) || CloseReadSent in x.t.flags
    ensures Link(x, y1, w)
  {
    ReceiverInvQuiet(x.h.input, y, y1);
    FlowReceiverQuiet(x, y, y1, w.acks);
    EndReceiverQuiet(x, y, y1, w);
  }

  // A batch

  /** The acknowledgements a batch sends, each with the index of the chunk it is for. */
  ghost function AcksOf(y: Endpoint, batch: seq<Copy>): set<Tag> {
    if RejectsBatch(y.t) then {}
    else set k | 0 <= k < |batch| && Acked(VerdictAt(y.cfg.window, y.r.nxt, y.r.buf, PacketsOf(batch), k))
           :: Tag(batch[k].i, batch[k].sn)
  }

  /**
   * When a copy may be processed: not so old that the receiver took 65536 - window or more chunks since.
   * That it is not too new either is proved while the receive side is in use, and asked for otherwise.
   */
  predicate MayProcess(y: Endpoint, batch: seq<Copy>) {
    forall k :: 0 <= k < |batch| ==>
      y.h.taken - batch[k].i < MODULUS - y.cfg.window && (Receiving(y.t) || batch[k].i < y.h.taken + HALF)
  }

  lemma BatchUsable(x: Endpoint, y: Endpoint, w: Wire, n: nat)
    requires Link(x, y, w) && n <= |w.rx| && MayProcess(y, w.rx[..n])
    ensures Usable(x.h.input, y.h.taken, y.cfg.window, w.rx[..n])
  {
    forall k | 0 <= k < n ensures Genuine(x.h.input, w.rx[k]) && w.rx[k].i < y.h.taken + HALF {
      assert w.rx[..n][k] == w.rx[k];
      if Receiving(y.t) {
        ForwardHalf(|x.h.input|, x.s.buf, x.cfg.limit, Flushed(x.t),
                    y.h.taken, y.r.buf, y.cfg.window, w.acks, w.rx[k].i);
      }
    }
  }

  lemma AcksGenuine(input: seq<Chunk>, y: Endpoint, batch: seq<Copy>)
    requires ReceiverInv(input, y) && 0 <= y.cfg.window < HALF && Usable(input, y.h.taken, y.cfg.window, batch)
    requires !RejectsBatch(y.t)
    ensures forall a :: a in AcksOf(y, batch) ==>
              0 <= a.i < |input| && a.sn == Wrap(a.i)
              && Received(y.h.taken, Insert(y.cfg.window, y.r.nxt, y.r.buf, PacketsOf(batch)), a.i)
  {
    forall k | 0 <= k < |batch| && Acked(VerdictAt(y.cfg.window, y.r.nxt, y.r.buf, PacketsOf(batch), k))
      ensures Received(y.h.taken, Insert(y.cfg.window, y.r.nxt, y.r.buf, PacketsOf(batch)), batch[k].i)
    {
      BatchAcksReceived(input, y.h.taken, y.cfg.window, y.r.buf, batch, k);
    }
  }

  lemma BatchFlow(x: Endpoint, y: Endpoint, acks: set<Tag>, batch: seq<Copy>, now: int)
    requires Narrow(x.cfg, y.cfg) && ReceiverInv(x.h.input, y) && FlowInv(x, y, acks)
    requires Usable(x.h.input, y.h.taken, y.cfg.window, batch) && !RejectsBatch(y.t)
    ensures FlowInv(x, ProcessBatch(y, PacketsOf(batch), now), acks + AcksOf(y, batch))
  {
    if Receiving(y.t) {
      AcksGenuine(x.h.input, y, batch);
      BatchMatches(x.h.input, y.h.taken, y.cfg.window, y.r.buf, batch);
      FlowBatch(|x.h.input|, x.s.buf, x.cfg.limit, Flushed(x.t), y.h.taken, y.r.buf,
                Insert(y.cfg.window, y.r.nxt, y.r.buf, PacketsOf(batch)), y.cfg.window, acks, AcksOf(y, batch));
    }
  }

  lemma BatchReceiver(input: seq<Chunk>, y: Endpoint, batch: seq<Copy>, now: int)
    requires ReceiverInv(input, y) && 0 <= y.cfg.window < HALF && Usable(input, y.h.taken, y.cfg.window, batch)
    requires !RejectsBatch(y.t)
    ensures ReceiverInv(input, ProcessBatch(y, PacketsOf(batch), now))
  {
    BatchMatches(input, y.h.taken, y.cfg.window, y.r.buf, batch);
    BatchFits(y.cfg.window, y.r.nxt, y.r.buf, PacketsOf(batch));
  }

  ghost function AfterBatch(y: Endpoint, w: Wire, n: nat): Wire
    requires n <= |w.rx|
  {
    Wire(w.copies, w.rx[n..], w.acks + AcksOf(y, w.rx[..n]))
  }

  lemma BatchKeepsLink(x: Endpoint, y: Endpoint, w: Wire, n: nat, now: int)
    requires Link(x, y, w) && Good(x) && Good(y) && n <= |w.rx| && MayProcess(y, w.rx[..n]) && now > 0
    ensures Link(x, ProcessBatch(y, PacketsOf(w.rx[..n]), now), AfterBatch(y, w, n))
  {
    if RejectsBatch(y.t) {
      RejectedBatchKeepsLink(x, y, w, n, now);
    } else {
      BatchUsable(x, y, w, n);
      AcceptedBatchKeepsLink(x, y, w, n, now);
    }
  }

  /** A rejected batch is dropped from the channel without an acknowledgement. */
  lemma DroppedKeepsLink(x: Endpoint, y: Endpoint, w: Wire, n: nat)
    requires Link(x, y, w) && n <= |w.rx| && RejectsBatch(y.t)
    ensures Link(x, y, AfterBatch(y, w, n))
  {
    assert AfterBatch(y, w, n).acks == w.acks;
  }

  lemma RejectedBatchKeepsLink(x: Endpoint, y: Endpoint, w: Wire, n: nat, now: int)
    requires Link(x, y, w) && Good(x) && Good(y) && n <= |w.rx| && RejectsBatch(y.t) && now > 0
    ensures Link(x, ProcessBatch(y, PacketsOf(w.rx[..n]), now), AfterBatch(y, w, n))
  {
    var w1 := AfterBatch(y, w, n);
    DroppedKeepsLink(x, y, w, n);
    RejectedBatchQuiet(y, PacketsOf(w.rx[..n]), now);
    ReceiverQuietKeeps(x, y, ProcessBatch(y, PacketsOf(w.rx[..n]), now), w1);
  }

  lemma AcceptedBatchKeepsLink(x: Endpoint, y: Endpoint, w: Wire, n: nat, now: int)
    requires Link(x, y, w) && !RejectsBatch(y.t)
    requires n <= |w.rx| && Usable(x.h.input, y.h.taken, y.cfg.window, w.rx[..n])
    ensures Link(x, ProcessBatch(y, PacketsOf(w.rx[..n]), now), AfterBatch(y, w, n))
  {
    WireAfterBatch(x.h.input, y, w, n);
    BatchReceiver(x.h.input, y, w.rx[..n], now);
    BatchFlow(x, y, w.acks, w.rx[..n], now);
    BatchEnd(x, y, PacketsOf(w.rx[..n]), now);
  }

  lemma BatchEnd(x: Endpoint, y: Endpoint, batch: seq<Packet>, now: int)
    requires EndInv(x, y) && !RejectsBatch(y.t)
    ensures EndInv(x, ProcessBatch(y, batch, now))
  {
  }

  lemma WireAfterBatch(input: seq<Chunk>, y: Endpoint, w: Wire, n: nat)
    requires ReceiverInv(input, y) && 0 <= y.cfg.window < HALF && WireInv(input, w) && !RejectsBatch(y.t)
    requires n <= |w.rx| && Usable(input, y.h.taken, y.cfg.window, w.rx[..n])
    ensures WireInv(input, AfterBatch(y, w, n))
  {
    AcksGenuine(input, y, w.rx[..n]);
  }

  lemma RejectedBatchQuiet(y: Endpoint, batch: seq<Packet>, now: int)
    requires Good(y) && RejectsBatch(y.t) && now > 0
    ensures Quiet(y, ProcessBatch(y, batch, now)) && EofKept(y.t, ProcessBatch(y, batch, now).t)
  {
    var y1 := y.(r := y.r.(pendingInbound :=
      if y.r.pendingInbound >= |batch| then y.r.pendingInbound - |batch| else 0));
    PlainStepKeeps(y, y1);
    PlainQuiet(y, y1);
    if NeedCloseWrite(y.t) {
      CloseStepQuiet(y, y1, SEND_CLOSE_WRITE, now);
    }
  }

  // The write loop

  lemma DeliveredTake(input: seq<Chunk>, taken: nat, output: seq<Chunk>, chunks: seq<Chunk>)
    requires Delivered(input, taken, output, [], false) && taken + |chunks| <= |input|
    requires chunks == input[taken..taken + |chunks|]
    ensures Delivered(input, taken + |chunks|, output, chunks, false)
  {
    assert output + [] == output;
    assert input[..taken] + input[taken..taken + |chunks|] == input[..taken + |chunks|];
  }

  lemma TakeHeld(input: seq<Chunk>, taken: nat, window: int, buf: map<u16, Chunk>)
    requires HeldMatch(input, taken, window, buf) && Fits(window, Wrap(taken), buf) && 0 <= window < HALF
    requires Ready(buf, Wrap(taken)) != []
    ensures var k := |Ready(buf, Wrap(taken))|;
            HeldMatch(input, taken + k, window, Rest(buf, Wrap(taken)))
            && Fits(window, Wrap(taken + k), Rest(buf, Wrap(taken)))
  {
    DrainKeepsMatch(input, taken, window, buf);
    DrainShrinks(taken, buf);
  }

  /** `f` is `y` with the contiguous chunks taken. */
  predicate Taken(y: Endpoint, f: Endpoint) {
    && Ready(y.r.buf, y.r.nxt) != [] && y.r.inWrite == [] && f.cfg == y.cfg
    && f.r.inWrite == Ready(y.r.buf, y.r.nxt) && f.r.buf == Rest(y.r.buf, y.r.nxt)
    && f.h.taken == y.h.taken + |f.r.inWrite| && f.r.nxt == Wrap(f.h.taken) && f.h.output == y.h.output
  }

  /** A drain that finds chunks takes them. */
  lemma DrainTakes(y: Endpoint)
    requires Ready(y.r.buf, y.r.nxt) != [] && y.r.nxt == Wrap(y.h.taken) && y.r.inWrite == []
    ensures Taken(y, Drain(y))
    ensures Drain(y).t.flags == y.t.flags + {LocalWritePending} && Drain(y).t.reason == y.t.reason
  {
    SameStep(y.r.nxt, y.h.taken, |Ready(y.r.buf, y.r.nxt)|);
  }

  lemma TakenHeld(input: seq<Chunk>, y: Endpoint, f: Endpoint)
    requires Taken(y, f) && y.r.nxt == Wrap(y.h.taken) && 0 <= y.cfg.window < HALF
    requires HeldMatch(input, y.h.taken, y.cfg.window, y.r.buf) && Fits(y.cfg.window, y.r.nxt, y.r.buf)
    ensures HeldMatch(input, f.h.taken, f.cfg.window, f.r.buf) && Fits(f.cfg.window, f.r.nxt, f.r.buf)
  {
    TakeHeld(input, y.h.taken, y.cfg.window, y.r.buf);
  }

  lemma TakenDelivered(input: seq<Chunk>, y: Endpoint, f: Endpoint)
    requires Taken(y, f) && y.r.nxt == Wrap(y.h.taken) && 0 <= y.cfg.window < HALF
    requires HeldMatch(input, y.h.taken, y.cfg.window, y.r.buf)
    requires Delivered(input, y.h.taken, y.h.output, y.r.inWrite, false)
    ensures Delivered(input, f.h.taken, f.h.output, f.r.inWrite, false)
  {
    DrainTakesPrefix(input, y.h.taken, y.cfg.window, y.r.buf);
    DeliveredTake(input, y.h.taken, y.h.output, Ready(y.r.buf, y.r.nxt));
  }

  lemma TakeReceiver(input: seq<Chunk>, y: Endpoint, f: Endpoint)
    requires ReceiverInv(input, y) && LocalWriterBroken !in y.t.flags && 0 <= y.cfg.window < HALF
    requires Taken(y, f) && LocalWriterBroken !in f.t.flags
    ensures ReceiverInv(input, f)
  {
    TakenHeld(input, y, f);
    TakenDelivered(input, y, f);
  }

  lemma SameStep(nxt: u16, taken: nat, k: nat)
    requires nxt == Wrap(taken)
    ensures Wrap(nxt + k) == Wrap(taken + k)
  {
  }

  /** A broken writer left nothing to take. */
  lemma TakerIsUnbroken(y: Endpoint)
    requires Base(MachineOf(y)) && Ready(y.r.buf, y.r.nxt) != []
    ensures LocalWriterBroken !in y.t.flags
  {
    EmptiesMembers(y.s, y.r);
  }

  lemma TakeFlow(x: Endpoint, y: Endpoint, acks: set<Tag>)
    requires Narrow(x.cfg, y.cfg) && FlowInv(x, y, acks) && y.r.nxt == Wrap(y.h.taken)
    requires (forall a :: a in acks ==> a.i < |x.h.input|) && Ready(y.r.buf, y.r.nxt) != []
    ensures FlowInv(x, Drain(y), acks)
  {
    if Receiving(y.t) {
      FlowDrain(|x.h.input|, x.s.buf, x.cfg.limit, Flushed(x.t), y.h.taken, y.r.buf, y.cfg.window, acks);
    }
  }

  /** Nothing more can be taken once the end was announced. */
  lemma TakeEnd(x: Endpoint, y: Endpoint, w: Wire)
    requires Link(x, y, w) && Good(x) && Base(MachineOf(y)) && CanDrain(y) && Ready(y.r.buf, y.r.nxt) != []
    ensures EndInv(x, Drain(y))
  {
    EmptiesMembers(y.s, y.r);
    DrainTakesPrefix(x.h.input, y.h.taken, y.cfg.window, y.r.buf);
    assert y.h.output + y.r.inWrite == y.h.output;
  }

  /** The local writer is closed only when nothing is left to take, so only when everything was written. */
  lemma HalfCloseEnd(x: Endpoint, y: Endpoint, w: Wire, raised: set<Flag>)
    requires Link(x, y, w) && Good(x) && CanDrain(y) && Ready(y.r.buf, y.r.nxt) == []
    requires raised == {} || (raised == {LocalWriteClosed} && CloseReadReceived in y.t.flags)
    ensures EndInv(x, Flagged(y, raised, {LocalWritePending}))
  {
    if raised != {} && !GaveUp(y.t) && !Flushed(x.t) {
      CompleteAtGap(x, y, w);
    }
    HalfClosed(x, y, raised);
  }

  lemma HalfClosed(x: Endpoint, y: Endpoint, raised: set<Flag>)
    requires EndInv(x, y) && y.r.inWrite == []
    requires raised == {} || (raised == {LocalWriteClosed} && CloseReadReceived in y.t.flags)
    requires raised != {} && !GaveUp(y.t) && !Flushed(x.t) ==> y.h.output == x.h.input
    ensures EndInv(x, Flagged(y, raised, {LocalWritePending}))
  {
  }

  /** A step that leaves the received chunks and the give-up flags alone keeps the rest. */
  lemma FlagsKeepLink(x: Endpoint, y: Endpoint, y1: Endpoint, w: Wire)
    requires Link(x, y, w) && EndInv(x, y1) && y1.cfg == y.cfg
    requires y1.r.nxt == y.r.nxt && y1.r.buf == y.r.buf && y1.h.taken == y.h.taken
    requires LocalWriterBroken in y1.t.flags <==> LocalWriterBroken in y.t.flags
    requires Receiving(y1.t) ==> Receiving(y.t)
    requires Delivered(x.h.input, y.h.taken, y1.h.output, y1.r.inWrite, LocalWriterBroken in y.t.flags)
    ensures Link(x, y1, w)
  {
  }

  lemma DrainKeepsLink(x: Endpoint, y: Endpoint, w: Wire)
    requires Link(x, y, w) && Good(x) && Good(y) && CanDrain(y)
    ensures Link(x, Drain(y), w)
  {
    if Ready(y.r.buf, y.r.nxt) == [] {
      var halfClose := CloseReadReceived in y.t.flags && y.r.pendingInbound == 0 && IsClosed !in y.t.flags;
      var raised := if halfClose then {LocalWriteClosed} else {};
      var y1 := Flagged(y, raised, {LocalWritePending});
      HalfCloseEnd(x, y, w, raised);
      FlagsKeepLink(x, y, y1, w);
      WriterStepKeeps(y, y1, raised, {LocalWritePending});
      TryFinalizeQuiet(y1);
      ReceiverQuietKeeps(x, y1, TryFinalize(y1), w);
    } else {
      TakeKeepsLink(x, y, w);
    }
  }

  lemma TakeKeepsLink(x: Endpoint, y: Endpoint, w: Wire)
    requires Link(x, y, w) && Good(x) && Base(MachineOf(y)) && CanDrain(y) && Ready(y.r.buf, y.r.nxt) != []
    ensures Link(x, Drain(y), w)
  {
    var f := Drain(y);
    TakerIsUnbroken(y);
    DrainTakes(y);
    TakeReceiver(x.h.input, y, f);
    TakeFlow(x, y, w.acks);
    TakeEnd(x, y, w);
  }

  lemma TryFinalizeQuiet(y: Endpoint)
    requires Good(y)
    ensures Quiet(y, TryFinalize(y)) && EofKept(y.t, TryFinalize(y).t)
  {
    TryFinalizeWf(y.cfg, MachineOf(y));
    MachineStepQuiet(y, TryFinalizeRemoteEOF(y.cfg, MachineOf(y)));
  }

  /** The end is not announced while chunks are being written. */
  lemma WrittenEnd(x: Endpoint, y: Endpoint, y1: Endpoint)
    requires EndInv(x, y) && y.r.inWrite != [] && y1.t.flags == y.t.flags - {LocalWritePending}
    requires y1.t.reason == y.t.reason
    ensures EndInv(x, y1)
  {
    assert Ended(y1.t) == Ended(y.t) && GaveUp(y1.t) == GaveUp(y.t);
  }

  lemma WriteDoneKeepsLink(x: Endpoint, y: Endpoint, w: Wire)
    requires Link(x, y, w) && Good(x) && Good(y) && y.r.inWrite != []
    ensures Link(x, WriteDone(y), w)
  {
    var y1 := Flagged(y, {}, {LocalWritePending}).(
      r := y.r.(inWrite := []), h := y.h.(output := y.h.output + y.r.inWrite));
    WrittenLink(x, y, y1, w);
    WriterStepKeeps(y, y1, {}, {LocalWritePending});
    TryFinalizeQuiet(y1);
    ReceiverQuietKeeps(x, y1, TryFinalize(y1), w);
  }

  lemma WrittenLink(x: Endpoint, y: Endpoint, y1: Endpoint, w: Wire)
    requires Link(x, y, w) && y.r.inWrite != [] && y1.cfg == y.cfg
    requires y1.t.flags == y.t.flags - {LocalWritePending} && y1.t.reason == y.t.reason
    requires y1.r.nxt == y.r.nxt && y1.r.buf == y.r.buf && y1.h.taken == y.h.taken
    requires y1.r.inWrite == [] && y1.h.output == y.h.output + y.r.inWrite
    ensures Link(x, y1, w)
  {
    WrittenEnd(x, y, y1);
    assert y1.h.output + y1.r.inWrite == y.h.output + y.r.inWrite;
    FlagsKeepLink(x, y, y1, w);
  }

  lemma WriteFailedKeepsLink(x: Endpoint, y: Endpoint, w: Wire, k: nat, now: int)
    requires Link(x, y, w) && Good(x) && Good(y) && k <= |y.r.inWrite| && now > 0
    ensures Link(x, WriteFailed(y, k, now), w)
  {
    var y1 := Flagged(y, {LocalWriterBroken}, {LocalWritePending}).(
      r := y.r.(inWrite := [], buf := map[]), h := y.h.(output := y.h.output + y.r.inWrite[..k]));
    FailedReceiver(x.h.input, y, y1, k);
    assert Link(x, y1, w);
    WriterStepKeeps(y, y1, {LocalWriterBroken}, {LocalWritePending});
    PlainQuiet(y1, y1);
    CloseStepQuiet(y1, y1, SEND_CLOSE_WRITE, now);
    ReceiverQuietKeeps(x, y1, WriteFailed(y, k, now), w);
  }

  lemma FailedReceiver(input: seq<Chunk>, y: Endpoint, y1: Endpoint, k: nat)
    requires ReceiverInv(input, y) && k <= |y.r.inWrite| && 0 <= y.cfg.window
    requires y1.cfg == y.cfg && y1.r.nxt == y.r.nxt && y1.h.taken == y.h.taken && y1.r.inWrite == []
    requires y1.r.buf == map[]
    requires y1.h.output == y.h.output + y.r.inWrite[..k] && LocalWriterBroken in y1.t.flags
    ensures ReceiverInv(input, y1)
  {
    assert y1.h.output + y1.r.inWrite == (y.h.output + y.r.inWrite)[..|y.h.output| + k];
  }

  // ---------------------------------------------------------------------
  // What a step means for the direction it is not about
  // ---------------------------------------------------------------------

  lemma ReadFar(x: Endpoint, data: Chunk, now: int)
    requires Good(x) && CanRead(x)
    ensures ReceiverQuiet(x, Read(x, data, now)) && EofKept(x.t, Read(x, data, now).t)
  {
  }

  lemma AckFar(x: Endpoint, sn: u16, now: int)
    requires Good(x) && now > 0
    ensures ReceiverQuiet(x, ReceiveAck(x, sn, now)) && EofKept(x.t, ReceiveAck(x, sn, now).t)
  {
    if sn in x.s.buf {
      var x1 := x.(t := Active(x.t, now), s := Acknowledge(x.cfg, x.s, sn, now));
      AckSettles(x, sn, now);
      ReceiverQuietAfter(x, x1, ReceiveAck(x, sn, now));
    } else {
      PlainQuiet(x, ReceiveAck(x, sn, now));
    }
  }

  lemma SameSender(y: Endpoint, y1: Endpoint)
    requires y1.s == y.s && y1.h.input == y.h.input
    ensures SenderQuiet(y, y1)
  {
  }

  lemma DrainFar(y: Endpoint)
    requires Good(y) && CanDrain(y)
    ensures SenderQuiet(y, Drain(y))
  {
    if Ready(y.r.buf, y.r.nxt) == [] {
      var halfClose := CloseReadReceived in y.t.flags && y.r.pendingInbound == 0 && IsClosed !in y.t.flags;
      var raised := if halfClose then {LocalWriteClosed} else {};
      var y1 := Flagged(y, raised, {LocalWritePending});
      SameSender(y, y1);
      WriterStepKeeps(y, y1, raised, {LocalWritePending});
      TryFinalizeQuiet(y1);
      SenderQuietTransitive(y, y1, TryFinalize(y1));
    } else {
      SameSender(y, Drain(y));
    }
  }

  lemma WriteDoneFar(y: Endpoint)
    requires Good(y)
    ensures SenderQuiet(y, WriteDone(y))
  {
    var y1 := Flagged(y, {}, {LocalWritePending}).(
      r := y.r.(inWrite := []), h := y.h.(output := y.h.output + y.r.inWrite));
    SameSender(y, y1);
    WriterStepKeeps(y, y1, {}, {LocalWritePending});
    TryFinalizeQuiet(y1);
    SenderQuietTransitive(y, y1, TryFinalize(y1));
  }

  lemma WriteFailedFar(y: Endpoint, k: nat, now: int)
    requires Good(y) && k <= |y.r.inWrite| && now > 0
    ensures SenderQuiet(y, WriteFailed(y, k, now))
  {
    var y1 := Flagged(y, {LocalWriterBroken}, {LocalWritePending}).(
      r := y.r.(inWrite := [], buf := map[]), h := y.h.(output := y.h.output + y.r.inWrite[..k]));
    SameSender(y, y1);
    WriterStepKeeps(y, y1, {LocalWriterBroken}, {LocalWritePending});
    PlainQuiet(y1, y1);
    CloseStepQuiet(y1, y1, SEND_CLOSE_WRITE, now);
    SenderQuietTransitive(y, y1, WriteFailed(y, k, now));
  }

  lemma BatchFar(y: Endpoint, batch: seq<Packet>, now: int)
    requires Good(y) && now > 0
    ensures SenderQuiet(y, ProcessBatch(y, batch, now))
  {
    if RejectsBatch(y.t) {
      RejectedBatchQuiet(y, batch, now);
    } else {
      SameSender(y, ProcessBatch(y, batch, now));
    }
  }
}
