/**
 * The state of one ARQ stream endpoint and what each of its handlers does to it, as functions on values.
 * The class in Arq.dfy carries the same state in mutable fields and is proved against these functions.
 * A handler runs atomically.
 */
module ArqState {
  import opened Wrappers
  import opened SeqNum
  import opened Extrema
  import opened ArqTerm

  type Chunk = seq<byte>

  // ---------------------------------------------------------------------
  // Data model
  // ---------------------------------------------------------------------

  /** An unacknowledged chunk. `sends` is a history variable: how often a copy left the transmit queue. */
  datatype Item = Item(data: Chunk, createdAt: int, lastSentAt: int, dispatched: bool, lastNackSentAt: int,
                       retries: nat, currentRTO: int, sampleEligible: bool, ttl: nat, sends: nat)

  /** The two lanes a chunk can wait in: STREAM_DATA and STREAM_RESEND. */
  datatype Lane = Fresh | Resend
  datatype TxKey = TxKey(lane: Lane, sn: u16)
  type TxQueue = map<TxKey, Chunk>

  datatype Packet = Packet(sn: u16, data: Chunk)

  /** The sending half: numbering, unacknowledged chunks, the scan hint, the RTO estimate and the data queue. */
  datatype Sender = Sender(nxt: u16, buf: map<u16, Item>, minRetransmitAt: int, rtt: AdaptiveRTO, queue: TxQueue)

  /** The receiving half; `inWrite` holds the chunks the write loop has taken and not yet written. */
  datatype Receiver = Receiver(nxt: u16, buf: map<u16, Chunk>, pendingInbound: nat, inWrite: seq<Chunk>)

  /**
   * What passed through the local connection, as history no handler reads: the chunks read from it, how many
   * chunks were taken out of the receive buffer, and the chunks written to it.
   */
  datatype History = History(input: seq<Chunk>, taken: nat, output: seq<Chunk>)

  datatype Endpoint = Endpoint(cfg: Config, s: Sender, r: Receiver, t: Term, c: Control, h: History)

  /** `NewARQ`. */
  function Initial(cfg: Config, isVirtual: bool, now: int): Endpoint {
    Endpoint(cfg, Sender(0, map[], 0, AdaptiveRTO(0, 0, cfg.rto, false), map[]), Receiver(0, map[], 0, []),
             InitialTerm(isVirtual, now), InitialControl(cfg), History([], 0, []))
  }

  // ---------------------------------------------------------------------
  // The close machine's view of the data plane
  // ---------------------------------------------------------------------

  function Empties(s: Sender, r: Receiver): set<Buffer> {
    (if s.buf == map[] then {Snd} else {}) + (if r.buf == map[] then {Rcv} else {})
    + (if r.pendingInbound == 0 then {Inbound} else {})
  }

  function MachineOf(e: Endpoint): Machine {
    Machine(e.t, e.c, Empties(e.s, e.r))
  }

  /** The endpoint after the machine moved: what it emptied is emptied, and closing clears the owner's queue. */
  function Moved(e: Endpoint, m: Machine): Endpoint {
    e.(s := e.s.(buf := if Snd in m.empty then map[] else e.s.buf,
                 queue := if IsClosed in m.t.flags && IsClosed !in e.t.flags then map[] else e.s.queue),
       r := e.r.(buf := if Rcv in m.empty then map[] else e.r.buf),
       t := m.t, c := m.c)
  }

  function CloseWith(e: Endpoint, o: CloseOptions, now: int): Endpoint {
    Moved(e, Close(e.cfg, MachineOf(e), o, now))
  }

  function TryFinalize(e: Endpoint): Endpoint {
    Moved(e, TryFinalizeRemoteEOF(e.cfg, MachineOf(e)))
  }

  function SettleDrain(e: Endpoint, now: int): Endpoint {
    Moved(e, Settle(e.cfg, MachineOf(e), now))
  }

  function Active(t: Term, now: int): Term {
    t.(lastActivity := now)
  }

  // ---------------------------------------------------------------------
  // The stream's transmit queue (data lanes)
  // ---------------------------------------------------------------------

  /** Whether PushTXPacket takes a copy: a resend is refused only by a resend, fresh data by either. */
  predicate Accepts(q: TxQueue, lane: Lane, sn: u16) {
    TxKey(Resend, sn) !in q && (lane.Fresh? ==> TxKey(Fresh, sn) !in q)
  }

  /** PushTXPacket of an accepted copy: a resend displaces the fresh copy of the same chunk. */
  function PushTX(q: TxQueue, lane: Lane, sn: u16, data: Chunk): TxQueue {
    if !Accepts(q, lane, sn) then q
    else if lane.Fresh? then q[TxKey(Fresh, sn) := data]
    else q[TxKey(Resend, sn) := data] - {TxKey(Fresh, sn)}
  }

  function RemoveQueuedData(q: TxQueue, sn: u16): TxQueue {
    q - {TxKey(Fresh, sn), TxKey(Resend, sn)}
  }

  lemma RemovedFromQueue(q: TxQueue, sn: u16, key: TxKey)
    ensures key in RemoveQueuedData(q, sn) <==> key in q && key.sn != sn
  {
    assert key == TxKey(key.lane, key.sn);
    match key.lane
    case Fresh =>
    case Resend =>
  }

  // ---------------------------------------------------------------------
  // Sending data
  // ---------------------------------------------------------------------

  function DataBaseRTO(cfg: Config, s: Sender): int {
    if s.rtt.currentBase <= 0 then cfg.rto else Clamp(s.rtt.currentBase, cfg.rto, cfg.maxRTO)
  }

  predicate CanRead(e: Endpoint) {
    |e.s.buf| < e.cfg.limit && StopLocalRead !in e.t.flags && IsClosed !in e.t.flags
  }

  /** Number a chunk, buffer it and queue its first copy; a refused copy is treated as one whose RTO ran out. */
  function Enqueue(cfg: Config, s: Sender, data: Chunk, now: int): Sender {
    var base := DataBaseRTO(cfg, s);
    var queued := Accepts(s.queue, Fresh, s.nxt);
    var item := Item(data, now, if queued then 0 else now - base, !queued, 0, 0, base, true, 0, 0);
    s.(nxt := Inc(s.nxt), buf := s.buf[s.nxt := item], minRetransmitAt := 0,
       queue := PushTX(s.queue, Fresh, s.nxt, data))
  }

  /** One successful read in ioLoop. */
  function Read(e: Endpoint, data: Chunk, now: int): Endpoint {
    e.(s := Enqueue(e.cfg, e.s, data, now), t := Active(e.t, now), h := e.h.(input := e.h.input + [data]))
  }

  /** The local application closed its side: the close waits until sent data is acknowledged. */
  function ReadEOF(e: Endpoint, now: int): Endpoint {
    CloseWith(e.(t := e.t.(clientEOFAt := if e.cfg.isClient && e.t.clientEOFAt == 0 then now else e.t.clientEOFAt)),
              DRAIN_THEN_CLOSE_READ, now)
  }

  /** A copy leaves the transmit queue. */
  function Dequeued(item: Item, now: int): Item {
    item.(lastSentAt := now, dispatched := true, sends := item.sends + 1)
  }

  function Pop(s: Sender, key: TxKey, now: int): Sender {
    if key.sn in s.buf then
      s.(queue := s.queue - {key}, buf := s.buf[key.sn := Dequeued(s.buf[key.sn], now)], minRetransmitAt := 0)
    else s.(queue := s.queue - {key})
  }

  /** The sender once chunk `sn` is acknowledged: an RTT sample is taken only from a chunk sent exactly once. */
  function Acknowledge(cfg: Config, s: Sender, sn: u16, now: int): Sender
    requires sn in s.buf
  {
    var item := s.buf[sn];
    var sampled := item.sampleEligible && item.dispatched && item.lastSentAt != 0;
    s.(buf := s.buf - {sn}, queue := RemoveQueuedData(s.queue, sn),
       rtt := if sampled then UpdateAdaptiveRTO(s.rtt, now - item.lastSentAt, cfg.rto, cfg.maxRTO) else s.rtt)
  }

  function ReceiveAck(e: Endpoint, sn: u16, now: int): Endpoint {
    if sn !in e.s.buf then e.(t := Active(e.t, now))
    else
      var e1 := e.(t := Active(e.t, now), s := Acknowledge(e.cfg, e.s, sn, now));
      SettleDrain(if CloseReadReceived in e.t.flags then TryFinalize(e1) else e1, now)
  }

  predicate NackHonoured(cfg: Config, s: Sender, sn: u16, now: int) {
    && sn in s.buf
    && (s.buf[sn].lastNackSentAt == 0 || now - s.buf[sn].lastNackSentAt >= cfg.nackRepeat)
    && Accepts(s.queue, Resend, sn)
  }

  function Resend1(s: Sender, sn: u16, now: int): Sender
    requires sn in s.buf
  {
    s.(queue := PushTX(s.queue, Resend, sn, s.buf[sn].data),
       buf := s.buf[sn := s.buf[sn].(lastNackSentAt := now, sampleEligible := false)])
  }

  function HandleDataNack(e: Endpoint, sn: u16, now: int): Endpoint {
    if IsClosed in e.t.flags || e.t.state == Reset || RstReceived in e.t.flags || RstSent in e.t.flags then e
    else if NackHonoured(e.cfg, e.s, sn, now) then e.(t := Active(e.t, now), s := Resend1(e.s, sn, now))
    else e.(t := Active(e.t, now))
  }

  /** MarkCloseWriteReceived: nothing more is sent, and the queued copies of what was unacknowledged go too. */
  function PeerClosedWrite(e: Endpoint, now: int): Endpoint {
    if IsVirtual in e.t.flags then e
    else
      var purged := map key | key in e.s.queue && key.sn !in e.s.buf :: e.s.queue[key];
      Moved(e.(s := e.s.(queue := purged, minRetransmitAt := 0)), MarkCloseWriteReceived(e.cfg, MachineOf(e), now))
  }

  // ---------------------------------------------------------------------
  // Receiving data
  // ---------------------------------------------------------------------

  predicate NeedCloseWrite(t: Term) {
    && LocalWriterBroken in t.flags && CloseWriteSent !in t.flags && !Awaits(t, CloseWrite)
    && IsClosed !in t.flags && RstReceived !in t.flags && RstSent !in t.flags
  }

  predicate RefusesData(t: Term) {
    IsClosed in t.flags || RstReceived in t.flags || RstSent in t.flags || LocalWriterBroken in t.flags
  }

  /** ReceiveData; `room` says whether the inbound channel can take one more packet. */
  function ReceiveData(e: Endpoint, room: bool, now: int): Endpoint {
    if NeedCloseWrite(e.t) then CloseWith(e, SEND_CLOSE_WRITE, now)
    else if RefusesData(e.t) || !room then e
    else e.(r := e.r.(pendingInbound := e.r.pendingInbound + 1))
  }

  datatype Verdict = Old | Beyond | Full | Duplicate | New

  /** How one inbound packet is categorised. */
  function Classify(window: int, rcvNxt: u16, rcvBuf: map<u16, Chunk>, sn: u16): Verdict {
    if Sub(sn, rcvNxt) >= HALF then Old
    else if Sub(sn, rcvNxt) > window then Beyond
    else if sn in rcvBuf then Duplicate
    else if |rcvBuf| >= window && sn != rcvNxt then Full
    else New
  }

  predicate Acked(v: Verdict) {
    v.Old? || v.Duplicate? || v.New?
  }

  /** The receive buffer after a batch of packets. */
  function Insert(window: int, rcvNxt: u16, rcvBuf: map<u16, Chunk>, batch: seq<Packet>): map<u16, Chunk> {
    if batch == [] then rcvBuf
    else
      var buf := Insert(window, rcvNxt, rcvBuf, batch[..|batch| - 1]);
      var p := batch[|batch| - 1];
      if Classify(window, rcvNxt, buf, p.sn).New? then buf[p.sn := p.data] else buf
  }

  /** The verdict on packet `k` of a batch: packets before it are already inserted. */
  function VerdictAt(window: int, rcvNxt: u16, rcvBuf: map<u16, Chunk>, batch: seq<Packet>, k: nat): Verdict
    requires k < |batch|
  {
    Classify(window, rcvNxt, Insert(window, rcvNxt, rcvBuf, batch[..k]), batch[k].sn)
  }

  predicate RejectsBatch(t: Term) {
    LocalWriterBroken in t.flags || CloseWriteSent in t.flags || CloseWriteAcked in t.flags
  }

  /** processReceivedDataBatch; packet k is acknowledged iff not RejectsBatch and Acked(VerdictAt(.., k)). */
  function ProcessBatch(e: Endpoint, batch: seq<Packet>, now: int): Endpoint {
    var pending := if e.r.pendingInbound >= |batch| then e.r.pendingInbound - |batch| else 0;
    if RejectsBatch(e.t) then
      var e1 := e.(r := e.r.(pendingInbound := pending));
      if NeedCloseWrite(e.t) then CloseWith(e1, SEND_CLOSE_WRITE, now) else e1
    else
      e.(r := e.r.(pendingInbound := pending, buf := Insert(e.cfg.window, e.r.nxt, e.r.buf, batch)),
         t := Active(e.t, now))
  }

  /** The contiguous chunks buffered from `nxt` on. */
  function Ready(buf: map<u16, Chunk>, nxt: u16): seq<Chunk>
    decreases |buf|
  {
    if nxt !in buf then []
    else
      RemoveShrinks(buf, nxt);
      [buf[nxt]] + Ready(buf - {nxt}, Inc(nxt))
  }

  /** What stays buffered once they are taken. */
  function Rest(buf: map<u16, Chunk>, nxt: u16): map<u16, Chunk>
    decreases |buf|
  {
    if nxt !in buf then buf
    else
      RemoveShrinks(buf, nxt);
      Rest(buf - {nxt}, Inc(nxt))
  }

  lemma RemoveShrinks<X, Y>(m: map<X, Y>, x: X)
    requires x in m
    ensures |m - {x}| == |m| - 1
  {
    assert m == (m - {x})[x := m[x]];
  }

  predicate CanDrain(e: Endpoint) {
    IsClosed !in e.t.flags && e.r.inWrite == []
  }

  /** Raise and lower flags of the close machine from the write loop. */
  function Flagged(e: Endpoint, raised: set<Flag>, lowered: set<Flag>): Endpoint {
    e.(t := e.t.(flags := e.t.flags + raised - lowered))
  }

  /** One pass of the write loop: take what is contiguous, or settle the remote EOF when nothing is. */
  function Drain(e: Endpoint): Endpoint {
    var chunks := Ready(e.r.buf, e.r.nxt);
    if chunks == [] then
      var halfClose := CloseReadReceived in e.t.flags && e.r.pendingInbound == 0 && IsClosed !in e.t.flags;
      TryFinalize(Flagged(e, if halfClose then {LocalWriteClosed} else {}, {LocalWritePending}))
    else
      Flagged(e, {LocalWritePending}, {}).(
        r := e.r.(buf := Rest(e.r.buf, e.r.nxt), nxt := Wrap(e.r.nxt + |chunks|), inWrite := chunks),
        h := e.h.(taken := e.h.taken + |chunks|))
  }

  /** The chunks taken were all written. */
  function WriteDone(e: Endpoint): Endpoint {
    TryFinalize(Flagged(e, {}, {LocalWritePending}).(
      r := e.r.(inWrite := []), h := e.h.(output := e.h.output + e.r.inWrite)))
  }

  /** Only the first `k` chunks could be written: the writer is broken from here on. */
  function WriteFailed(e: Endpoint, k: nat, now: int): Endpoint
    requires k <= |e.r.inWrite|
  {
    CloseWith(Flagged(e, {LocalWriterBroken}, {LocalWritePending}).(
      r := e.r.(inWrite := [], buf := map[]), h := e.h.(output := e.h.output + e.r.inWrite[..k])),
      SEND_CLOSE_WRITE, now)
  }

  // ---------------------------------------------------------------------
  // The retransmit tick
  // ---------------------------------------------------------------------

  predicate TtlExpired(item: Item, now: int) {
    item.ttl > 0 && now - item.createdAt >= item.ttl
  }

  predicate RetryExceeded(cfg: Config, item: Item, now: int) {
    item.ttl == 0 && now - item.createdAt >= cfg.dataPacketTTL && item.retries >= cfg.maxDataRetries
  }

  predicate RtoDue(item: Item, now: int) {
    item.dispatched && now - item.lastSentAt >= item.currentRTO
  }

  function Due(buf: map<u16, Item>, now: int): set<u16> {
    set sn | sn in buf && RtoDue(buf[sn], now)
  }

  /** How many of the due chunks may take the priority lane. */
  function FrontBudget(window: int, jobs: nat): int {
    Min(Clamp(window / 10, 1, 64), jobs)
  }

  /** The due chunks farther behind `nxt` than `sn` is. */
  function Farther(due: set<u16>, nxt: u16, sn: u16): set<u16> {
    set x | x in due && Sub(nxt, x) > Sub(nxt, sn)
  }

  /** A due chunk takes the priority lane iff fewer than the budget are farther behind. */
  function LaneOf(window: int, due: set<u16>, nxt: u16, sn: u16): Lane {
    if |Farther(due, nxt, sn)| < FrontBudget(window, |due|) then Resend else Fresh
  }

  /** The item of a chunk whose retransmission was queued: RTO grows by 1.35 within its bounds. */
  function Resent(item: Item, floor: int, maxRTO: int, now: int): Item {
    item.(lastSentAt := now, dispatched := false, retries := item.retries + 1, sampleEligible := false,
          currentRTO := Clamp(item.currentRTO * 27 / 20, floor, maxRTO))
  }

  predicate QueuedNow(window: int, s: Sender, due: set<u16>, sn: u16) {
    sn in due && Accepts(s.queue, LaneOf(window, due, s.nxt, sn), sn)
  }

  /** The send buffer after every due chunk was offered to the queue, in whatever order. */
  function ResentBuf(cfg: Config, s: Sender, now: int): map<u16, Item> {
    var due := Due(s.buf, now);
    map sn | sn in s.buf ::
      if QueuedNow(cfg.window, s, due, sn) then Resent(s.buf[sn], DataBaseRTO(cfg, s), cfg.maxRTO, now) else s.buf[sn]
  }

  /** The queue after it: an accepted chunk is in its lane and in no other, everything else is as before. */
  function ResentQueue(window: int, s: Sender, due: set<u16>): TxQueue
    requires due <= s.buf.Keys
  {
    var touched := (set sn | sn in due :: TxKey(Fresh, sn)) + (set sn | sn in due :: TxKey(Resend, sn));
    map key | key in s.queue.Keys + touched
              && (if QueuedNow(window, s, due, key.sn) then key.lane == LaneOf(window, due, s.nxt, key.sn)
                  else key in s.queue)
      :: if QueuedNow(window, s, due, key.sn) then s.buf[key.sn].data else s.queue[key]
  }

  function ResendDue(cfg: Config, s: Sender, now: int): Sender {
    s.(buf := ResentBuf(cfg, s, now), queue := ResentQueue(cfg.window, s, Due(s.buf, now)))
  }

  /** Every instant at which an item could next need action: its RTO deadline and its explicit TTL expiry. */
  function Deadlines(buf: map<u16, Item>): set<int> {
    (set sn | sn in buf && buf[sn].dispatched :: buf[sn].lastSentAt + buf[sn].currentRTO)
    + (set sn | sn in buf && buf[sn].ttl > 0 :: buf[sn].createdAt + buf[sn].ttl)
  }

  /** The hint a full scan leaves behind: the least deadline, or 0 when there is none. */
  ghost function HintOf(buf: map<u16, Item>): (hint: int)
    ensures Deadlines(buf) == {} ==> hint == 0
    ensures Deadlines(buf) != {} ==> IsLeast(hint, Deadlines(buf))
  {
    if Deadlines(buf) == {} then 0
    else
      LeastExists(Deadlines(buf));
      var m :| IsLeast(m, Deadlines(buf));
      m
  }

  predicate AnyTtlExpired(buf: map<u16, Item>, now: int) {
    exists sn :: sn in buf && TtlExpired(buf[sn], now)
  }

  predicate AnyRetryExceeded(cfg: Config, buf: map<u16, Item>, now: int) {
    exists sn :: sn in buf && RetryExceeded(cfg, buf[sn], now)
  }

  predicate Skips(s: Sender, now: int) {
    |s.buf| > 0 && s.minRetransmitAt != 0 && now < s.minRetransmitAt
  }

  predicate GivesUp(cfg: Config, s: Sender, now: int) {
    AnyTtlExpired(s.buf, now) || AnyRetryExceeded(cfg, s.buf, now)
  }

  /** The scan of the whole send buffer that found nothing to give up on. */
  ghost function Scanned(cfg: Config, s: Sender, now: int): Sender {
    var s1 := ResendDue(cfg, s, now);
    s1.(minRetransmitAt := HintOf(s1.buf))
  }

  ghost function ScanTick(e: Endpoint, now: int, order: seq<Kind>): Endpoint {
    if !Skips(e.s, now) && GivesUp(e.cfg, e.s, now) then Moved(e, CloseRst(e.cfg, MachineOf(e), now, 0))
    else
      var e1 := if Skips(e.s, now) then e else e.(s := Scanned(e.cfg, e.s, now));
      Moved(e1, ControlTick(e.cfg, MachineOf(e1), now, order))
  }

  /** checkRetransmits; `order` is the order in which the map of tracked packets is walked. */
  ghost function Tick(e: Endpoint, now: int, order: seq<Kind>): Endpoint {
    if IsClosed in e.t.flags then e
    else
      var e1 := Moved(e, TerminalTick(e.cfg, MachineOf(e), now));
      if TickEnds(e.cfg, MachineOf(e), now) then e1 else ScanTick(e1, now, order)
  }

  // ---------------------------------------------------------------------
  // Steps of one endpoint
  // ---------------------------------------------------------------------

  datatype Event =
    | EvRead(data: Chunk)
    | EvReadEOF
    | EvClose(options: CloseOptions)
    | EvPop(key: TxKey)
    | EvPopControl(kind: Kind)
    | EvAck(sn: u16)
    | EvNack(sn: u16)
    | EvControlAck(kind: Kind)
    | EvCloseReadReceived
    | EvCloseWriteReceived
    | EvRstReceived
    | EvReceiveData(room: bool)
    | EvBatch(batch: seq<Packet>)
    | EvDrain
    | EvWriteDone
    | EvWriteFailed(written: nat)
    | EvTick(order: seq<Kind>)

  /**
   * When an event can occur. Callers ask for a forced close, a reset, or a drained CLOSE_READ; an undrained
   * CLOSE_READ is only ever asked for by the endpoint itself.
   */
  predicate Enabled(e: Endpoint, ev: Event) {
    match ev
    case EvRead(_) => CanRead(e)
    case EvClose(o) => o.sendCloseRead ==> o.afterDrain
    case EvPop(key) => key in e.s.queue
    case EvPopControl(k) => k in e.c.queued
    case EvDrain => CanDrain(e)
    case EvWriteDone => e.r.inWrite != []
    case EvWriteFailed(k) => k < |e.r.inWrite|
    case _ => true
  }

  ghost function Step(e: Endpoint, ev: Event, now: int): Endpoint
    requires Enabled(e, ev)
  {
    match ev
    case EvRead(data) => Read(e, data, now)
    case EvReadEOF => ReadEOF(e, now)
    case EvClose(o) => CloseWith(e, o, now)
    case EvPop(key) => e.(s := Pop(e.s, key, now))
    case EvPopControl(k) => e.(c := PopControl(e.cfg, e.c, k, now))
    case EvAck(sn) => ReceiveAck(e, sn, now)
    case EvNack(sn) => HandleDataNack(e, sn, now)
    case EvControlAck(k) => Moved(e, ReceiveControlAck(e.cfg, MachineOf(e), k, now))
    case EvCloseReadReceived => Moved(e, MarkCloseReadReceived(e.cfg, MachineOf(e)))
    case EvCloseWriteReceived => PeerClosedWrite(e, now)
    case EvRstReceived => Moved(e, ReceiveRst(MachineOf(e)))
    case EvReceiveData(room) => ReceiveData(e, room, now)
    case EvBatch(batch) => ProcessBatch(e, batch, now)
    case EvDrain => Drain(e)
    case EvWriteDone => WriteDone(e)
    case EvWriteFailed(k) => WriteFailed(e, k, now)
    case EvTick(order) => Tick(e, now, order)
  }
}
