/**
 * The close machine of one ARQ endpoint: what each of its functions does, on values.
 *
 * The machine looks at the data plane only through three facts (is the send buffer empty, is the receive
 * buffer empty, is anything inbound pending) and touches it only by emptying a buffer, so it is modelled on
 * a state that holds those facts instead of the buffers. Instants are integers and 0 is the zero instant, as
 * `time.Time{}` is. The class in Arq.dfy holds the same state in mutable fields.
 */
module ArqTerm {
  import opened Extrema

  datatype StreamState =
    Open | HalfClosedLocal | HalfClosedRemote | Closing | Reset | Closed | Draining | TimeWait

  /** The three packets of the close protocol; `NoKind` is the packet type 0 of an unset field. */
  datatype Kind = NoKind | CloseRead | CloseWrite | Rst

  datatype Reason =
    NoReason | Requested | HandshakeDone | LocalDisconnectDone | ResetAcked | AckWaitTimeout | Expired | Forced

  /** The boolean fields of the close machine; one is true when it is a member of `flags`. */
  datatype Flag =
    | IsClosed
    | CloseReadSent | CloseReadReceived | CloseReadAcked
    | CloseWriteSent | CloseWriteReceived | CloseWriteAcked
    | RstSent | RstReceived | RstAcked
    | LocalWriteClosed | LocalWriterBroken | LocalWritePending | StopLocalRead
    | DeferredClose | WaitingAck | IsVirtual

  datatype CloseOptions = CloseOptions(force: bool, sendRST: bool, sendCloseWrite: bool, sendCloseRead: bool,
                                       afterDrain: bool, ttl: nat)

  const SEND_RST := CloseOptions(false, true, false, false, false, 0)
  const SEND_CLOSE_WRITE := CloseOptions(false, false, true, false, false, 0)
  const DRAIN_THEN_CLOSE_READ := CloseOptions(false, false, false, true, true, 0)

  datatype Config = Config(isClient: bool, window: int, limit: int, rto: int, maxRTO: int,
                           inactivityTimeout: int, dataPacketTTL: int, maxDataRetries: int,
                           drainTimeout: int, ackWait: int,
                           controlReliability: bool, controlRto: int, controlMaxRto: int,
                           controlMaxRetries: int, controlPacketTTL: int, nackRepeat: int)

  /** The floors `NewARQ` puts under every setting. */
  predicate ValidConfig(c: Config) {
    && c.window >= 300
    && c.limit == Max(c.window * 4 / 5, 50)
    && 0 < c.rto <= c.maxRTO
    && 0 < c.controlRto <= c.controlMaxRto
    && 0 < c.inactivityTimeout && 0 < c.dataPacketTTL && 60 <= c.maxDataRetries
    && 0 < c.drainTimeout && 0 < c.ackWait
    && 5 <= c.controlMaxRetries && 0 < c.controlPacketTTL && 0 < c.nackRepeat
  }

  datatype AdaptiveRTO = AdaptiveRTO(srtt: int, rttvar: int, currentBase: int, initialized: bool)

  function Bit(b: bool): nat {
    if b then 1 else 0
  }

  function Clamp(v: int, lo: int, hi: int): int {
    if v < lo then lo else if v > hi then hi else v
  }

  function UpdateAdaptiveRTO(s: AdaptiveRTO, sample: int, minRTO: int, maxRTO: int): AdaptiveRTO {
    var x := Clamp(sample, minRTO, maxRTO);
    var d := if s.srtt >= x then s.srtt - x else x - s.srtt;
    var rttvar := if s.initialized then (3 * s.rttvar + d) / 4 else x / 2;
    var srtt := if s.initialized then (7 * s.srtt + x) / 8 else x;
    AdaptiveRTO(srtt, rttvar, Clamp(srtt + 4 * rttvar, minRTO, maxRTO), true)
  }

  /** A close packet that is retransmitted until it is acknowledged. */
  datatype ControlItem = ControlItem(createdAt: int, lastSentAt: int, dispatched: bool, retries: nat,
                                     currentRTO: int, sampleEligible: bool, ttl: nat)

  /** The flags and deadlines. */
  datatype Term = Term(
    flags: set<Flag>, state: StreamState, reason: Reason, lastActivity: int,
    deferredPacket: Kind, deferredDeadline: int, waitingAckFor: Kind, ackWaitDeadline: int,
    clientEOFAt: int, closeReadAckedAt: int)

  /**
   * The tracked and queued close packets. The last four are history variables that no function reads: how
   * many packets of each kind were handed to the control plane, and how often OnARQClosed was called.
   */
  datatype Control = Control(
    tracked: map<Kind, ControlItem>, queued: set<Kind>, rtt: AdaptiveRTO,
    closeReads: nat, closeWrites: nat, rsts: nat, closedCalls: nat)

  /** The three places of the data plane whose emptiness the machine looks at. */
  datatype Buffer = Snd | Rcv | Inbound

  /** The machine together with which of them are empty. */
  datatype Machine = Machine(t: Term, c: Control, empty: set<Buffer>)

  function InitialTerm(isVirtual: bool, now: int): Term {
    Term(if isVirtual then {IsVirtual} else {}, Open, NoReason, now, NoKind, 0, NoKind, 0, 0, 0)
  }

  function InitialControl(cfg: Config): Control {
    Control(map[], {}, AdaptiveRTO(0, 0, cfg.controlRto, false), 0, 0, 0, 0)
  }

  // ---------------------------------------------------------------------
  // Finishing
  // ---------------------------------------------------------------------

  function FinalState(t: Term): StreamState {
    if t.state == Reset || RstReceived in t.flags || RstSent in t.flags then Reset
    else if CloseReadSent in t.flags || CloseReadReceived in t.flags
            || CloseWriteSent in t.flags || CloseWriteReceived in t.flags then TimeWait
    else Closing
  }

  function Finalize(m: Machine, why: Reason): Machine {
    if IsClosed in m.t.flags || IsVirtual in m.t.flags then m else
    Machine(m.t.(flags := m.t.flags + {IsClosed} - {DeferredClose, WaitingAck}, reason := why,
                 state := FinalState(m.t), deferredPacket := NoKind, deferredDeadline := 0,
                 waitingAckFor := NoKind, ackWaitDeadline := 0),
            m.c.(tracked := map[], queued := {}, closedCalls := m.c.closedCalls + 1),
            m.empty + {Snd, Rcv})
  }

  function ForceClose(m: Machine, why: Reason): Machine {
    Finalize(m.(t := m.t.(flags := m.t.flags - {IsVirtual})), why)
  }

  predicate LocalDisconnectComplete(cfg: Config, m: Machine) {
    var f := m.t.flags;
    && cfg.isClient && IsClosed !in f && LocalWriterBroken in f
    && CloseWriteAcked in f && CloseReadSent in f && CloseReadAcked in f
    && Snd in m.empty && Rcv in m.empty && Inbound in m.empty
    && LocalWritePending !in f && WaitingAck !in f && DeferredClose !in f
  }

  predicate RemoteEOFComplete(m: Machine) {
    var f := m.t.flags;
    var waitingForCloseReadAck := WaitingAck in f && m.t.waitingAckFor == CloseRead;
    && IsClosed !in f && CloseReadReceived in f
    && ((Rcv in m.empty && Inbound in m.empty) || LocalWriterBroken in f)
    && (LocalWritePending !in f || LocalWriterBroken in f)
    && (CloseReadAcked in f || (CloseReadSent in f && !waitingForCloseReadAck))
    && (if LocalWriterBroken in f then CloseWriteAcked in f || CloseWriteReceived in f
        else CloseWriteSent !in f || CloseWriteAcked in f)
  }

  function TryFinalizeRemoteEOF(cfg: Config, m: Machine): Machine {
    if RemoteEOFComplete(m) then Finalize(m, HandshakeDone)
    else if LocalDisconnectComplete(cfg, m) then Finalize(m, LocalDisconnectDone)
    else m
  }

  // ---------------------------------------------------------------------
  // Originating close packets
  // ---------------------------------------------------------------------

  function ControlBaseRTO(cfg: Config, c: Control): int {
    if c.rtt.currentBase <= 0 then cfg.controlRto
    else Clamp(c.rtt.currentBase, cfg.controlRto, cfg.controlMaxRto)
  }

  /** SendControlPacketWithTTL for a close packet. */
  function SendControl(cfg: Config, c: Control, k: Kind, now: int, ttl: nat): Control {
    var isQueued := k !in c.queued;
    var base := ControlBaseRTO(cfg, c);
    var item := ControlItem(now, if isQueued then 0 else now - base, !isQueued, 0, base, true, ttl);
    var track := cfg.controlReliability && k !in c.tracked;
    Control(if track then c.tracked[k := item] else c.tracked,
            if track || !cfg.controlReliability then c.queued + {k} else c.queued,
            c.rtt, c.closeReads + Bit(k == CloseRead), c.closeWrites + Bit(k == CloseWrite),
            c.rsts + Bit(k == Rst), c.closedCalls)
  }

  predicate Sent(t: Term, k: Kind) {
    || (k == CloseRead && CloseReadSent in t.flags)
    || (k == CloseWrite && CloseWriteSent in t.flags)
    || (k == Rst && RstSent in t.flags)
  }

  function ClearDeferred(m: Machine): Machine {
    m.(t := m.t.(flags := m.t.flags - {DeferredClose}, deferredPacket := NoKind, deferredDeadline := 0))
  }

  predicate Awaits(t: Term, k: Kind) {
    WaitingAck in t.flags && t.waitingAckFor == k
  }

  predicate EmitBlocked(t: Term, k: Kind) {
    Awaits(t, k) || RstSent in t.flags || RstReceived in t.flags || Sent(t, k)
  }

  /** The flags and deadlines once packet `k` is about to leave and its acknowledgement is awaited. */
  function Emitting(cfg: Config, t: Term, k: Kind, raised: set<Flag>, state: StreamState, now: int): Term {
    t.(flags := t.flags + {StopLocalRead, WaitingAck} + raised - {DeferredClose}, state := state, reason := Requested,
       deferredPacket := NoKind, deferredDeadline := 0, waitingAckFor := k, ackWaitDeadline := now + cfg.ackWait)
  }

  function StateAfterSending(t: Term, otherwise: StreamState): StreamState {
    if CloseReadReceived in t.flags then Closing else otherwise
  }

  /** emitTerminalPacketWithTTL, with MarkCloseReadSent, MarkCloseWriteSent and MarkRstSent. */
  function Emit(cfg: Config, m: Machine, k: Kind, now: int, ttl: nat): Machine {
    if IsClosed in m.t.flags || IsVirtual in m.t.flags then m
    else if EmitBlocked(m.t, k) || k == NoKind then
      m.(t := m.t.(flags := m.t.flags + {StopLocalRead} - {DeferredClose}, reason := Requested,
                   deferredPacket := NoKind, deferredDeadline := 0))
    else if k == CloseRead then
      var t := Emitting(cfg, m.t, k, {CloseReadSent}, StateAfterSending(m.t, HalfClosedLocal), now);
      var n := TryFinalizeRemoteEOF(cfg, m.(t := t));
      n.(c := SendControl(cfg, n.c, k, now, ttl))
    else if k == CloseWrite then
      Machine(Emitting(cfg, m.t, k, {CloseWriteSent, LocalWriterBroken, LocalWriteClosed},
                       StateAfterSending(m.t, m.t.state), now),
              SendControl(cfg, m.c, k, now, ttl), m.empty + {Rcv})
    else
      Machine(Emitting(cfg, m.t, k, {RstSent}, Reset, now),
              SendControl(cfg, m.c.(tracked := map[]), k, now, ttl), m.empty + {Snd, Rcv})
  }

  // ---------------------------------------------------------------------
  // Close
  // ---------------------------------------------------------------------

  predicate AlreadyResetting(t: Term) {
    || RstSent in t.flags || RstReceived in t.flags || Awaits(t, Rst)
    || (DeferredClose in t.flags && t.deferredPacket == Rst)
  }

  function BeginReset(m: Machine): Machine {
    m.(t := m.t.(flags := m.t.flags - {DeferredClose}, reason := Requested, state := Reset,
                 deferredPacket := NoKind, deferredDeadline := 0))
  }

  /** Close with SendRST and without AfterDrain. */
  function CloseRst(cfg: Config, m: Machine, now: int, ttl: nat): Machine {
    if IsVirtual in m.t.flags || IsClosed in m.t.flags || AlreadyResetting(m.t) then m
    else Emit(cfg, BeginReset(m), Rst, now, ttl)
  }

  /** The close settleTerminalDrain issues: never after a drain, without a TTL. */
  function CloseNow(cfg: Config, m: Machine, k: Kind, now: int): Machine {
    if IsVirtual in m.t.flags then m
    else if k == NoKind then Finalize(m, Forced)
    else if k == Rst then CloseRst(cfg, m, now, 0)
    else Emit(cfg, m, k, now, 0)
  }

  /** settleTerminalDrain. */
  function Settle(cfg: Config, m: Machine, now: int): Machine {
    if IsClosed in m.t.flags || DeferredClose !in m.t.flags then m
    else if Snd in m.empty then CloseNow(cfg, ClearDeferred(m), m.t.deferredPacket, now)
    else if m.t.deferredDeadline != 0 && now > m.t.deferredDeadline then CloseNow(cfg, ClearDeferred(m), Rst, now)
    else m
  }

  function BeginDrain(cfg: Config, m: Machine, k: Kind, now: int): Machine {
    var deadline := now + cfg.drainTimeout;
    m.(t := m.t.(
         flags := m.t.flags + {StopLocalRead, DeferredClose},
         state := if m.t.state != Reset && m.t.state != Closed then Draining else m.t.state,
         deferredPacket := k,
         deferredDeadline := if m.t.deferredDeadline == 0 || deadline > m.t.deferredDeadline
                             then deadline else m.t.deferredDeadline))
  }

  /** deferTerminalPacket. */
  function Defer(cfg: Config, m: Machine, k: Kind, now: int): Machine {
    if IsClosed in m.t.flags || IsVirtual in m.t.flags then m
    else if Snd in m.empty then Settle(cfg, BeginDrain(cfg, m, k, now), now)
    else BeginDrain(cfg, m, k, now)
  }

  /** Close, the single close entry point. */
  function Close(cfg: Config, m: Machine, o: CloseOptions, now: int): Machine {
    if IsVirtual in m.t.flags && !o.force then m
    else if o.force || (!o.sendRST && !o.sendCloseRead && !o.sendCloseWrite) then ForceClose(m, Forced)
    else if o.sendCloseRead then
      if o.afterDrain then Defer(cfg, m, CloseRead, now) else Emit(cfg, m, CloseRead, now, o.ttl)
    else if o.sendCloseWrite then Emit(cfg, m, CloseWrite, now, o.ttl)
    else if IsClosed in m.t.flags || AlreadyResetting(m.t) || !o.afterDrain || Snd in m.empty
    then CloseRst(cfg, m, now, o.ttl)
    else Defer(cfg, BeginReset(m), Rst, now)
  }

  // ---------------------------------------------------------------------
  // Close packets and acknowledgements from the peer
  // ---------------------------------------------------------------------

  function MarkCloseReadReceived(cfg: Config, m: Machine): Machine {
    if IsVirtual in m.t.flags then m else
    TryFinalizeRemoteEOF(cfg,
      m.(t := m.t.(flags := m.t.flags + {CloseReadReceived},
                   state := if CloseReadSent in m.t.flags then Closing else HalfClosedRemote)))
  }

  /** The part of MarkCloseWriteReceived under the lock. */
  function PeerStoppedReading(m: Machine): Machine {
    m.(t := m.t.(flags := m.t.flags + {CloseWriteReceived, StopLocalRead}), empty := m.empty + {Snd})
  }

  function MarkCloseWriteReceived(cfg: Config, m: Machine, now: int): Machine {
    if IsVirtual in m.t.flags then m
    else TryFinalizeRemoteEOF(cfg, Settle(cfg, PeerStoppedReading(m), now))
  }

  function MarkRstReceived(m: Machine): Machine {
    if IsVirtual in m.t.flags then m
    else Machine(m.t.(flags := m.t.flags + {RstReceived}, state := Reset), m.c.(tracked := map[]), m.empty + {Snd, Rcv})
  }

  /** What both owners do when RST arrives: MarkRstReceived, then a forced close. */
  function ReceiveRst(m: Machine): Machine {
    ForceClose(MarkRstReceived(m), Forced)
  }

  function ClearWaitingAck(t: Term, k: Kind): Term {
    if Awaits(t, k) then t.(flags := t.flags - {WaitingAck}, waitingAckFor := NoKind, ackWaitDeadline := 0)
    else t
  }

  /** maybeInitiateClientCloseReadAfterWriterBreak. */
  function InitiateCloseRead(cfg: Config, m: Machine, now: int): Machine {
    var f := m.t.flags;
    if cfg.isClient && LocalWriterBroken in f && IsClosed !in f && RstSent !in f && RstReceived !in f
       && CloseReadSent !in f && CloseReadReceived !in f
    then Close(cfg, m, CloseOptions(false, false, false, true, Snd !in m.empty || LocalWritePending in f, 0), now)
    else m
  }

  function MarkCloseReadAcked(t: Term, now: int): Term {
    ClearWaitingAck(t.(flags := t.flags + {CloseReadAcked}, closeReadAckedAt := now,
                       state := if CloseReadReceived in t.flags then Closing else t.state), CloseRead)
  }

  function MarkCloseWriteAcked(t: Term): Term {
    ClearWaitingAck(t.(flags := t.flags + {CloseWriteAcked, LocalWriterBroken, LocalWriteClosed}), CloseWrite)
  }

  function MarkRstAcked(m: Machine): Machine {
    Machine(m.t.(flags := m.t.flags + {RstAcked}, state := Reset), m.c.(tracked := map[]), m.empty + {Snd, Rcv})
  }

  /** What an acknowledgement of close packet `k` does, tracked or awaited. */
  function CloseAcked(cfg: Config, m: Machine, k: Kind, now: int): Machine {
    match k
    case NoKind => m
    case CloseRead => TryFinalizeRemoteEOF(cfg, m.(t := MarkCloseReadAcked(m.t, now)))
    case CloseWrite => TryFinalizeRemoteEOF(cfg, InitiateCloseRead(cfg, m.(t := MarkCloseWriteAcked(m.t)), now))
    case Rst => Finalize(MarkRstAcked(m), ResetAcked)
  }

  /** Dropping a tracked packet whose acknowledgement arrived, and sampling its round trip. */
  function Untrack(cfg: Config, c: Control, k: Kind, now: int): Control {
    if k !in c.tracked then c
    else
      var item := c.tracked[k];
      var sampled := item.sampleEligible && item.dispatched && item.lastSentAt != 0;
      c.(tracked := c.tracked - {k},
         rtt := if sampled
           then UpdateAdaptiveRTO(c.rtt, now - item.lastSentAt, cfg.controlRto, cfg.controlMaxRto)
           else c.rtt)
  }

  /** ReceiveControlAck for the acknowledgement of close packet `k`. */
  function ReceiveControlAck(cfg: Config, m: Machine, k: Kind, now: int): Machine {
    var t := m.t.(lastActivity := now);
    if k == NoKind || (k !in m.c.tracked && m.t.waitingAckFor != k) then m.(t := t)
    else CloseAcked(cfg, m.(t := t, c := Untrack(cfg, m.c, k, now)), k, now)
  }

  // ---------------------------------------------------------------------
  // The terminal part of a retransmit tick
  // ---------------------------------------------------------------------

  /** The grace period after which a client that finished reading also closes its write side. */
  const CLOSE_WRITE_GRACE := 2_000_000_000

  predicate CloseWriteGraceOver(cfg: Config, t: Term, now: int) {
    var f := t.flags;
    && cfg.isClient
    && ((t.clientEOFAt != 0 && now - t.clientEOFAt >= CLOSE_WRITE_GRACE)
        || (t.closeReadAckedAt != 0 && now - t.closeReadAckedAt >= CLOSE_WRITE_GRACE))
    && IsClosed !in f && RstSent !in f && RstReceived !in f && CloseReadSent in f && CloseReadAcked in f
    && CloseWriteSent !in f && CloseWriteAcked !in f && CloseWriteReceived !in f
    && !Awaits(t, CloseWrite)
  }

  predicate HasPending(cfg: Config, m: Machine) {
    Snd !in m.empty || (cfg.controlReliability && |m.c.tracked| > 0)
  }

  predicate DrainDue(m: Machine, now: int) {
    Snd in m.empty || (m.t.deferredDeadline != 0 && now > m.t.deferredDeadline)
  }

  predicate AckOverdue(t: Term, now: int) {
    WaitingAck in t.flags && t.ackWaitDeadline != 0 && now > t.ackWaitDeadline
  }

  /** handleTerminalRetransmitState. */
  function TerminalTick(cfg: Config, m: Machine, now: int): Machine {
    if DeferredClose in m.t.flags then
      if DrainDue(m, now) then Settle(cfg, m, now) else m
    else if AckOverdue(m.t, now) then
      if m.t.waitingAckFor == Rst then Finalize(m, AckWaitTimeout)
      else if m.t.waitingAckFor == NoKind then m
      else CloseRst(cfg, m, now, 0)
    else if RstReceived in m.t.flags && IsClosed !in m.t.flags then ReceiveRst(m)
    else if CloseWriteGraceOver(cfg, m.t, now) then Close(cfg, m, SEND_CLOSE_WRITE, now)
    else if now - m.t.lastActivity > cfg.inactivityTimeout then
      if HasPending(cfg, m) then m.(t := m.t.(lastActivity := now)) else CloseRst(cfg, m, now, 0)
    else m
  }

  /** Whether handleTerminalRetransmitState ends the tick. */
  predicate TickEnds(cfg: Config, m: Machine, now: int) {
    if DeferredClose in m.t.flags then IsClosed in TerminalTick(cfg, m, now).t.flags
    else if AckOverdue(m.t, now) then m.t.waitingAckFor == Rst
    else if RstReceived in m.t.flags && IsClosed !in m.t.flags then true
    else !CloseWriteGraceOver(cfg, m.t, now)
         && now - m.t.lastActivity > cfg.inactivityTimeout && !HasPending(cfg, m)
  }

  predicate ControlExpired(cfg: Config, item: ControlItem, now: int) {
    if item.ttl > 0 then now - item.createdAt >= item.ttl
    else now - item.createdAt >= cfg.controlPacketTTL || item.retries >= cfg.controlMaxRetries
  }

  /** One tracked packet whose RTO ran out is queued again unless a copy still waits. */
  function ControlResend(cfg: Config, c: Control, k: Kind, now: int): Control
    requires k in c.tracked
  {
    var item := c.tracked[k];
    if item.dispatched && now - item.lastSentAt >= item.currentRTO && k !in c.queued then
      c.(queued := c.queued + {k},
         tracked := c.tracked[k := item.(
           lastSentAt := now, dispatched := false, retries := item.retries + 1, sampleEligible := false,
           currentRTO := Clamp(item.currentRTO * 5 / 4, ControlBaseRTO(cfg, c), cfg.controlMaxRto))])
    else c
  }

  /** checkControlRetransmits over the tracked packets in the order the map yields them. */
  function ControlScan(cfg: Config, m: Machine, now: int, order: seq<Kind>): Machine
    decreases |order|
  {
    if order == [] then m
    else if order[0] !in m.c.tracked then ControlScan(cfg, m, now, order[1..])
    else if ControlExpired(cfg, m.c.tracked[order[0]], now) then
      var m1 := m.(c := m.c.(tracked := m.c.tracked - {order[0]}));
      if order[0] == Rst then Finalize(m1, Expired) else CloseRst(cfg, m1, now, 0)
    else ControlScan(cfg, m.(c := ControlResend(cfg, m.c, order[0], now)), now, order[1..])
  }

  function ControlTick(cfg: Config, m: Machine, now: int, order: seq<Kind>): Machine {
    if cfg.controlReliability then ControlScan(cfg, m, now, order) else m
  }

  /** A copy of a close packet leaves the queue. */
  function PopControl(cfg: Config, c: Control, k: Kind, now: int): Control {
    var c1 := c.(queued := c.queued - {k});
    if cfg.controlReliability && k in c.tracked then
      c1.(tracked := c.tracked[k := c.tracked[k].(lastSentAt := now, dispatched := true)])
    else c1
  }
}
