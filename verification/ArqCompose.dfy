/** How changes made one after another to an endpoint add up to one move of its close machine. */
module ArqCompose {
  import opened ArqTerm
  import opened ArqState
  import opened ArqRuns

  /** A move of the machine never refills a buffer, leaves the inbound channel alone and never reopens. */
  predicate Shrinks(m: Machine, n: Machine) {
    && (Snd in m.empty ==> Snd in n.empty) && (Rcv in m.empty ==> Rcv in n.empty)
    && (Inbound in n.empty <==> Inbound in m.empty) && (IsClosed in m.t.flags ==> IsClosed in n.t.flags)
  }

  /** Two moves in a row are one. */
  lemma MovedTwice(e: Endpoint, m: Machine, n: Machine)
    requires Shrinks(MachineOf(e), m) && Shrinks(m, n)
    ensures Moved(Moved(e, m), n) == Moved(e, n)
  {
    EmptiesMembers(e.s, e.r);
  }

  /** After a move the machine is what it moved to. */
  lemma MovedMachine(e: Endpoint, m: Machine)
    requires Shrinks(MachineOf(e), m)
    ensures MachineOf(Moved(e, m)) == m
  {
    var f := Moved(e, m);
    EmptiesMembers(e.s, e.r);
    EmptiesMembers(f.s, f.r);
    SameBuffers(Empties(f.s, f.r), m.empty);
  }

  lemma SelfMove(e: Endpoint)
    ensures Moved(e, MachineOf(e)) == e
  {
    EmptiesMembers(e.s, e.r);
  }

  /** Changing flags or control packets first, and then moving, is moving. */
  lemma MovedAfter(e: Endpoint, t: Term, c: Control, n: Machine)
    requires IsClosed in t.flags <==> IsClosed in e.t.flags
    ensures Moved(e.(t := t, c := c), n) == Moved(e, n)
    ensures MachineOf(e.(t := t, c := c)) == MachineOf(e).(t := t, c := c)
  {
  }

  lemma FinalizeShrinks(m: Machine, why: Reason)
    ensures Shrinks(m, Finalize(m, why))
  {
  }

  lemma TryFinalizeShrinks(cfg: Config, m: Machine)
    ensures Shrinks(m, TryFinalizeRemoteEOF(cfg, m))
  {
    FinalizeShrinks(m, HandshakeDone);
    FinalizeShrinks(m, LocalDisconnectDone);
  }

  lemma EmitShrinks(cfg: Config, m: Machine, k: Kind, now: int, ttl: nat)
    ensures Shrinks(m, Emit(cfg, m, k, now, ttl))
  {
    var t := Emitting(cfg, m.t, k, {CloseReadSent}, StateAfterSending(m.t, HalfClosedLocal), now);
    TryFinalizeShrinks(cfg, m.(t := t));
  }

  lemma CloseRstShrinks(cfg: Config, m: Machine, now: int, ttl: nat)
    ensures Shrinks(m, CloseRst(cfg, m, now, ttl))
  {
    EmitShrinks(cfg, BeginReset(m), Rst, now, ttl);
  }

  lemma CloseNowShrinks(cfg: Config, m: Machine, k: Kind, now: int)
    ensures Shrinks(m, CloseNow(cfg, m, k, now))
  {
    FinalizeShrinks(m, Forced);
    CloseRstShrinks(cfg, m, now, 0);
    EmitShrinks(cfg, m, k, now, 0);
  }

  lemma SettleShrinks(cfg: Config, m: Machine, now: int)
    ensures Shrinks(m, Settle(cfg, m, now))
  {
    CloseNowShrinks(cfg, ClearDeferred(m), m.t.deferredPacket, now);
    CloseNowShrinks(cfg, ClearDeferred(m), Rst, now);
  }

  lemma DeferShrinks(cfg: Config, m: Machine, k: Kind, now: int)
    ensures Shrinks(m, Defer(cfg, m, k, now))
  {
    SettleShrinks(cfg, BeginDrain(cfg, m, k, now), now);
  }

  lemma CloseShrinks(cfg: Config, m: Machine, o: CloseOptions, now: int)
    ensures Shrinks(m, Close(cfg, m, o, now))
  {
    FinalizeShrinks(m.(t := m.t.(flags := m.t.flags - {IsVirtual})), Forced);
    DeferShrinks(cfg, m, CloseRead, now);
    EmitShrinks(cfg, m, CloseRead, now, o.ttl);
    EmitShrinks(cfg, m, CloseWrite, now, o.ttl);
    CloseRstShrinks(cfg, m, now, o.ttl);
    DeferShrinks(cfg, BeginReset(m), Rst, now);
  }

  /** The options with which a settled drain asks for its packet. */
  function OptionsFor(k: Kind): CloseOptions {
    CloseOptions(false, k == Rst, k == CloseWrite, k == CloseRead, false, 0)
  }

  lemma CloseNowIsClose(cfg: Config, m: Machine, k: Kind, now: int)
    ensures Close(cfg, m, OptionsFor(k), now) == CloseNow(cfg, m, k, now)
  {
    match k
    case NoKind =>
      if IsVirtual !in m.t.flags { assert m.t.flags - {IsVirtual} == m.t.flags; }
    case CloseRead =>
    case CloseWrite =>
    case Rst =>
  }

  lemma SendRstIsReset(cfg: Config, m: Machine, now: int)
    ensures Close(cfg, m, SEND_RST, now) == CloseRst(cfg, m, now, 0)
  {
  }

  /** A move, and then a move computed from where it led. */
  lemma ThenMove(e: Endpoint, m: Machine, n: Machine)
    requires Shrinks(MachineOf(e), m) && Shrinks(m, n)
    ensures MachineOf(Moved(e, m)) == m && Moved(Moved(e, m), n) == Moved(e, n)
  {
    MovedMachine(e, m);
    MovedTwice(e, m, n);
  }

  lemma PeerStoppedShrinks(m: Machine)
    ensures Shrinks(m, PeerStoppedReading(m))
  {
  }

  lemma MarkRstShrinks(m: Machine)
    ensures Shrinks(m, MarkRstReceived(m)) && Shrinks(m, MarkRstAcked(m))
  {
  }

  lemma ForceCloseShrinks(m: Machine, why: Reason)
    ensures Shrinks(m, ForceClose(m, why))
  {
    FinalizeShrinks(m.(t := m.t.(flags := m.t.flags - {IsVirtual})), why);
  }

  lemma InitiateShrinks(cfg: Config, m: Machine, now: int)
    ensures Shrinks(m, InitiateCloseRead(cfg, m, now))
  {
    var drain := Snd !in m.empty || LocalWritePending in m.t.flags;
    CloseShrinks(cfg, m, CloseOptions(false, false, false, true, drain, 0), now);
  }

  // ---------------------------------------------------------------------
  // The flags of an emission, set in two steps
  // ---------------------------------------------------------------------

  /** The flags and deadlines once an acknowledgement is awaited, before the packet's own flags. */
  function Awaiting(cfg: Config, t: Term, k: Kind, now: int): Term {
    Emitting(cfg, t, k, {}, t.state, now)
  }

  /** What is left to do for CLOSE_READ: the handshake may be complete, and the packet is sent in any case. */
  function FinalizedAndSent(cfg: Config, m: Machine, now: int, ttl: nat): Machine {
    var n := TryFinalizeRemoteEOF(cfg, m);
    n.(c := SendControl(cfg, n.c, CloseRead, now, ttl))
  }

  lemma EmitsCloseRead(cfg: Config, m: Machine, now: int, ttl: nat)
    requires IsClosed !in m.t.flags && IsVirtual !in m.t.flags && !EmitBlocked(m.t, CloseRead)
    ensures var t := Emitting(cfg, m.t, CloseRead, {CloseReadSent}, StateAfterSending(m.t, HalfClosedLocal), now);
            Emit(cfg, m, CloseRead, now, ttl) == FinalizedAndSent(cfg, m.(t := t), now, ttl)
  {
  }

  lemma EmittingReads(cfg: Config, t: Term, now: int)
    ensures var u := Awaiting(cfg, t, CloseRead, now);
            u.(flags := u.flags + {CloseReadSent}, state := StateAfterSending(u, HalfClosedLocal))
            == Emitting(cfg, t, CloseRead, {CloseReadSent}, StateAfterSending(t, HalfClosedLocal), now)
  {
  }

  lemma EmittingWrites(cfg: Config, t: Term, now: int)
    ensures var u, raised := Awaiting(cfg, t, CloseWrite, now), {CloseWriteSent, LocalWriterBroken, LocalWriteClosed};
            u.(flags := u.flags + raised, state := StateAfterSending(u, u.state))
            == Emitting(cfg, t, CloseWrite, raised, StateAfterSending(t, t.state), now)
  {
  }

  lemma EmittingResets(cfg: Config, t: Term, now: int)
    ensures var u := Awaiting(cfg, t, Rst, now);
            u.(flags := u.flags + {RstSent}, state := Reset) == Emitting(cfg, t, Rst, {RstSent}, Reset, now)
  {
  }

  // ---------------------------------------------------------------------
  // Parts of Close and of the terminal tick
  // ---------------------------------------------------------------------

  function ClosedWithRst(cfg: Config, m: Machine, afterDrain: bool, ttl: nat, now: int): Machine {
    if IsClosed in m.t.flags || AlreadyResetting(m.t) || !afterDrain || Snd in m.empty then CloseRst(cfg, m, now, ttl)
    else Defer(cfg, BeginReset(m), Rst, now)
  }

  function IdleTick(cfg: Config, m: Machine, now: int): Machine {
    if CloseWriteGraceOver(cfg, m.t, now) then Close(cfg, m, SEND_CLOSE_WRITE, now)
    else if now - m.t.lastActivity > cfg.inactivityTimeout then
      if HasPending(cfg, m) then m.(t := m.t.(lastActivity := now)) else CloseRst(cfg, m, now, 0)
    else m
  }
}
