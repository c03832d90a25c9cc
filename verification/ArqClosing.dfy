/**
 * Whole runs of one endpoint: close packets originate at most once, nothing originates after a reset, and
 * every pending close finishes within three overdue ticks.
 */
module ArqClosing {
  import opened ArqTerm
  import opened ArqTermProofs
  import opened ArqState
  import opened ArqRuns

  // ---------------------------------------------------------------------
  // Runs
  // ---------------------------------------------------------------------

  datatype Happening = Happening(ev: Event, now: int)

  /** A run: each event can occur in the state the ones before it lead to, and the clock is past the zero instant. */
  ghost predicate Runs(e: Endpoint, trace: seq<Happening>)
    decreases |trace|
  {
    trace == [] ||
    (trace[0].now > 0 && Enabled(e, trace[0].ev) && Runs(Step(e, trace[0].ev, trace[0].now), trace[1..]))
  }

  ghost function After(e: Endpoint, trace: seq<Happening>): Endpoint
    requires Runs(e, trace)
    decreases |trace|
  {
    if trace == [] then e else After(Step(e, trace[0].ev, trace[0].now), trace[1..])
  }

  lemma {:induction false} RunKeeps(e: Endpoint, trace: seq<Happening>)
    requires Good(e) && Runs(e, trace)
    ensures Good(After(e, trace)) && Onward(e, After(e, trace))
    decreases |trace|
  {
    if trace != [] {
      var e1 := Step(e, trace[0].ev, trace[0].now);
      StepKeeps(e, trace[0].ev, trace[0].now);
      RunKeeps(e1, trace[1..]);
      OnwardTransitive(e, e1, After(e1, trace[1..]));
    }
  }

  lemma InitialIsGood(cfg: Config, isVirtual: bool, now: int)
    requires ValidConfig(cfg)
    ensures Good(Initial(cfg, isVirtual, now))
  {
  }

  /**
   * In every run, CLOSE_READ, CLOSE_WRITE and RST are each handed to the control plane at most once, and the
   * owner is told at most once that the stream closed. Once CLOSE_READ was sent nothing is unacknowledged and
   * nothing more is read.
   */
  lemma EachCloseOnce(cfg: Config, isVirtual: bool, start: int, trace: seq<Happening>)
    requires ValidConfig(cfg) && Runs(Initial(cfg, isVirtual, start), trace)
    ensures var e := After(Initial(cfg, isVirtual, start), trace);
            && e.c.closeReads <= 1 && e.c.closeWrites <= 1 && e.c.rsts <= 1
            && (e.c.closedCalls == 1 <==> IsClosed in e.t.flags) && e.c.closedCalls <= 1
            && (e.c.closeReads == 1 ==> e.s.buf == map[] && StopLocalRead in e.t.flags)
  {
    var e0 := Initial(cfg, isVirtual, start);
    InitialIsGood(cfg, isVirtual, start);
    RunKeeps(e0, trace);
    EmptiesMembers(After(e0, trace).s, After(e0, trace).r);
  }

  lemma {:induction false} RunSplits(e: Endpoint, first: seq<Happening>, rest: seq<Happening>)
    requires Runs(e, first + rest)
    ensures Runs(e, first) && Runs(After(e, first), rest) && After(e, first + rest) == After(After(e, first), rest)
    decreases |first|
  {
    if first == [] {
      assert first + rest == rest;
    } else {
      assert (first + rest)[1..] == first[1..] + rest;
      RunSplits(Step(e, first[0].ev, first[0].now), first[1..], rest);
    }
  }

  /** After a reset was sent or received, or the stream closed, no close packet originates, and closed stays closed. */
  lemma NothingAfterReset(cfg: Config, isVirtual: bool, start: int, first: seq<Happening>, rest: seq<Happening>)
    requires ValidConfig(cfg) && Runs(Initial(cfg, isVirtual, start), first + rest)
    ensures Runs(Initial(cfg, isVirtual, start), first)
    ensures var e := After(Initial(cfg, isVirtual, start), first);
            var f := After(Initial(cfg, isVirtual, start), first + rest);
            && (RstSent in e.t.flags || RstReceived in e.t.flags || IsClosed in e.t.flags ==> SameOrigins(e.c, f.c))
            && (IsClosed in e.t.flags ==> IsClosed in f.t.flags && f.t.reason == e.t.reason
                                          && f.c.closedCalls == e.c.closedCalls)
  {
    var e0 := Initial(cfg, isVirtual, start);
    InitialIsGood(cfg, isVirtual, start);
    RunSplits(e0, first, rest);
    RunKeeps(e0, first);
    RunKeeps(After(e0, first), rest);
  }

  // ---------------------------------------------------------------------
  // Progress
  // ---------------------------------------------------------------------

  /** How far a close has got; 4 when none is pending. */
  function Phase(t: Term): nat {
    if IsClosed in t.flags then 0
    else if DeferredClose in t.flags then 3
    else if Awaits(t, Rst) then 1
    else if WaitingAck in t.flags then 2
    else 4
  }

  /** The deadline the pending close is waiting for has passed. */
  predicate Overdue(t: Term, now: int) {
    if DeferredClose in t.flags then now > t.deferredDeadline else now > t.ackWaitDeadline
  }

  lemma CloseRstLowers(cfg: Config, m: Machine, now: int, ttl: nat)
    requires Wf(m) && IsVirtual !in m.t.flags && Phase(m.t) <= 2
    ensures Phase(CloseRst(cfg, m, now, ttl).t) <= Phase(m.t)
    ensures Phase(m.t) == 2 ==> Phase(CloseRst(cfg, m, now, ttl).t) == 1
    ensures IsVirtual !in CloseRst(cfg, m, now, ttl).t.flags
  {
  }

  lemma FinalizeEnds(m: Machine, why: Reason)
    requires IsVirtual !in m.t.flags
    ensures Phase(Finalize(m, why).t) == 0 && IsVirtual !in Finalize(m, why).t.flags
  {
  }

  /** A drain that settles leaves a packet awaiting its acknowledgement, or a closed stream. */
  lemma SettleLowers(cfg: Config, m: Machine, now: int)
    requires Wf(m) && now > 0 && cfg.ackWait > 0
    requires IsVirtual !in m.t.flags && DeferredClose in m.t.flags && now > m.t.deferredDeadline
    ensures Phase(Settle(cfg, m, now).t) <= 2 && IsVirtual !in Settle(cfg, m, now).t.flags
  {
    assert Settle(cfg, m, now) == CloseRst(cfg, ClearDeferred(m), now, 0);
  }

  lemma TerminalTickLowers(cfg: Config, m: Machine, now: int)
    requires Wf(m) && Timed(cfg, now)
    requires IsVirtual !in m.t.flags && 0 < Phase(m.t) <= 3 && Overdue(m.t, now)
    ensures Phase(TerminalTick(cfg, m, now).t) < Phase(m.t) && IsVirtual !in TerminalTick(cfg, m, now).t.flags
  {
    if DeferredClose in m.t.flags {
      SettleLowers(cfg, m, now);
    } else {
      FinalizeEnds(m, AckWaitTimeout);
      CloseRstLowers(cfg, m, now, 0);
    }
  }

  lemma {:induction false} ControlScanLowers(cfg: Config, m: Machine, now: int, order: seq<Kind>)
    requires Wf(m) && Timed(cfg, now) && IsVirtual !in m.t.flags && Phase(m.t) <= 2
    ensures Phase(ControlScan(cfg, m, now, order).t) <= Phase(m.t)
    ensures IsVirtual !in ControlScan(cfg, m, now, order).t.flags
    decreases |order|
  {
    if order == [] {
    } else if order[0] !in m.c.tracked {
      ControlScanLowers(cfg, m, now, order[1..]);
    } else if ControlExpired(cfg, m.c.tracked[order[0]], now) {
      var m1 := m.(c := m.c.(tracked := m.c.tracked - {order[0]}));
      ControlOnly(m, m.t, m1.c);
      FinalizeEnds(m1, Expired);
      CloseRstLowers(cfg, m1, now, 0);
    } else {
      var m1 := m.(c := ControlResend(cfg, m.c, order[0], now));
      ControlOnly(m, m.t, m1.c);
      ControlScanLowers(cfg, m1, now, order[1..]);
    }
  }

  lemma ScanTickLowers(e: Endpoint, now: int, order: seq<Kind>)
    requires Good(e) && now > 0 && IsVirtual !in e.t.flags && Phase(e.t) <= 2
    ensures Phase(ScanTick(e, now, order).t) <= Phase(e.t) && IsVirtual !in ScanTick(e, now, order).t.flags
  {
    if !Skips(e.s, now) && GivesUp(e.cfg, e.s, now) {
      CloseRstLowers(e.cfg, MachineOf(e), now, 0);
    } else {
      var e1 := if Skips(e.s, now) then e else e.(s := Scanned(e.cfg, e.s, now));
      assert e1.s.buf.Keys == e.s.buf.Keys;
      PlainStepKeeps(e, e1);
      ControlScanLowers(e.cfg, MachineOf(e1), now, order);
    }
  }

  /** Each tick past the current deadline brings a pending close one phase closer to closed. */
  lemma OverdueTickAdvances(e: Endpoint, now: int, order: seq<Kind>)
    requires Good(e) && now > 0 && IsVirtual !in e.t.flags
    requires 0 < Phase(e.t) <= 3 && Overdue(e.t, now)
    ensures Phase(Tick(e, now, order).t) < Phase(e.t) && IsVirtual !in Tick(e, now, order).t.flags
  {
    var m := MachineOf(e);
    var e1 := Moved(e, TerminalTick(e.cfg, m, now));
    TerminalTickLowers(e.cfg, m, now);
    TerminalTickKeeps(e.cfg, m, now);
    MovedStep(e, e, TerminalTick(e.cfg, m, now));
    ScanTickLowers(e1, now, order);
  }

  /** Ticks that each find the deadline of the close still pending, if any, in the past. */
  ghost predicate OverdueTicks(e: Endpoint, times: seq<int>, orders: seq<seq<Kind>>)
    requires |times| == |orders|
    decreases |times|
  {
    times == [] ||
    (times[0] > 0 && (Phase(e.t) in {1, 2, 3} ==> Overdue(e.t, times[0]))
     && OverdueTicks(Tick(e, times[0], orders[0]), times[1..], orders[1..]))
  }

  ghost function Ticks(e: Endpoint, times: seq<int>, orders: seq<seq<Kind>>): Endpoint
    requires |times| == |orders|
    decreases |times|
  {
    if times == [] then e else Ticks(Tick(e, times[0], orders[0]), times[1..], orders[1..])
  }

  /** Without any help from the peer a pending close finishes: a tick per phase, each past its deadline, is enough. */
  lemma {:induction false} PendingCloseFinishes(e: Endpoint, times: seq<int>, orders: seq<seq<Kind>>)
    requires Good(e) && IsVirtual !in e.t.flags && Phase(e.t) <= 3
    requires |times| == |orders| && OverdueTicks(e, times, orders) && Phase(e.t) <= |times|
    ensures IsClosed in Ticks(e, times, orders).t.flags
    decreases |times|
  {
    if times != [] {
      var e1 := Tick(e, times[0], orders[0]);
      TickKeeps(e, times[0], orders[0]);
      if 0 < Phase(e.t) {
        OverdueTickAdvances(e, times[0], orders[0]);
      }
      PendingCloseFinishes(e1, times[1..], orders[1..]);
    }
  }

  /**
   * A request to close after draining leaves a close pending or finished, except exactly when CLOSE_READ was
   * already sent and acknowledged and nothing else is awaited: then it changes nothing that will end the stream.
   */
  lemma CloseReadRequestArms(cfg: Config, m: Machine, now: int)
    requires Wf(m) && Timed(cfg, now) && IsVirtual !in m.t.flags
    ensures Phase(Close(cfg, m, DRAIN_THEN_CLOSE_READ, now).t) == 4
            <==> IsClosed !in m.t.flags && CloseReadSent in m.t.flags && WaitingAck !in m.t.flags
  {
    if IsClosed !in m.t.flags && Snd in m.empty {
      var m1 := ClearDeferred(BeginDrain(cfg, m, CloseRead, now));
      assert Close(cfg, m, DRAIN_THEN_CLOSE_READ, now) == Emit(cfg, m1, CloseRead, now, 0);
      if CloseReadSent !in m.t.flags {
        BeginDrainKeeps(cfg, m, CloseRead, now);
        ClearDeferredKeeps(BeginDrain(cfg, m, CloseRead, now));
        EmitCloseReadStaysOpen(cfg, m1, now);
      }
    }
  }
}
