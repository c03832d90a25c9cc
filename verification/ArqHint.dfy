/**
 * The one thing a skipped retransmit scan can miss does happen: a run, for every configuration, that leads to a
 * tick which skips its scan although a chunk has used up its retries.
 */
module ArqHint {
  import opened SeqNum
  import opened Extrema
  import opened ArqTerm
  import opened ArqState
  import opened ArqRuns
  import opened ArqCompose
  import opened ArqClosing
  import opened ArqSender
  import opened ArqSenderRuns

  /** The clock never runs backwards. */
  predicate Clocked(start: int, trace: seq<Happening>)
    decreases |trace|
  {
    trace == [] || (start <= trace[0].now && Clocked(trace[0].now, trace[1..]))
  }

  function EndOf(start: int, trace: seq<Happening>): int {
    if trace == [] then start else trace[|trace| - 1].now
  }

  /** A clocked run in which no number is read again while it is unacknowledged leads from `e` to `f`. */
  ghost predicate Leads(e: Endpoint, start: int, trace: seq<Happening>, f: Endpoint, end: int) {
    Runs(e, trace) && Spaced(e, trace) && Clocked(start, trace) && EndOf(start, trace) == end && After(e, trace) == f
  }

  lemma LeadsNowhere(e: Endpoint, start: int)
    ensures Leads(e, start, [], e, start)
  {
  }

  /** The event takes the step from `e` to `f`. */
  ghost predicate Goes(e: Endpoint, h: Happening, f: Endpoint) {
    Enabled(e, h.ev) && 0 < h.now && (h.ev.EvRead? ==> e.s.nxt !in e.s.buf) && f == Step(e, h.ev, h.now)
  }

  lemma LeadsOn(e: Endpoint, start: int, h: Happening, g: Endpoint, trace: seq<Happening>, f: Endpoint, end: int)
    requires Goes(e, h, g) && start <= h.now && Leads(g, h.now, trace, f, end)
    ensures Leads(e, start, [h] + trace, f, end)
  {
    assert ([h] + trace)[1..] == trace;
  }

  lemma GoesByTick(e: Endpoint, now: int)
    requires now > 0
    ensures Goes(e, Happening(EvTick([]), now), Tick(e, now, []))
  {
    StepIsTick(e, [], now);
  }

  lemma StepIsTick(e: Endpoint, order: seq<Kind>, now: int)
    ensures Enabled(e, EvTick(order)) && Step(e, EvTick(order), now) == Tick(e, now, order)
  {
  }

  lemma GoesByPop(e: Endpoint, key: TxKey, now: int)
    requires now > 0 && key in e.s.queue
    ensures Goes(e, Happening(EvPop(key), now), e.(s := Pop(e.s, key, now)))
  {
  }

  lemma GoesByRead(e: Endpoint, data: Chunk, now: int)
    requires now > 0 && CanRead(e) && e.s.nxt !in e.s.buf
    ensures Goes(e, Happening(EvRead(data), now), Read(e, data, now))
  {
  }

  // ---------------------------------------------------------------------
  // One chunk, retransmitted again and again
  // ---------------------------------------------------------------------

  /** An open stream no close was asked of. */
  predicate Plain(e: Endpoint, cfg: Config) {
    && ValidConfig(cfg) && e.cfg == cfg && e.t.flags == {} && e.t.clientEOFAt == 0 && e.t.closeReadAckedAt == 0
    && e.c.tracked == map[] && e.s.rtt.currentBase == cfg.rto
  }

  /** The chunk was created at `created`, retransmitted `retries` times and last sent at `sent`. */
  predicate Outstanding(cfg: Config, item: Item, created: int, retries: nat, sent: int) {
    && item.createdAt == created && item.retries == retries && item.ttl == 0
    && item.dispatched && item.lastSentAt == sent && cfg.rto <= item.currentRTO <= cfg.maxRTO
  }

  /** It is the only one, and no copy of it is queued. */
  predicate Alone(e: Endpoint, cfg: Config, created: int, retries: nat, sent: int) {
    && Plain(e, cfg) && e.s.nxt == 1 && e.s.buf.Keys == {0} && e.s.queue == map[] && e.s.minRetransmitAt == 0
    && Outstanding(cfg, e.s.buf[0], created, retries, sent)
  }

  /** A tick of a stream with unacknowledged chunks whose hint is unset and that gives none of them up is a scan. */
  lemma TickScans(e: Endpoint, cfg: Config, now: int)
    requires Plain(e, cfg) && e.s.buf != map[] && e.s.minRetransmitAt == 0 && !GivesUp(cfg, e.s, now)
    ensures var f := Tick(e, now, []);
            f == e.(s := Scanned(cfg, e.s, now), t := f.t) && (f.t == e.t || f.t == Active(e.t, now))
  {
    EmptiesMembers(e.s, e.r);
    var m := TerminalTick(cfg, MachineOf(e), now);
    assert m == MachineOf(e) || m == MachineOf(e).(t := Active(e.t, now));
    var e1 := e.(t := m.t);
    MovedAfter(e, m.t, e.c, MachineOf(e1));
    SelfMove(e1);
    assert Moved(e, m) == e1;
    var e2 := e1.(s := Scanned(cfg, e.s, now));
    SelfMove(e2);
  }

  /** The lone chunk is due: it takes the priority lane and no deadline is left. */
  lemma LoneScan(e: Endpoint, cfg: Config, created: int, retries: nat, sent: int, now: int)
    requires Alone(e, cfg, created, retries, sent) && now >= sent + cfg.maxRTO
    ensures var s := Scanned(cfg, e.s, now);
            && s.buf == map[0 := Resent(e.s.buf[0], cfg.rto, cfg.maxRTO, now)]
            && s.queue == map[TxKey(Resend, 0) := e.s.buf[0].data] && s.minRetransmitAt == 0
  {
    var s := e.s;
    assert Due(s.buf, now) == {0};
    assert Farther({0}, s.nxt, 0) == {};
    assert LaneOf(cfg.window, {0}, s.nxt, 0) == Resend;
    assert QueuedNow(cfg.window, s, {0}, 0);
    assert ResentBuf(cfg, s, now) == map[0 := Resent(s.buf[0], cfg.rto, cfg.maxRTO, now)];
    LoneQueue(cfg.window, s);
    assert Deadlines(ResentBuf(cfg, s, now)) == {};
  }

  lemma LoneQueue(window: int, s: Sender)
    requires s.buf.Keys == {0} && s.queue == map[] && LaneOf(window, {0}, s.nxt, 0) == Resend
    ensures ResentQueue(window, s, {0}) == map[TxKey(Resend, 0) := s.buf[0].data]
  {
    var q := ResentQueue(window, s, {0});
    forall key ensures key in q <==> key == TxKey(Resend, 0) {
      assert key == TxKey(key.lane, key.sn);
    }
  }

  lemma PoppedAlone(e: Endpoint, cfg: Config, created: int, retries: nat, now: int)
    requires Plain(e, cfg) && e.s.nxt == 1 && e.s.buf.Keys == {0}
    requires e.s.queue.Keys == {TxKey(Resend, 0)} || e.s.queue.Keys == {TxKey(Fresh, 0)}
    requires e.s.buf[0].createdAt == created && e.s.buf[0].retries == retries && e.s.buf[0].ttl == 0
    requires cfg.rto <= e.s.buf[0].currentRTO <= cfg.maxRTO
    ensures forall key :: key in e.s.queue ==> Alone(e.(s := Pop(e.s, key, now)), cfg, created, retries, now)
  {
    forall key | key in e.s.queue ensures Alone(e.(s := Pop(e.s, key, now)), cfg, created, retries, now) {
      var s := Pop(e.s, key, now);
      assert s.queue == map[];
      assert s.buf.Keys == {0};
    }
  }

  /** One more retransmission: a tick queues the copy, and it leaves the queue. */
  lemma OneMore(e: Endpoint, cfg: Config, created: int, retries: nat, sent: int, t: int)
    requires Alone(e, cfg, created, retries, sent) && t == sent + cfg.maxRTO && retries < cfg.maxDataRetries
    ensures var e1 := Tick(e, t, []);
            TxKey(Resend, 0) in e1.s.queue
            && Alone(e1.(s := Pop(e1.s, TxKey(Resend, 0), t)), cfg, created, retries + 1, t)
  {
    assert 0 in e.s.buf && !GivesUp(cfg, e.s, t);
    TickScans(e, cfg, t);
    LoneScan(e, cfg, created, retries, sent, t);
    PoppedAlone(Tick(e, t, []), cfg, created, retries + 1, t);
  }

  /** A tick, and a copy leaving the queue at the same instant. */
  lemma TickAndPop(e: Endpoint, start: int, t: int, key: TxKey, rest: seq<Happening>, f: Endpoint, end: int)
    requires start <= t && 0 < t && key in Tick(e, t, []).s.queue
    requires Leads(Tick(e, t, []).(s := Pop(Tick(e, t, []).s, key, t)), t, rest, f, end)
    ensures Leads(e, start, [Happening(EvTick([]), t)] + ([Happening(EvPop(key), t)] + rest), f, end)
  {
    var e1 := Tick(e, t, []);
    GoesByTick(e, t);
    GoesByPop(e1, key, t);
    LeadsOn(e1, t, Happening(EvPop(key), t), e1.(s := Pop(e1.s, key, t)), rest, f, end);
    LeadsOn(e, start, Happening(EvTick([]), t), e1, [Happening(EvPop(key), t)] + rest, f, end);
  }

  // ---------------------------------------------------------------------
  // The run
  // ---------------------------------------------------------------------

  /** The first chunk, read and sent. */
  lemma Begin(cfg: Config, data: Chunk, start: int)
    requires ValidConfig(cfg)
    ensures var e := Initial(cfg, false, start); var e1 := Read(e, data, start);
            && CanRead(e) && e.s.nxt !in e.s.buf && TxKey(Fresh, 0) in e1.s.queue
            && Alone(e1.(s := Pop(e1.s, TxKey(Fresh, 0), start)), cfg, start, 0, start)
  {
    var e1 := Read(Initial(cfg, false, start), data, start);
    assert e1.s.buf.Keys == {0} && e1.s.queue.Keys == {TxKey(Fresh, 0)};
    PoppedAlone(e1, cfg, start, 0, start);
  }

  /** A second chunk, read and sent the instant the first is due once more. */
  predicate Joined(e: Endpoint, cfg: Config, created: int, retries: nat, sent: int, now: int) {
    && Plain(e, cfg) && e.s.buf.Keys == {0, 1} && e.s.queue == map[] && e.s.minRetransmitAt == 0
    && Outstanding(cfg, e.s.buf[0], created, retries, sent) && Outstanding(cfg, e.s.buf[1], now, 0, now)
    && e.s.buf[1].currentRTO == cfg.rto
  }

  lemma Second(e: Endpoint, cfg: Config, created: int, retries: nat, sent: int, data: Chunk, now: int)
    requires Alone(e, cfg, created, retries, sent)
    ensures var e1 := Read(e, data, now);
            && CanRead(e) && e.s.nxt !in e.s.buf && TxKey(Fresh, 1) in e1.s.queue
            && Joined(e1.(s := Pop(e1.s, TxKey(Fresh, 1), now)), cfg, created, retries, sent, now)
  {
    assert |e.s.buf| == |e.s.buf.Keys| == 1;
    var e1 := Read(e, data, now);
    assert e1.s.queue == map[TxKey(Fresh, 1) := data];
    assert Pop(e1.s, TxKey(Fresh, 1), now).queue == map[];
    assert Pop(e1.s, TxKey(Fresh, 1), now).buf.Keys == {0, 1};
  }

  /** The scan that spends the last retry of the first chunk leaves only the deadline of the second. */
  lemma LastRetry(e: Endpoint, cfg: Config, created: int, retries: nat, sent: int, now: int)
    requires Joined(e, cfg, created, retries, sent, now) && now >= sent + cfg.maxRTO
    ensures var s := Scanned(cfg, e.s, now);
            && s.buf.Keys == {0, 1} && s.minRetransmitAt == now + cfg.rto
            && s.buf[0].createdAt == created && s.buf[0].ttl == 0 && s.buf[0].retries == retries + 1
            && s.buf[1] == e.s.buf[1] && !InQueue(s.queue, 1)
  {
    var s, buf := e.s, ResentBuf(cfg, e.s, now);
    assert Due(s.buf, now) == {0};
    assert QueuedNow(cfg.window, s, {0}, 0);
    assert buf[0] == Resent(s.buf[0], DataBaseRTO(cfg, s), cfg.maxRTO, now) && buf[1] == s.buf[1];
    assert now + cfg.rto in Deadlines(buf);
    assert forall at :: at in Deadlines(buf) ==> at == now + cfg.rto;
    ScannedInQueue(cfg.window, s, {0}, 1);
  }

  /** All ticks of a whole base timeout skip their scan although the first chunk has used up its retries. */
  ghost predicate Missed(cfg: Config, s: Sender, now: int) {
    forall at :: now <= at < now + cfg.rto ==> Skips(s, at) && AnyRetryExceeded(cfg, s.buf, at)
  }

  /** The second chunk was just sent, and no copy of it is queued. */
  predicate JustSent(cfg: Config, s: Sender, now: int) {
    && s.buf.Keys == {0, 1} && !InQueue(s.queue, 1)
    && s.buf[1].dispatched && s.buf[1].lastSentAt == now && s.buf[1].currentRTO == cfg.rto
  }

  lemma EndsMissed(e: Endpoint, cfg: Config, created: int, retries: nat, sent: int, now: int)
    requires Joined(e, cfg, created, retries, sent, now) && retries + 1 == cfg.maxDataRetries
    requires now > 0 && now >= sent + cfg.maxRTO && now >= created + cfg.dataPacketTTL
    ensures Missed(cfg, Tick(e, now, []).s, now) && JustSent(cfg, Tick(e, now, []).s, now)
    ensures Plain(Tick(e, now, []), cfg)
  {
    assert 0 in e.s.buf && !GivesUp(cfg, e.s, now);
    TickScans(e, cfg, now);
    LastRetry(e, cfg, created, retries, sent, now);
    var s := Tick(e, now, []).s;
    assert 0 in s.buf;
    forall at | now <= at < now + cfg.rto ensures Skips(s, at) && AnyRetryExceeded(cfg, s.buf, at) {
      assert RetryExceeded(cfg, s.buf[0], at);
    }
  }

  lemma ReadAndPop(e: Endpoint, start: int, data: Chunk, t: int, rest: seq<Happening>, f: Endpoint, end: int)
    requires start <= t && 0 < t && CanRead(e) && e.s.nxt !in e.s.buf
    requires TxKey(Fresh, e.s.nxt) in Read(e, data, t).s.queue
    requires Leads(Read(e, data, t).(s := Pop(Read(e, data, t).s, TxKey(Fresh, e.s.nxt), t)), t, rest, f, end)
    ensures Leads(e, start, [Happening(EvRead(data), t)] + ([Happening(EvPop(TxKey(Fresh, e.s.nxt)), t)] + rest),
                  f, end)
  {
    var e1, key := Read(e, data, t), TxKey(Fresh, e.s.nxt);
    GoesByRead(e, data, t);
    GoesByPop(e1, key, t);
    LeadsOn(e1, t, Happening(EvPop(key), t), e1.(s := Pop(e1.s, key, t)), rest, f, end);
    LeadsOn(e, start, Happening(EvRead(data), t), e1, [Happening(EvPop(key), t)] + rest, f, end);
  }

  lemma LeadsByTick(e: Endpoint, t: int)
    requires 0 < t
    ensures Leads(e, t, [Happening(EvTick([]), t)], Tick(e, t, []), t)
  {
    GoesByTick(e, t);
    LeadsNowhere(Tick(e, t, []), t);
    LeadsOn(e, t, Happening(EvTick([]), t), Tick(e, t, []), [], Tick(e, t, []), t);
    assert [Happening(EvTick([]), t)] + [] == [Happening(EvTick([]), t)];
  }

  // ---------------------------------------------------------------------
  // A reset that waits for a drain
  // ---------------------------------------------------------------------

  const DRAIN_THEN_RST := CloseOptions(false, true, false, false, true, 0)

  lemma GoesByReset(e: Endpoint, now: int)
    requires now > 0
    ensures Goes(e, Happening(EvClose(DRAIN_THEN_RST), now), CloseWith(e, DRAIN_THEN_RST, now))
  {
  }

  /** As long as the drain lasts: the second chunk is due, nothing of it is queued, and yet every tick is stalled. */
  ghost predicate StallsOn(e: Endpoint, now: int) {
    && e.s.buf.Keys == {0, 1} && !InQueue(e.s.queue, 1)
    && forall at :: now <= at <= now + e.cfg.drainTimeout ==> RtoDue(e.s.buf[1], at) && Stalled(e, at)
  }

  lemma ResetStalls(e: Endpoint, cfg: Config, sent: int)
    requires Plain(e, cfg) && JustSent(cfg, e.s, sent) && Missed(cfg, e.s, sent)
    ensures StallsOn(CloseWith(e, DRAIN_THEN_RST, sent + cfg.rto), sent + cfg.rto)
  {
    var now := sent + cfg.rto;
    EmptiesMembers(e.s, e.r);
    assert 0 in e.s.buf;
    assert Close(cfg, MachineOf(e), DRAIN_THEN_RST, now) == BeginDrain(cfg, BeginReset(MachineOf(e)), Rst, now);
    var f := CloseWith(e, DRAIN_THEN_RST, now);
    StaysMissed(cfg, e.s, sent);
    assert f.s == e.s;
  }

  /** What has used up its retries and lifetime stays so. */
  lemma StaysMissed(cfg: Config, s: Sender, now: int)
    requires cfg.rto > 0 && Missed(cfg, s, now)
    ensures forall at :: now <= at ==> GivesUp(cfg, s, at)
  {
    assert AnyRetryExceeded(cfg, s.buf, now);
    var sn :| sn in s.buf && RetryExceeded(cfg, s.buf[sn], now);
    forall at | now <= at ensures GivesUp(cfg, s, at) {
      assert RetryExceeded(cfg, s.buf[sn], at);
    }
  }

  // ---------------------------------------------------------------------
  // The runs
  // ---------------------------------------------------------------------

  /** The end of a run: the scan that misses, and a reset after it if one is asked for. */
  ghost predicate AtEnd(e: Endpoint, cfg: Config, now: int, reset: bool) {
    if reset then StallsOn(e, now) else Plain(e, cfg) && Missed(cfg, e.s, now)
  }

  lemma LeadsToEnd(f: Endpoint, cfg: Config, at: int, reset: bool)
    returns (trace: seq<Happening>, e: Endpoint, now: int)
    requires at > 0 && Missed(cfg, Tick(f, at, []).s, at) && JustSent(cfg, Tick(f, at, []).s, at)
    requires Plain(Tick(f, at, []), cfg)
    ensures Leads(f, at, trace, e, now) && AtEnd(e, cfg, now, reset)
  {
    if reset {
      trace, e, now := LeadsToStall(f, cfg, at);
    } else {
      LeadsByTick(f, at);
      e, now, trace := Tick(f, at, []), at, [Happening(EvTick([]), at)];
    }
  }

  lemma LeadsToStall(f: Endpoint, cfg: Config, at: int)
    returns (trace: seq<Happening>, e: Endpoint, now: int)
    requires at > 0 && Missed(cfg, Tick(f, at, []).s, at) && JustSent(cfg, Tick(f, at, []).s, at)
    requires Plain(Tick(f, at, []), cfg)
    ensures Leads(f, at, trace, e, now) && StallsOn(e, now)
  {
    now := at + cfg.rto;
    trace := TickThenReset(f, at, now);
    ResetStalls(Tick(f, at, []), cfg, at);
    e := CloseWith(Tick(f, at, []), DRAIN_THEN_RST, now);
  }

  lemma TickThenReset(f: Endpoint, at: int, now: int) returns (trace: seq<Happening>)
    requires 0 < at <= now
    ensures Leads(f, at, trace, CloseWith(Tick(f, at, []), DRAIN_THEN_RST, now), now)
  {
    var e1 := Tick(f, at, []);
    var e := CloseWith(e1, DRAIN_THEN_RST, now);
    GoesByTick(f, at);
    GoesByReset(e1, now);
    LeadsNowhere(e, now);
    LeadsOn(e1, at, Happening(EvClose(DRAIN_THEN_RST), now), e, [], e, now);
    LeadsOn(f, at, Happening(EvTick([]), at), e1, [Happening(EvClose(DRAIN_THEN_RST), now)] + [], e, now);
    trace := [Happening(EvTick([]), at)] + ([Happening(EvClose(DRAIN_THEN_RST), now)] + []);
  }

  /** From the last retry but one: a second chunk, and the scan. */
  lemma Finish(f: Endpoint, cfg: Config, created: int, sent: int, data: Chunk, reset: bool)
    returns (trace: seq<Happening>, e: Endpoint, now: int)
    requires ValidConfig(cfg) && Alone(f, cfg, created, cfg.maxDataRetries - 1, sent) && created > 0 && sent > 0
    ensures Leads(f, sent, trace, e, now) && AtEnd(e, cfg, now, reset)
  {
    var at := Max(sent + cfg.maxRTO, created + cfg.dataPacketTTL);
    var key := TxKey(Fresh, 1);
    var f1 := Read(f, data, at);
    var f2 := f1.(s := Pop(f1.s, key, at));
    Second(f, cfg, created, cfg.maxDataRetries - 1, sent, data, at);
    EndsMissed(f2, cfg, created, cfg.maxDataRetries - 1, sent, at);
    var rest;
    rest, e, now := LeadsToEnd(f2, cfg, at, reset);
    ReadAndPop(f, sent, data, at, rest, e, now);
    trace := [Happening(EvRead(data), at)] + ([Happening(EvPop(key), at)] + rest);
  }

  /** By induction on the retries left. */
  lemma {:induction false} FromRetries(e: Endpoint, cfg: Config, created: int, retries: nat, sent: int, data: Chunk,
                                       reset: bool)
    returns (trace: seq<Happening>, f: Endpoint, now: int)
    requires ValidConfig(cfg) && retries < cfg.maxDataRetries
    requires Alone(e, cfg, created, retries, sent) && created > 0 && sent > 0
    ensures Leads(e, sent, trace, f, now) && AtEnd(f, cfg, now, reset)
    decreases cfg.maxDataRetries - retries
  {
    if retries == cfg.maxDataRetries - 1 {
      trace, f, now := Finish(e, cfg, created, sent, data, reset);
    } else {
      var t := sent + cfg.maxRTO;
      var e1 := Tick(e, t, []);
      OneMore(e, cfg, created, retries, sent, t);
      var rest;
      rest, f, now := FromRetries(e1.(s := Pop(e1.s, TxKey(Resend, 0), t)), cfg, created, retries + 1, t, data, reset);
      TickAndPop(e, sent, t, TxKey(Resend, 0), rest, f, now);
      trace := [Happening(EvTick([]), t)] + ([Happening(EvPop(TxKey(Resend, 0)), t)] + rest);
    }
  }

  lemma FromStart(cfg: Config, data: Chunk, start: int, reset: bool)
    returns (trace: seq<Happening>, e: Endpoint, now: int)
    requires ValidConfig(cfg) && start > 0
    ensures Leads(Initial(cfg, false, start), start, trace, e, now) && AtEnd(e, cfg, now, reset)
  {
    var e0 := Initial(cfg, false, start);
    var key := TxKey(Fresh, 0);
    var e1 := Read(e0, data, start);
    var e2 := e1.(s := Pop(e1.s, key, start));
    Begin(cfg, data, start);
    var rest;
    rest, e, now := FromRetries(e2, cfg, start, 0, start, data, reset);
    ReadAndPop(e0, start, data, start, rest, e, now);
    trace := [Happening(EvRead(data), start)] + ([Happening(EvPop(key), start)] + rest);
  }

  /**
   * Every configuration has a run, with a clock that never goes back, after which a chunk has used up its retries
   * and its lifetime and yet every tick for a whole base timeout skips the scan that would reset the stream: the
   * scan that spent its last retry left the deadline of a younger chunk as the hint.
   */
  lemma SkippedScanMissesRetries(cfg: Config, data: Chunk, start: int)
    returns (trace: seq<Happening>, e: Endpoint, now: int)
    requires ValidConfig(cfg) && start > 0
    ensures Leads(Initial(cfg, false, start), start, trace, e, now) && Missed(cfg, e.s, now)
    ensures cfg.rto > 0 && Skips(e.s, now) && GivesUp(cfg, e.s, now) && e.t.flags == {}
  {
    trace, e, now := FromStart(cfg, data, start, false);
  }

  /**
   * And a run after which a reset waits for a drain that cannot proceed: until its deadline every tick is stalled,
   * although a chunk is due of which no copy is queued.
   */
  lemma DrainedResetStalls(cfg: Config, data: Chunk, start: int)
    returns (trace: seq<Happening>, e: Endpoint, now: int)
    requires ValidConfig(cfg) && start > 0
    ensures Leads(Initial(cfg, false, start), start, trace, e, now) && StallsOn(e, now)
  {
    trace, e, now := FromStart(cfg, data, start, true);
  }
}
