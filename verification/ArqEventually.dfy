/**
 * Whole runs: wherever a connection got, the two endpoints have a schedule that delivers everything read, except
 * exactly when the one tick it needs gives the sending side up.
 */
module ArqEventually {
  import opened SeqNum
  import Extrema
  import opened ArqTerm
  import opened ArqTermProofs
  import opened ArqState
  import opened ArqRuns
  import opened ArqFlow
  import opened ArqLink
  import opened ArqTransport
  import opened ArqDelivery
  import opened ArqSender
  import opened ArqSenderRuns
  import opened ArqRecovery
  import opened ArqControl
  import opened ArqProgress

  // ---------------------------------------------------------------------
  // What holds all along
  // ---------------------------------------------------------------------

  /** What holds of every state of a connection that was opened: neither end is virtual. */
  ghost predicate Established(c: Connection) {
    Sound(c) && Fit(c.a) && Fit(c.b) && IsVirtual !in c.a.t.flags && IsVirtual !in c.b.t.flags
  }

  lemma NextIsReal(c: Connection, mv: Move)
    requires Established(c) && CanMove(c, mv)
    ensures IsVirtual !in Next(c, mv).a.t.flags && IsVirtual !in Next(c, mv).b.t.flags
  {
    if mv.byA {
      EventEnabled(c.a, c.b, c.ab, c.ba, mv.act);
      StepSteady(c.a, EventOf(c.ba, mv.act), mv.now);
    } else {
      EventEnabled(c.b, c.a, c.ba, c.ab, mv.act);
      StepSteady(c.b, EventOf(c.ab, mv.act), mv.now);
    }
  }

  lemma {:induction false} RunIsEstablished(c: Connection, moves: seq<Move>)
    requires Established(c) && Possible(c, moves)
    ensures Established(Outcome(c, moves))
    decreases |moves|
  {
    if moves != [] {
      NextIsSound(c, moves[0]);
      NextIsFit(c, moves[0]);
      NextIsReal(c, moves[0]);
      RunIsEstablished(Next(c, moves[0]), moves[1..]);
    }
  }

  lemma OpenedIsEstablished(a: Config, b: Config, start: int)
    requires Compatible(a, b)
    ensures Established(Opened(a, b, start))
  {
    OpenedIsSound(a, b, start);
    InitialIsFit(a, start);
    InitialIsFit(b, start);
  }

  // ---------------------------------------------------------------------
  // Round after round
  // ---------------------------------------------------------------------

  /** A few moves, and where they lead. */
  datatype Round = Round(moves: seq<Move>, next: Connection)

  /** Rounds from `c` to `d` of at most six moves each, all of them at one instant. */
  ghost predicate ByRounds(c: Connection, rounds: seq<Round>, now: int, d: Connection)
    decreases |rounds|
  {
    if rounds == [] then c == d
    else
      && |rounds[0].moves| <= 6 && Reaches(c, rounds[0].moves, now, rounds[0].next)
      && ByRounds(rounds[0].next, rounds[1..], now, d)
  }

  lemma ByRoundsOn(c: Connection, r: Round, rounds: seq<Round>, now: int, d: Connection)
    requires |r.moves| <= 6 && Reaches(c, r.moves, now, r.next) && ByRounds(r.next, rounds, now, d)
    ensures ByRounds(c, [r] + rounds, now, d)
  {
    assert ([r] + rounds)[1..] == rounds;
  }

  lemma ReachedIsEstablished(c: Connection, moves: seq<Move>, now: int, d: Connection)
    requires Established(c) && Reaches(c, moves, now, d)
    ensures Established(d)
  {
    RunIsEstablished(c, moves);
  }

  /** Delivery toward `b` goes on: its receive side is in use and its inbound channel empty. */
  ghost predicate GoesOn(c: Connection) {
    Established(c) && Receiving(c.b.t) && c.ab.rx == []
  }

  /** Everything that was read is written, and the send side was not given up. */
  predicate Written(c: Connection, d: Connection) {
    !Flushed(d.a.t) && d.b.h.output == d.a.h.input == c.a.h.input
  }

  /** Everything is taken: what is being written is the rest. */
  lemma RestIsInWrite(x: Endpoint, y: Endpoint, w: Wire)
    requires Link(x, y, w) && Receiving(y.t) && y.h.taken == |x.h.input|
    ensures y.h.output + y.r.inWrite == x.h.input
  {
    assert x.h.input[..|x.h.input|] == x.h.input;
  }

  lemma WriteRest(c: Connection, now: int) returns (moves: seq<Move>, d: Connection)
    requires GoesOn(c) && !Flushed(c.a.t) && c.b.h.taken == |c.a.h.input| && now > 0
    ensures Reaches(c, moves, now, d) && |moves| <= 1 && Written(c, d)
  {
    RestIsInWrite(c.a, c.b, c.ab);
    if c.b.r.inWrite == [] {
      assert c.b.h.output + [] == c.b.h.output;
      ReachesNowhere(c, now);
      return [], c;
    }
    GoesWriteDone(c, now);
    d := c.(b := WriteDone(c.b));
    ReachesNowhere(d, now);
    ReachesOn(c, Move(false, Own(EvWriteDone), now), d, [], now, d);
    moves := [Move(false, Own(EvWriteDone), now)] + [];
  }

  // ---------------------------------------------------------------------
  // One tick queues everything
  // ---------------------------------------------------------------------

  /** The timer of every unacknowledged chunk that is waited for ran out. */
  predicate Late(e: Endpoint, now: int) {
    now > 0 && forall sn :: sn in e.s.buf && e.s.buf[sn].dispatched ==> RtoDue(e.s.buf[sn], now)
  }

  predicate AllQueued(s: Sender) {
    forall sn :: sn in s.buf ==> InQueue(s.queue, sn)
  }

  /** Of the chunks not yet taken, those the sender still holds are queued. */
  ghost predicate RestIsQueued(c: Connection) {
    forall i :: c.b.h.taken <= i < |c.a.h.input| && Wrap(i) in c.a.s.buf ==> InQueue(c.a.s.queue, Wrap(i))
  }

  lemma ScanQueuesAll(e: Endpoint, now: int)
    requires Fit(e) && !Flushed(e.t) && Late(e, now)
    ensures AllQueued(Scanned(e.cfg, e.s, now))
  {
    var due := Due(e.s.buf, now);
    forall sn | sn in e.s.buf ensures InQueue(Scanned(e.cfg, e.s, now).queue, sn) {
      if InQueue(e.s.queue, sn) {
        ScannedInQueue(e.cfg.window, e.s, due, sn);
      } else {
        ScanQueues(e.cfg, e.s, sn, now);
      }
    }
  }

  /** The tick kept every chunk and queued them all, and left flags and deadlines alone. */
  ghost predicate QueuedAll(e: Endpoint, f: Endpoint) {
    && !Flushed(f.t) && AllQueued(f.s) && f.s.buf.Keys == e.s.buf.Keys && f.h == e.h
    && f.t.flags == e.t.flags && f.t.deferredDeadline == e.t.deferredDeadline
  }

  lemma TickQueuesAll(e: Endpoint, sn: u16, now: int, order: seq<Kind>)
    requires Overdue(e, sn, now) && Late(e, now) && !Stalled(e, now) && Walks(order, e.c.tracked)
    ensures var f := Tick(e, now, order);
            f.h == e.h && (Flushed(f.t) <==> !Survives(e, now)) && (Survives(e, now) ==> QueuedAll(e, f))
  {
    TickSurvives(e, sn, now, order);
    ScanQueuesAll(e, now);
    TickKeepsInput(e, now, order);
    assert Scanned(e.cfg, e.s, now).buf.Keys == e.s.buf.Keys;
  }

  /** One tick, if any is needed, queues a copy of every unacknowledged chunk, unless it gives the send side up. */
  lemma QueueAll(c: Connection, now: int, order: seq<Kind>) returns (moves: seq<Move>, d: Connection)
    requires GoesOn(c) && !Flushed(c.a.t)
    requires Late(c.a, now) && !Stalled(c.a, now) && Walks(order, c.a.c.tracked)
    ensures Reaches(c, moves, now, d) && |moves| <= 1 && d.a.h == c.a.h && d.b == c.b
    ensures Flushed(d.a.t) <==> !AllQueued(c.a.s) && !Survives(c.a, now)
    ensures if Flushed(d.a.t) then d == c.(a := Tick(c.a, now, order)) else GoesOn(d) && QueuedAll(c.a, d.a)
  {
    if AllQueued(c.a.s) {
      ReachesNowhere(c, now);
      return [], c;
    }
    var sn :| sn in c.a.s.buf && !InQueue(c.a.s.queue, sn);
    var mv := Move(true, Own(EvTick(order)), now);
    d := c.(a := Tick(c.a, now, order));
    GoesTick(c, order, now);
    TickQueuesAll(c.a, sn, now, order);
    ReachesNowhere(d, now);
    ReachesOn(c, mv, d, [], now, d);
    moves := [mv] + [];
    ReachedIsEstablished(c, moves, now, d);
  }

  // ---------------------------------------------------------------------
  // Chunk by chunk
  // ---------------------------------------------------------------------

  /** The chunks not yet taken carry different numbers. */
  lemma RestDiffers(x: Endpoint, y: Endpoint, w: Wire, i: nat)
    requires Link(x, y, w) && Receiving(y.t) && y.h.taken < i < |x.h.input|
    ensures Wrap(i) != y.r.nxt
  {
    ExpectedIndex(x, y, w);
    LiftUnique(|x.h.input| - MODULUS, i);
  }

  lemma PopLeaves(s: Sender, key: TxKey, now: int, sn: u16)
    requires key in s.queue && InQueue(s.queue, sn) && sn != key.sn
    ensures InQueue(Pop(s, key, now).queue, sn) && (sn in Pop(s, key, now).buf <==> sn in s.buf)
  {
  }

  /** A copy of the next chunk leaving the queue leaves the others there. */
  lemma PopKeepsRest(c: Connection, key: TxKey, now: int, d: Connection)
    requires Link(c.a, c.b, c.ab) && Receiving(c.b.t) && RestIsQueued(c)
    requires c.b.h.taken < d.b.h.taken && key in c.a.s.queue && key.sn == c.b.r.nxt && key.sn in c.a.s.buf
    requires d.a.s == Pop(c.a.s, key, now) && d.a.h == c.a.h
    ensures RestIsQueued(d)
  {
    assert d.a.s.buf.Keys == c.a.s.buf.Keys;
    forall i | d.b.h.taken <= i < |c.a.h.input| && Wrap(i) in c.a.s.buf ensures InQueue(d.a.s.queue, Wrap(i)) {
      RestDiffers(c.a, c.b, c.ab, i);
      PopLeaves(c.a.s, key, now, Wrap(i));
    }
  }

  /** The next chunk, buffered or queued, is taken. */
  lemma TakeNext(c: Connection, now: int) returns (moves: seq<Move>, d: Connection)
    requires GoesOn(c) && !Flushed(c.a.t) && RestIsQueued(c) && c.b.h.taken < |c.a.h.input| && now > 0
    ensures Reaches(c, moves, now, d) && |moves| <= 5 && GoesOn(d)
    ensures RestIsQueued(d) && d.a.t == c.a.t && d.a.h == c.a.h && d.b.h.taken > c.b.h.taken
  {
    var nxt := c.b.r.nxt;
    LinkIsLossless(c.a, c.b, c.ab);
    if nxt in c.b.r.buf {
      moves, d := TakeBuffered(c, now);
    } else {
      assert nxt == Wrap(c.b.h.taken);
      var key := KeyOf(c.a.s.queue, nxt);
      moves, d := TakeQueued(c, key, now);
      PopKeepsRest(c, key, now, d);
    }
    ReachedIsEstablished(c, moves, now, d);
  }

  /** Everything read is delivered, by induction on what is left. */
  lemma {:induction false} Delivers(c: Connection, now: int) returns (rounds: seq<Round>, d: Connection)
    requires GoesOn(c) && !Flushed(c.a.t) && RestIsQueued(c) && now > 0
    ensures ByRounds(c, rounds, now, d) && Written(c, d) && |rounds| <= |c.a.h.input| - c.b.h.taken + 1
    decreases |c.a.h.input| - c.b.h.taken
  {
    assert c.b.h.taken <= |c.a.h.input|;
    var moves, rest;
    if c.b.h.taken == |c.a.h.input| {
      moves, d := WriteRest(c, now);
      ByRoundsOn(c, Round(moves, d), [], now, d);
      rounds := [Round(moves, d)] + [];
    } else {
      var c1;
      moves, c1 := TakeNext(c, now);
      rest, d := Delivers(c1, now);
      ByRoundsOn(c, Round(moves, c1), rest, now, d);
      rounds := [Round(moves, c1)] + rest;
    }
  }

  /** What waits in the channel is processed first. */
  lemma EmptyChannel(c: Connection, now: int) returns (moves: seq<Move>, d: Connection)
    requires Established(c) && Listening(c) && now > 0
    ensures Reaches(c, moves, now, d) && |moves| <= 1 && GoesOn(d)
    ensures d.a == c.a && d.b.h == c.b.h
  {
    var n := |c.ab.rx|;
    assert c.ab.rx[..n] == c.ab.rx;
    var batch := PacketsOf(c.ab.rx[..n]);
    GoesProcess(c, n, now);
    d := c.(b := ProcessBatch(c.b, batch, now), ab := AfterBatch(c.b, c.ab, n));
    ReachesNowhere(d, now);
    ReachesOn(c, Move(false, Process(n), now), d, [], now, d);
    moves := [Move(false, Process(n), now)] + [];
    ReachedIsEstablished(c, moves, now, d);
  }

  /** Toward `b` the instant is late enough: its receive side is in use and nothing hinders the peer's send side. */
  ghost predicate Ripe(c: Connection, now: int) {
    Listening(c) && !Flushed(c.a.t) && Late(c.a, now) && !Stalled(c.a, now)
  }

  /** Everything read is written; or one tick gave the send side up, exactly if it was needed and did not survive. */
  ghost predicate Settled(c: Connection, now: int, order: seq<Kind>, d: Connection) {
    if AllQueued(c.a.s) || Survives(c.a, now) then Written(c, d)
    else Flushed(d.a.t) && d.a == Tick(c.a, now, order)
  }

  /** At any instant late enough, in whatever order the tick walks the tracked packets. */
  lemma AllIsDelivered(c: Connection, now: int, order: seq<Kind>) returns (rounds: seq<Round>, d: Connection)
    requires Established(c) && Ripe(c, now) && Walks(order, c.a.c.tracked)
    ensures ByRounds(c, rounds, now, d) && |rounds| <= |c.a.h.input| - c.b.h.taken + 3 && Settled(c, now, order, d)
  {
    var moves1, c1 := EmptyChannel(c, now);
    var moves2, c2 := QueueAll(c1, now, order);
    var rest := [];
    d := c2;
    if !Flushed(c2.a.t) { rest, d := Delivers(c2, now); }
    ByRoundsOn(c1, Round(moves2, c2), rest, now, d);
    ByRoundsOn(c, Round(moves1, c1), [Round(moves2, c2)] + rest, now, d);
    rounds := [Round(moves1, c1)] + ([Round(moves2, c2)] + rest);
  }

  // ---------------------------------------------------------------------
  // When it survives
  // ---------------------------------------------------------------------

  /** Nothing is being closed at the sender, no chunk has a lifetime of its own, and every chunk has a retry left. */
  predicate Untroubled(e: Endpoint) {
    && !Flushed(e.t) && DeferredClose !in e.t.flags && WaitingAck !in e.t.flags && e.c.tracked == map[]
    && forall sn :: sn in e.s.buf ==> e.s.buf[sn].ttl == 0 && e.s.buf[sn].retries < e.cfg.maxDataRetries
  }

  lemma UntroubledSurvives(e: Endpoint, now: int)
    requires Untroubled(e)
    ensures Survives(e, now)
  {
  }

  /** An instant from `now` on that is late enough. */
  lemma LateInstant(e: Endpoint, now: int) returns (at: int)
    requires now > 0
    ensures at >= now && Late(e, at) && !Stalled(e, at)
  {
    var due := set sn | sn in e.s.buf :: -(e.s.buf[sn].lastSentAt + e.s.buf[sn].currentRTO);
    var all := due + {-now, -(e.t.deferredDeadline + 1)};
    Extrema.LeastExists(all);
    var least :| Extrema.IsLeast(least, all);
    at := -least;
    assert -now in all && -(e.t.deferredDeadline + 1) in all;
    forall sn | sn in e.s.buf && e.s.buf[sn].dispatched ensures RtoDue(e.s.buf[sn], at) {
      assert -(e.s.buf[sn].lastSentAt + e.s.buf[sn].currentRTO) in all;
    }
  }

  // ---------------------------------------------------------------------
  // Both directions
  // ---------------------------------------------------------------------

  /** The same connection with its two ends exchanged. */
  function Mirror(c: Connection): Connection {
    Connection(c.b, c.a, c.ba, c.ab)
  }

  function Mirrored(moves: seq<Move>): (r: seq<Move>)
    ensures |r| == |moves|
  {
    if moves == [] then [] else [moves[0].(byA := !moves[0].byA)] + Mirrored(moves[1..])
  }

  lemma GoesMirrored(c: Connection, mv: Move, d: Connection)
    requires Goes(c, mv, d)
    ensures Goes(Mirror(c), mv.(byA := !mv.byA), Mirror(d))
  {
  }

  lemma {:induction false} ReachesMirrored(c: Connection, moves: seq<Move>, now: int, d: Connection)
    requires Reaches(c, moves, now, d)
    ensures Reaches(Mirror(c), Mirrored(moves), now, Mirror(d))
    decreases |moves|
  {
    if moves == [] {
      ReachesNowhere(Mirror(c), now);
    } else {
      var e := Next(c, moves[0]);
      GoesMirrored(c, moves[0], e);
      ReachesMirrored(e, moves[1..], now, d);
      ReachesOn(Mirror(c), moves[0].(byA := !moves[0].byA), Mirror(e), Mirrored(moves[1..]), now, Mirror(d));
    }
  }

  function MirroredRounds(rounds: seq<Round>): (r: seq<Round>)
    ensures |r| == |rounds|
  {
    if rounds == [] then []
    else [Round(Mirrored(rounds[0].moves), Mirror(rounds[0].next))] + MirroredRounds(rounds[1..])
  }

  lemma {:induction false} ByRoundsMirrored(c: Connection, rounds: seq<Round>, now: int, d: Connection)
    requires ByRounds(c, rounds, now, d)
    ensures ByRounds(Mirror(c), MirroredRounds(rounds), now, Mirror(d))
    decreases |rounds|
  {
    if rounds != [] {
      var r := rounds[0];
      ReachesMirrored(c, r.moves, now, r.next);
      ByRoundsMirrored(r.next, rounds[1..], now, d);
      ByRoundsOn(Mirror(c), Round(Mirrored(r.moves), Mirror(r.next)), MirroredRounds(rounds[1..]), now, Mirror(d));
    }
  }

  lemma EstablishedMirrored(c: Connection)
    requires Established(c)
    ensures Established(Mirror(c))
  {
  }

  // ---------------------------------------------------------------------
  // Main results
  // ---------------------------------------------------------------------

  /** In every run of a connection, for either direction: the next missing chunk is taken in six moves. */
  lemma DeliveryProgresses(a: Config, b: Config, start: int, run: seq<Move>, c: Connection, now: int, order: seq<Kind>)
    returns (toB: seq<Move>, d: Connection, toA: seq<Move>, e: Connection)
    requires Compatible(a, b) && Possible(Opened(a, b, start), run) && c == Outcome(Opened(a, b, start), run)
    ensures Missing(c, now) ==>
              Reaches(c, toB, now, d) && |toB| <= 6 && Progress(c, now, order, d)
    ensures Missing(Mirror(c), now) ==>
              Reaches(c, toA, now, e) && |toA| <= 6 && Progress(Mirror(c), now, order, Mirror(e))
  {
    OpenedIsEstablished(a, b, start);
    RunIsEstablished(Opened(a, b, start), run);
    toB, d, toA, e := [], c, [], c;
    if Missing(c, now) { toB, d := MissingChunkIsTaken(c, now, order); }
    if Missing(Mirror(c), now) { toA, e := TakenBack(c, now, order); }
  }

  lemma TakenBack(c: Connection, now: int, order: seq<Kind>) returns (moves: seq<Move>, e: Connection)
    requires Established(c) && Missing(Mirror(c), now)
    ensures Reaches(c, moves, now, e) && |moves| <= 6 && Progress(Mirror(c), now, order, Mirror(e))
  {
    EstablishedMirrored(c);
    var there, d := MissingChunkIsTaken(Mirror(c), now, order);
    ReachesMirrored(Mirror(c), there, now, d);
    moves, e := Mirrored(there), Mirror(d);
  }

  /** Toward `a`, the same. */
  lemma AllIsDeliveredBack(c: Connection, now: int, order: seq<Kind>) returns (rounds: seq<Round>, e: Connection)
    requires Established(c) && Ripe(Mirror(c), now) && Walks(order, c.b.c.tracked)
    ensures ByRounds(c, rounds, now, e) && |rounds| <= |c.b.h.input| - c.a.h.taken + 3
    ensures Settled(Mirror(c), now, order, Mirror(e))
  {
    EstablishedMirrored(c);
    var there, d := AllIsDelivered(Mirror(c), now, order);
    ByRoundsMirrored(Mirror(c), there, now, d);
    rounds, e := MirroredRounds(there), Mirror(d);
  }

  /**
   * In every run of a connection, at every instant late enough, in whatever order the tick walks the tracked packets:
   * the two endpoints have a schedule after which everything the peer read is written, of at most one round a missing
   * chunk and three more, or whose one tick gives the peer's send side up, exactly if it is needed and does not
   * survive.
   */
  lemma EverythingIsDelivered(a: Config, b: Config, start: int, run: seq<Move>, c: Connection, now: int,
                              orderA: seq<Kind>, orderB: seq<Kind>)
    returns (toB: seq<Round>, d: Connection, toA: seq<Round>, e: Connection)
    requires Compatible(a, b) && Possible(Opened(a, b, start), run) && c == Outcome(Opened(a, b, start), run)
    requires Walks(orderA, c.a.c.tracked) && Walks(orderB, c.b.c.tracked)
    ensures Ripe(c, now) ==>
              ByRounds(c, toB, now, d) && |toB| <= |c.a.h.input| - c.b.h.taken + 3 && Settled(c, now, orderA, d)
    ensures Ripe(Mirror(c), now) ==>
              ByRounds(c, toA, now, e) && |toA| <= |c.b.h.input| - c.a.h.taken + 3
              && Settled(Mirror(c), now, orderB, Mirror(e))
  {
    OpenedIsEstablished(a, b, start);
    RunIsEstablished(Opened(a, b, start), run);
    toB, d, toA, e := [], c, [], c;
    if Ripe(c, now) { toB, d := AllIsDelivered(c, now, orderA); }
    if Ripe(Mirror(c), now) { toA, e := AllIsDeliveredBack(c, now, orderB); }
  }

  /**
   * So in every run: unless the peer is closing or a chunk used up its retries, from any instant on there is one at
   * which everything the peer read is delivered and written.
   */
  lemma UntroubledDelivers(a: Config, b: Config, start: int, run: seq<Move>, c: Connection, now: int)
    returns (atB: int, toB: seq<Round>, d: Connection, atA: int, toA: seq<Round>, e: Connection)
    requires Compatible(a, b) && Possible(Opened(a, b, start), run) && c == Outcome(Opened(a, b, start), run) && now > 0
    ensures Listening(c) && Untroubled(c.a) ==>
              atB >= now && ByRounds(c, toB, atB, d) && Written(c, d)
    ensures Listening(Mirror(c)) && Untroubled(c.b) ==>
              atA >= now && ByRounds(c, toA, atA, e) && Written(Mirror(c), Mirror(e))
  {
    OpenedIsEstablished(a, b, start);
    RunIsEstablished(Opened(a, b, start), run);
    toB, d, toA, e := [], c, [], c;
    atB := LateInstant(c.a, now);
    atA := LateInstant(c.b, now);
    if Listening(c) && Untroubled(c.a) {
      UntroubledSurvives(c.a, atB);
      toB, d := AllIsDelivered(c, atB, []);
    }
    if Listening(Mirror(c)) && Untroubled(c.b) {
      UntroubledSurvives(c.b, atA);
      toA, e := AllIsDeliveredBack(c, atA, []);
    }
  }
}
