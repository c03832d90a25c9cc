/** Whatever the network does, a chunk the receiver is missing stays recoverable. */
module ArqRecovery {
  import opened SeqNum
  import opened ArqTerm
  import opened ArqTermProofs
  import opened ArqState
  import opened ArqRuns
  import opened ArqFlow
  import opened ArqLink
  import opened ArqTransport
  import opened ArqDelivery
  import opened ArqSender
  import opened ArqSenderRuns

  lemma NextIsFit(c: Connection, mv: Move)
    requires Fit(c.a) && Fit(c.b) && CanMove(c, mv)
    ensures Fit(Next(c, mv).a) && Fit(Next(c, mv).b)
  {
    if mv.byA {
      EventEnabled(c.a, c.b, c.ab, c.ba, mv.act);
      StepKeepsFit(c.a, EventOf(c.ba, mv.act), mv.now);
    } else {
      EventEnabled(c.b, c.a, c.ba, c.ab, mv.act);
      StepKeepsFit(c.b, EventOf(c.ab, mv.act), mv.now);
    }
  }

  lemma InitialIsFit(cfg: Config, now: int)
    requires ValidConfig(cfg)
    ensures Fit(Initial(cfg, false, now))
  {
  }

  lemma {:induction false} RunIsFit(c: Connection, moves: seq<Move>)
    requires Fit(c.a) && Fit(c.b) && Possible(c, moves)
    ensures Fit(Outcome(c, moves).a) && Fit(Outcome(c, moves).b)
    decreases |moves|
  {
    if moves != [] {
      NextIsFit(c, moves[0]);
      RunIsFit(Next(c, moves[0]), moves[1..]);
    }
  }

  /** The next chunk the receiver needs is held, and either waits in the queue or has its timer running. */
  ghost predicate Recoverable(x: Endpoint, y: Endpoint) {
    y.h.taken < |x.h.input| && y.r.nxt !in y.r.buf ==>
      && y.r.nxt in x.s.buf && x.s.buf[y.r.nxt].data == x.h.input[y.h.taken]
      && (InQueue(x.s.queue, y.r.nxt)
          || (x.s.buf[y.r.nxt].dispatched
              && x.s.minRetransmitAt <= x.s.buf[y.r.nxt].lastSentAt + x.s.buf[y.r.nxt].currentRTO))
  }

  lemma FitIsRecoverable(x: Endpoint, y: Endpoint)
    requires Fit(x) && Lossless(x, y)
    ensures Recoverable(x, y)
  {
    if y.h.taken < |x.h.input| && y.r.nxt !in y.r.buf {
      assert ItemOk(x.cfg, x.s.buf[y.r.nxt], InQueue(x.s.queue, y.r.nxt));
    }
  }

  /**
   * In every run, as long as neither side gave up, the chunk the receiver needs next is buffered, or the sender
   * still holds it with a copy queued or its retransmission timer running and not hidden by the scan hint.
   */
  lemma MissingChunkIsRecoverable(a: Config, b: Config, start: int, moves: seq<Move>)
    requires Compatible(a, b) && Possible(Opened(a, b, start), moves)
    ensures var c := Outcome(Opened(a, b, start), moves);
            && (Receiving(c.b.t) && !Flushed(c.a.t) ==> Recoverable(c.a, c.b))
            && (Receiving(c.a.t) && !Flushed(c.b.t) ==> Recoverable(c.b, c.a))
  {
    var o := Opened(a, b, start);
    InitialIsFit(a, start);
    InitialIsFit(b, start);
    RunIsFit(o, moves);
    NothingLost(a, b, start, moves);
    var c := Outcome(o, moves);
    if Receiving(c.b.t) && !Flushed(c.a.t) { FitIsRecoverable(c.a, c.b); }
    if Receiving(c.a.t) && !Flushed(c.b.t) { FitIsRecoverable(c.b, c.a); }
  }
}
