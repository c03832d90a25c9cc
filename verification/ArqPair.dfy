/** Two endpoint objects and a network between them: what holds of every run of a connection holds of the objects. */
module ArqPair {
  import opened SeqNum
  import opened ArqTerm
  import opened ArqTermProofs
  import opened ArqState
  import opened ArqRuns
  import opened ArqFlow
  import opened ArqLink
  import opened ArqTransport
  import opened ArqDelivery
  import opened ArqSender
  import opened ArqSenderRuns
  import opened ArqRecovery
  import opened Arq

  /** Two objects that share nothing, and the packets between them, are in a state of a sound connection. */
  ghost predicate Connected(x: ARQ, y: ARQ, out: Wire, inn: Wire)
    reads x, x.stream, y, y.stream
  {
    && x != y && x.stream != y.stream
    && x.Valid() && y.Valid() && Joined(x.State(), y.State(), out, inn)
  }

  /** Two new objects with compatible configurations. */
  method Open(a: Config, b: Config, start: int) returns (x: ARQ, y: ARQ)
    requires Compatible(a, b)
    ensures fresh(x) && fresh(y) && fresh(x.stream) && fresh(y.stream)
    ensures Connected(x, y, SILENCE, SILENCE) && x.cfg == a && y.cfg == b
  {
    var s := new TxStream();
    var t := new TxStream();
    x := new ARQ(a, s, false, start);
    y := new ARQ(b, t, false, start);
    OpenedIsSound(a, b, start);
  }

  /**
   * One object handles an event: one of its own, a copy or an acknowledgement the network still has, or packets
   * from its inbound channel. The connection stays sound, whatever the network kept, repeated or reordered.
   */
  method Exchange(x: ARQ, y: ARQ, ghost out: Wire, ghost inn: Wire, ghost act: Action, ev: Event, now: int)
    returns (ghost out1: Wire, ghost inn1: Wire)
    requires Connected(x, y, out, inn) && now > 0
    requires MayAct(x.State(), y.State(), out, inn, act) && ev == EventOf(inn, act)
    modifies x, x.stream
    ensures Connected(x, y, out1, inn1) && y.State() == old(y.State())
    ensures out1 == OutAfter(old(x.State()), out, act) && inn1 == InnAfter(old(x.State()), inn, act)
  {
    ghost var me, peer := x.State(), y.State();
    EventEnabled(me, peer, out, inn, act);
    ghost var done := x.Perform(ev, now);
    out1, inn1 := OutAfter(me, out, act), InnAfter(me, inn, act);
    PerformedAct(me, peer, out, inn, act, done, now);
  }

  /** The tick may have walked the tracked packets in an order of its own. */
  lemma PerformedAct(me: Endpoint, peer: Endpoint, out: Wire, inn: Wire, act: Action, done: Event, now: int)
    requires Joined(me, peer, out, inn) && MayAct(me, peer, out, inn, act) && now > 0 && Enabled(me, done)
    requires done == EventOf(inn, act) || (EventOf(inn, act).EvTick? && done.EvTick?)
    ensures Joined(Step(me, done, now), peer, OutAfter(me, out, act), InnAfter(me, inn, act))
  {
    if done == EventOf(inn, act) {
      ActKeepsJoined(me, peer, out, inn, act, now);
    } else {
      ActKeepsJoined(me, peer, out, inn, Own(done), now);
    }
  }

  /** The other object may go next, and the same holds the other way round. */
  lemma ConnectedBothWays(x: ARQ, y: ARQ, out: Wire, inn: Wire)
    requires Connected(x, y, out, inn)
    ensures Connected(y, x, inn, out)
  {
  }

  /** What `y` got of what `x` read. */
  lemma ConnectedDeliversTo(x: ARQ, y: ARQ, out: Wire, inn: Wire)
    requires Connected(x, y, out, inn)
    ensures y.h.output <= x.h.input
    ensures Receiving(y.term) && !Flushed(x.term) ==>
              Lossless(x.State(), y.State()) && Recoverable(x.State(), y.State())
    ensures Ended(y.term) && !GaveUp(y.term) && !Flushed(x.term) ==> y.h.output == x.h.input
  {
    var c, d := x.State(), y.State();
    WrittenIsPrefix(c.h.input, d.h.taken, d.h.output, d.r.inWrite, LocalWriterBroken in d.t.flags);
    if Receiving(d.t) && !Flushed(c.t) {
      LinkIsLossless(c, d, out);
      FitIsRecoverable(c, d);
    }
  }

  /**
   * So at any time each object has written a prefix of what the other read, and while neither gave up nothing is
   * lost and the next missing chunk is recoverable, in both directions.
   */
  lemma ConnectedDelivers(x: ARQ, y: ARQ, out: Wire, inn: Wire)
    requires Connected(x, y, out, inn)
    ensures y.h.output <= x.h.input && x.h.output <= y.h.input
    ensures Receiving(y.term) && !Flushed(x.term) ==>
              Lossless(x.State(), y.State()) && Recoverable(x.State(), y.State())
    ensures Receiving(x.term) && !Flushed(y.term) ==>
              Lossless(y.State(), x.State()) && Recoverable(y.State(), x.State())
    ensures Ended(y.term) && !GaveUp(y.term) && !Flushed(x.term) ==> y.h.output == x.h.input
    ensures Ended(x.term) && !GaveUp(x.term) && !Flushed(y.term) ==> x.h.output == y.h.input
  {
    ConnectedDeliversTo(x, y, out, inn);
    ConnectedBothWays(x, y, out, inn);
    ConnectedDeliversTo(y, x, inn, out);
  }
}
