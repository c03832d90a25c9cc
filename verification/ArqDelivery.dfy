/**
 * Runs of a whole connection, both directions at once: in-order exactly-once delivery, conservation and the
 * span bound, and no truncation at the end.
 */
module ArqDelivery {
  import opened SeqNum
  import Extrema
  import opened ArqTerm
  import opened ArqTermProofs
  import opened ArqState
  import opened ArqRuns
  import opened ArqFlow
  import opened ArqLink
  import opened ArqTransport

  /** Two endpoints; `ab` carries what `a` sends and its acknowledgements, `ba` what `b` sends. */
  datatype Connection = Connection(a: Endpoint, b: Endpoint, ab: Wire, ba: Wire)

  /**
   * What an endpoint does: a step of its own, taking a copy off the network into its inbound channel,
   * processing the first packets of that channel, or taking an acknowledgement off the network.
   */
  datatype Action = Own(ev: Event) | Arrives(c: Copy, room: bool) | Process(n: nat) | AckArrives(ack: Tag)

  predicate Foreign(ev: Event) {
    ev.EvReceiveData? || ev.EvBatch? || ev.EvAck?
  }

  /**
   * When it can. What the network is asked for is its packet lifetime: no copy is processed after the receiver
   * took 65536 - window chunks or more beyond it, no acknowledgement arrives after the sender read more than 65536
   * further chunks, and no chunk is read whose number is still unacknowledged. CLOSE_READ arrives only if it
   * was sent; every other control packet may arrive at any time.
   */
  predicate MayAct(me: Endpoint, peer: Endpoint, out: Wire, inn: Wire, act: Action) {
    match act
    case Own(ev) =>
      Enabled(me, ev) && !Foreign(ev) && (ev.EvRead? ==> me.s.nxt !in me.s.buf)
      && (ev.EvCloseReadReceived? ==> CloseReadSent in peer.t.flags)
    case Arrives(c, _) => c in inn.copies
    case Process(n) => n <= |inn.rx| && MayProcess(me, inn.rx[..n])
    case AckArrives(ack) => ack in out.acks && |me.h.input| - ack.i <= MODULUS
  }

  function EventOf(inn: Wire, act: Action): Event {
    match act
    case Own(ev) => ev
    case Arrives(_, room) => EvReceiveData(room)
    case Process(n) => EvBatch(PacketsOf(if n <= |inn.rx| then inn.rx[..n] else []))
    case AckArrives(ack) => EvAck(ack.sn)
  }

  /** A copy is on the network once it left the queue, if its chunk was still unacknowledged then. */
  function OutAfter(me: Endpoint, out: Wire, act: Action): Wire {
    if act.Own? && act.ev.EvPop? && act.ev.key in me.s.queue && act.ev.key.sn in me.s.buf then
      var key := act.ev.key;
      out.(copies := out.copies + {Copy(SentIndex(|me.h.input|, key.sn), key.sn, me.s.queue[key])})
    else out
  }

  ghost function InnAfter(me: Endpoint, inn: Wire, act: Action): Wire {
    match act
    case Arrives(c, room) =>
      if NeedCloseWrite(me.t) || RefusesData(me.t) || !room then inn else inn.(rx := inn.rx + [c])
    case Process(n) => if n <= |inn.rx| then AfterBatch(me, inn, n) else inn
    case _ => inn
  }

  ghost predicate Joined(me: Endpoint, peer: Endpoint, out: Wire, inn: Wire) {
    Good(me) && Good(peer) && Link(me, peer, out) && Link(peer, me, inn)
  }

  lemma QuietJoined(me: Endpoint, me1: Endpoint, peer: Endpoint, out: Wire, inn: Wire)
    requires Joined(me, peer, out, inn) && Good(me1) && Quiet(me, me1)
    requires EofKept(me.t, me1.t) || CloseReadSent in peer.t.flags
    ensures Joined(me1, peer, out, inn)
  {
    SenderQuietKeeps(me, me1, peer, out);
    ReceiverQuietKeeps(peer, me, me1, inn);
  }

  lemma CopySent(x: Endpoint, y: Endpoint, w: Wire, c: Copy)
    requires Link(x, y, w) && Genuine(x.h.input, c)
    ensures Link(x, y, w.(copies := w.copies + {c}))
  {
  }

  lemma CopyArrived(x: Endpoint, y: Endpoint, w: Wire, c: Copy)
    requires Link(x, y, w) && c in w.copies
    ensures Link(x, y, w.(rx := w.rx + [c]))
  {
  }

  lemma PopQuietJoined(me: Endpoint, peer: Endpoint, out: Wire, inn: Wire, key: TxKey, now: int)
    requires Joined(me, peer, out, inn) && key in me.s.queue && now > 0
    ensures Joined(Step(me, EvPop(key), now), peer, out, inn)
    ensures Step(me, EvPop(key), now).h.input == me.h.input
  {
    StepKeeps(me, EvPop(key), now);
    StepQuiet(me, EvPop(key), now);
    QuietJoined(me, Step(me, EvPop(key), now), peer, out, inn);
  }

  lemma PopJoined(me: Endpoint, peer: Endpoint, out: Wire, inn: Wire, key: TxKey, now: int)
    requires Joined(me, peer, out, inn) && key in me.s.queue && now > 0
    ensures Joined(Step(me, EvPop(key), now), peer, OutAfter(me, out, Own(EvPop(key))), inn)
  {
    PopQuietJoined(me, peer, out, inn, key, now);
    if key.sn in me.s.buf {
      var copy := Copy(SentIndex(|me.h.input|, key.sn), key.sn, me.s.queue[key]);
      PoppedIsGenuine(me, key);
      CopySent(Step(me, EvPop(key), now), peer, out, copy);
      assert OutAfter(me, out, Own(EvPop(key))) == out.(copies := out.copies + {copy});
    } else {
      assert OutAfter(me, out, Own(EvPop(key))) == out;
    }
  }

  lemma OwnQuietJoined(me: Endpoint, peer: Endpoint, out: Wire, inn: Wire, ev: Event, now: int)
    requires Joined(me, peer, out, inn) && MayAct(me, peer, out, inn, Own(ev)) && now > 0 && IsQuiet(ev)
    ensures Joined(Step(me, ev, now), peer, OutAfter(me, out, Own(ev)), inn)
  {
    if ev.EvPop? {
      PopJoined(me, peer, out, inn, ev.key, now);
    } else {
      StepKeeps(me, ev, now);
      StepQuiet(me, ev, now);
      QuietJoined(me, Step(me, ev, now), peer, out, inn);
    }
  }

  lemma OwnJoined(me: Endpoint, peer: Endpoint, out: Wire, inn: Wire, ev: Event, now: int)
    requires Joined(me, peer, out, inn) && MayAct(me, peer, out, inn, Own(ev)) && now > 0 && !IsQuiet(ev)
    ensures Joined(Step(me, ev, now), peer, out, inn)
  {
    var me1 := Step(me, ev, now);
    StepKeeps(me, ev, now);
    match ev
    case EvRead(data) =>
      ReadKeepsLink(me, data, now, peer, out);
      ReadFar(me, data, now);
      ReceiverQuietKeeps(peer, me, me1, inn);
    case EvDrain =>
      DrainKeepsLink(peer, me, inn);
      DrainFar(me);
      SenderQuietKeeps(me, me1, peer, out);
    case EvWriteDone =>
      WriteDoneKeepsLink(peer, me, inn);
      WriteDoneFar(me);
      SenderQuietKeeps(me, me1, peer, out);
    case EvWriteFailed(k) =>
      WriteFailedKeepsLink(peer, me, inn, k, now);
      WriteFailedFar(me, k, now);
      SenderQuietKeeps(me, me1, peer, out);
    case _ =>
  }

  lemma ArrivesJoined(me: Endpoint, peer: Endpoint, out: Wire, inn: Wire, c: Copy, room: bool, now: int)
    requires Joined(me, peer, out, inn) && c in inn.copies && now > 0
    ensures Joined(Step(me, EvReceiveData(room), now), peer, out, InnAfter(me, inn, Arrives(c, room)))
  {
    StepKeeps(me, EvReceiveData(room), now);
    StepQuiet(me, EvReceiveData(room), now);
    var me1 := Step(me, EvReceiveData(room), now);
    QuietJoined(me, me1, peer, out, inn);
    CopyArrived(peer, me1, inn, c);
  }

  lemma ProcessJoined(me: Endpoint, peer: Endpoint, out: Wire, inn: Wire, n: nat, now: int)
    requires Joined(me, peer, out, inn) && n <= |inn.rx| && MayProcess(me, inn.rx[..n]) && now > 0
    ensures Joined(Step(me, EvBatch(PacketsOf(inn.rx[..n])), now), peer, out, AfterBatch(me, inn, n))
  {
    var batch := PacketsOf(inn.rx[..n]);
    StepKeeps(me, EvBatch(batch), now);
    BatchKeepsLink(peer, me, inn, n, now);
    BatchFar(me, batch, now);
    SenderQuietKeeps(me, Step(me, EvBatch(batch), now), peer, out);
  }

  lemma AckJoined(me: Endpoint, peer: Endpoint, out: Wire, inn: Wire, ack: Tag, now: int)
    requires Joined(me, peer, out, inn) && ack in out.acks && |me.h.input| - ack.i <= MODULUS && now > 0
    ensures Joined(Step(me, EvAck(ack.sn), now), peer, out, inn)
  {
    StepKeeps(me, EvAck(ack.sn), now);
    AckKeepsLink(me, ack, now, peer, out);
    AckFar(me, ack.sn, now);
    ReceiverQuietKeeps(peer, me, Step(me, EvAck(ack.sn), now), inn);
  }

  /** Whatever an endpoint does, both directions keep their invariant. */
  lemma ActKeepsJoined(me: Endpoint, peer: Endpoint, out: Wire, inn: Wire, act: Action, now: int)
    requires Joined(me, peer, out, inn) && MayAct(me, peer, out, inn, act) && now > 0
    ensures Joined(Step(me, EventOf(inn, act), now), peer, OutAfter(me, out, act), InnAfter(me, inn, act))
  {
    match act
    case Own(ev) =>
      if IsQuiet(ev) { OwnQuietJoined(me, peer, out, inn, ev, now); } else { OwnJoined(me, peer, out, inn, ev, now); }
    case Arrives(c, room) => ArrivesJoined(me, peer, out, inn, c, room, now);
    case Process(n) => ProcessJoined(me, peer, out, inn, n, now);
    case AckArrives(ack) => AckJoined(me, peer, out, inn, ack, now);
  }

  // ---------------------------------------------------------------------
  // Runs
  // ---------------------------------------------------------------------

  datatype Move = Move(byA: bool, act: Action, now: int)

  predicate CanMove(c: Connection, mv: Move) {
    mv.now > 0 && (if mv.byA then MayAct(c.a, c.b, c.ab, c.ba, mv.act) else MayAct(c.b, c.a, c.ba, c.ab, mv.act))
  }

  ghost predicate Sound(c: Connection) {
    Joined(c.a, c.b, c.ab, c.ba)
  }

  /** Every event an action stands for is enabled. */
  lemma EventEnabled(me: Endpoint, peer: Endpoint, out: Wire, inn: Wire, act: Action)
    requires MayAct(me, peer, out, inn, act)
    ensures Enabled(me, EventOf(inn, act))
  {
  }

  ghost function Next(c: Connection, mv: Move): Connection
    requires CanMove(c, mv)
  {
    if mv.byA then
      EventEnabled(c.a, c.b, c.ab, c.ba, mv.act);
      Connection(Step(c.a, EventOf(c.ba, mv.act), mv.now), c.b,
                 OutAfter(c.a, c.ab, mv.act), InnAfter(c.a, c.ba, mv.act))
    else
      EventEnabled(c.b, c.a, c.ba, c.ab, mv.act);
      Connection(c.a, Step(c.b, EventOf(c.ab, mv.act), mv.now),
                 InnAfter(c.b, c.ab, mv.act), OutAfter(c.b, c.ba, mv.act))
  }

  ghost predicate Possible(c: Connection, moves: seq<Move>)
    decreases |moves|
  {
    moves == [] || (CanMove(c, moves[0]) && Possible(Next(c, moves[0]), moves[1..]))
  }

  ghost function Outcome(c: Connection, moves: seq<Move>): Connection
    requires Possible(c, moves)
    decreases |moves|
  {
    if moves == [] then c else Outcome(Next(c, moves[0]), moves[1..])
  }

  const SILENCE := Wire({}, [], {})

  /** Two endpoints that have just been set up. */
  function Opened(a: Config, b: Config, start: int): Connection {
    Connection(Initial(a, false, start), Initial(b, false, start), SILENCE, SILENCE)
  }

  predicate Compatible(a: Config, b: Config) {
    ValidConfig(a) && ValidConfig(b) && Narrow(a, b) && Narrow(b, a)
  }

  lemma OpenedLink(x: Config, y: Config, start: int)
    requires ValidConfig(x) && ValidConfig(y) && Narrow(x, y)
    ensures Link(Initial(x, false, start), Initial(y, false, start), SILENCE)
  {
  }

  lemma NextIsSound(c: Connection, mv: Move)
    requires Sound(c) && CanMove(c, mv)
    ensures Sound(Next(c, mv))
  {
    if mv.byA {
      ActKeepsJoined(c.a, c.b, c.ab, c.ba, mv.act, mv.now);
    } else {
      ActKeepsJoined(c.b, c.a, c.ba, c.ab, mv.act, mv.now);
    }
  }

  lemma {:induction false} RunIsSound(c: Connection, moves: seq<Move>)
    requires Sound(c) && Possible(c, moves)
    ensures Sound(Outcome(c, moves))
    decreases |moves|
  {
    if moves != [] {
      NextIsSound(c, moves[0]);
      RunIsSound(Next(c, moves[0]), moves[1..]);
    }
  }

  lemma OpenedIsSound(a: Config, b: Config, start: int)
    requires Compatible(a, b)
    ensures Sound(Opened(a, b, start))
  {
    OpenedLink(a, b, start);
    OpenedLink(b, a, start);
  }

  /** Every window the configuration loaders let through, at a client and at a server, is compatible. */
  lemma ConfiguredWindowsAreNarrow(client: Config, server: Config, clientWindow: int, serverWindow: int)
    requires ValidConfig(client) && ValidConfig(server)
    requires 1 <= clientWindow <= 20000 && client.window == Extrema.Max(clientWindow, 300)
    requires 1 <= serverWindow <= 6000 && server.window == Extrema.Max(serverWindow, 300)
    ensures Compatible(client, server)
  {
  }

  // ---------------------------------------------------------------------
  // Main results
  // ---------------------------------------------------------------------

  /**
   * In every run, resets and broken writers included, what each side has written is a prefix of what the other
   * side read: in order, nothing twice, nothing left out in between.
   */
  lemma InOrderExactlyOnce(a: Config, b: Config, start: int, moves: seq<Move>)
    requires Compatible(a, b) && Possible(Opened(a, b, start), moves)
    ensures var c := Outcome(Opened(a, b, start), moves);
            c.b.h.output <= c.a.h.input && c.a.h.output <= c.b.h.input
  {
    OpenedIsSound(a, b, start);
    RunIsSound(Opened(a, b, start), moves);
    var c := Outcome(Opened(a, b, start), moves);
    WrittenIsPrefix(c.a.h.input, c.b.h.taken, c.b.h.output, c.b.r.inWrite, LocalWriterBroken in c.b.t.flags);
    WrittenIsPrefix(c.b.h.input, c.a.h.taken, c.a.h.output, c.a.r.inWrite, LocalWriterBroken in c.a.t.flags);
  }

  lemma WrittenIsPrefix(input: seq<Chunk>, taken: nat, output: seq<Chunk>, inWrite: seq<Chunk>, broken: bool)
    requires Delivered(input, taken, output, inWrite, broken)
    ensures output <= input
  {
    assert output == (output + inWrite)[..|output|];
  }

  /**
   * Nothing is lost while neither side gave up: every chunk read is unacknowledged, buffered or delivered; the
   * sender is never more than window + limit + 1 chunks ahead; the buffers respect their bounds; and a chunk
   * the receiver is missing next is still held by the sender under its number.
   */
  ghost predicate Lossless(x: Endpoint, y: Endpoint) {
    && (forall i :: 0 <= i < |x.h.input| ==> i < y.h.taken || Wrap(i) in y.r.buf || Wrap(i) in x.s.buf)
    && |x.h.input| - y.h.taken <= y.cfg.window + x.cfg.limit + 1
    && |x.s.buf| <= x.cfg.limit && |y.r.buf| <= y.cfg.window + 1
    && (y.h.taken < |x.h.input| && y.r.nxt !in y.r.buf ==>
          y.r.nxt in x.s.buf && x.s.buf[y.r.nxt].data == x.h.input[y.h.taken])
  }

  lemma LinkIsLossless(x: Endpoint, y: Endpoint, w: Wire)
    requires Link(x, y, w) && Receiving(y.t) && !Flushed(x.t)
    ensures Lossless(x, y)
  {
    if y.h.taken < |x.h.input| {
      LiftUnique(|x.h.input| - MODULUS, y.h.taken);
    }
  }

  lemma NothingLost(a: Config, b: Config, start: int, moves: seq<Move>)
    requires Compatible(a, b) && Possible(Opened(a, b, start), moves)
    ensures var c := Outcome(Opened(a, b, start), moves);
            && (Receiving(c.b.t) && !Flushed(c.a.t) ==> Lossless(c.a, c.b))
            && (Receiving(c.a.t) && !Flushed(c.b.t) ==> Lossless(c.b, c.a))
            && c.a.cfg == a && c.b.cfg == b
  {
    OpenedIsSound(a, b, start);
    RunIsSound(Opened(a, b, start), moves);
    ConfigsStay(Opened(a, b, start), moves);
    var c := Outcome(Opened(a, b, start), moves);
    if Receiving(c.b.t) && !Flushed(c.a.t) { LinkIsLossless(c.a, c.b, c.ab); }
    if Receiving(c.a.t) && !Flushed(c.b.t) { LinkIsLossless(c.b, c.a, c.ba); }
  }

  lemma {:induction false} ConfigsStay(c: Connection, moves: seq<Move>)
    requires Sound(c) && Possible(c, moves)
    ensures Outcome(c, moves).a.cfg == c.a.cfg && Outcome(c, moves).b.cfg == c.b.cfg
    decreases |moves|
  {
    if moves != [] {
      NextIsSound(c, moves[0]);
      NextKeepsConfigs(c, moves[0]);
      ConfigsStay(Next(c, moves[0]), moves[1..]);
    }
  }

  lemma NextKeepsConfigs(c: Connection, mv: Move)
    requires Sound(c) && CanMove(c, mv)
    ensures Next(c, mv).a.cfg == c.a.cfg && Next(c, mv).b.cfg == c.b.cfg
  {
    if mv.byA {
      EventEnabled(c.a, c.b, c.ab, c.ba, mv.act);
      StepKeeps(c.a, EventOf(c.ba, mv.act), mv.now);
    } else {
      EventEnabled(c.b, c.a, c.ba, c.ab, mv.act);
      StepKeeps(c.b, EventOf(c.ab, mv.act), mv.now);
    }
  }

  /** In the same circumstances no copy ever sent is too new for the receiver's half-window test. */
  lemma CopiesAreWithinReach(a: Config, b: Config, start: int, moves: seq<Move>, copy: Copy)
    requires Compatible(a, b) && Possible(Opened(a, b, start), moves)
    ensures var c := Outcome(Opened(a, b, start), moves);
            && (copy in c.ab.copies && Receiving(c.b.t) ==> copy.i < c.b.h.taken + HALF)
            && (copy in c.ba.copies && Receiving(c.a.t) ==> copy.i < c.a.h.taken + HALF)
  {
    OpenedIsSound(a, b, start);
    RunIsSound(Opened(a, b, start), moves);
    var c := Outcome(Opened(a, b, start), moves);
    if copy in c.ab.copies && Receiving(c.b.t) { CopyWithinReach(c.a, c.b, c.ab, copy); }
    if copy in c.ba.copies && Receiving(c.a.t) { CopyWithinReach(c.b, c.a, c.ba, copy); }
  }

  lemma CopyWithinReach(x: Endpoint, y: Endpoint, w: Wire, copy: Copy)
    requires Link(x, y, w) && copy in w.copies && Receiving(y.t)
    ensures copy.i < y.h.taken + HALF
  {
    ForwardHalf(|x.h.input|, x.s.buf, x.cfg.limit, Flushed(x.t), y.h.taken, y.r.buf, y.cfg.window, w.acks, copy.i);
  }

  /**
   * No truncation: when one side closes its local writer or finishes the handshake, and neither its receive
   * side nor the peer's send side was given up, it has written every chunk the peer ever read, and the peer
   * reads no more.
   */
  lemma NoTruncationAtEnd(a: Config, b: Config, start: int, moves: seq<Move>)
    requires Compatible(a, b) && Possible(Opened(a, b, start), moves)
    ensures var c := Outcome(Opened(a, b, start), moves);
            && (Ended(c.b.t) && !GaveUp(c.b.t) && !Flushed(c.a.t) ==> c.b.h.output == c.a.h.input && !CanRead(c.a))
            && (Ended(c.a.t) && !GaveUp(c.a.t) && !Flushed(c.b.t) ==> c.a.h.output == c.b.h.input && !CanRead(c.b))
  {
    OpenedIsSound(a, b, start);
    RunIsSound(Opened(a, b, start), moves);
  }
}
