/**
 * One direction of a connection, seen through unbounded chunk indices: what the sequence numbers in the two
 * buffers stand for, and what a batch and a drain do to that. Everything here is about wrap-around.
 */
module ArqLink {
  import opened SeqNum
  import opened ArqTerm
  import opened ArqState

  /** A copy of a chunk, and an acknowledgement of one; `i` is the index of the chunk, which is not on the wire. */
  datatype Copy = Copy(i: int, sn: u16, data: Chunk)
  datatype Tag = Tag(i: int, sn: u16)

  predicate Genuine(input: seq<Chunk>, c: Copy) {
    0 <= c.i < |input| && c.sn == Wrap(c.i) && c.data == input[c.i]
  }

  /** The index an unacknowledged sequence number stands for when `n` chunks were read. */
  function SentIndex(n: nat, sn: u16): int {
    Lift(n - MODULUS, sn)
  }

  ghost predicate SentMatch(input: seq<Chunk>, buf: map<u16, Item>) {
    forall sn :: sn in buf ==> 0 <= SentIndex(|input|, sn) && buf[sn].data == input[SentIndex(|input|, sn)]
  }

  /** Every buffered chunk is the one its number stands for, no farther than the window from the next expected. */
  ghost predicate HeldMatch(input: seq<Chunk>, taken: nat, window: int, buf: map<u16, Chunk>) {
    forall sn :: sn in buf ==>
      Lift(taken, sn) < |input| && Lift(taken, sn) <= taken + window && buf[sn] == input[Lift(taken, sn)]
  }

  /** Chunk `i` was taken out of the receive buffer already or is in it. */
  predicate Received(taken: nat, buf: map<u16, Chunk>, i: int) {
    i < taken || Wrap(i) in buf
  }

  /** One more chunk read does not change what a number stands for, unless it is the new chunk's own. */
  lemma IndexStable(n: nat, sn: u16)
    ensures sn != Wrap(n) ==> SentIndex(n + 1, sn) == SentIndex(n, sn)
    ensures SentIndex(n + 1, Wrap(n)) == n
    ensures SentIndex(n, sn) < n
  {
    LiftUnique(n + 1 - MODULUS, n);
    LiftSpec(n - MODULUS, sn);
    assert Wrap(n - MODULUS) == Wrap(n);
    if sn != Wrap(n) { LiftUnique(n + 1 - MODULUS, SentIndex(n, sn)); }
  }

  /** Reading a chunk keeps every number's meaning unless the new number is still in use. */
  lemma SentAppend(input: seq<Chunk>, buf: map<u16, Item>, data: Chunk, item: Item)
    requires SentMatch(input, buf) && Wrap(|input|) !in buf && item.data == data
    ensures SentMatch(input + [data], buf[Wrap(|input|) := item])
  {
    var buf1, input1 := buf[Wrap(|input|) := item], input + [data];
    forall sn | sn in buf1
      ensures 0 <= SentIndex(|input1|, sn) && buf1[sn].data == input1[SentIndex(|input1|, sn)]
    {
      IndexStable(|input|, sn);
    }
  }

  // ---------------------------------------------------------------------
  // A batch
  // ---------------------------------------------------------------------

  function PacketsOf(batch: seq<Copy>): (r: seq<Packet>)
    ensures |r| == |batch| && forall k :: 0 <= k < |batch| ==> r[k] == Packet(batch[k].sn, batch[k].data)
  {
    seq(|batch|, k requires 0 <= k < |batch| => Packet(batch[k].sn, batch[k].data))
  }

  /** A copy that is not older than 65536 minus the window is acknowledged or kept only for what it is. */
  lemma ClassifyByIndex(window: int, taken: nat, buf: map<u16, Chunk>, i: int)
    requires taken - (MODULUS - window) < i < taken + HALF && 0 <= window < HALF
    ensures var v := Classify(window, Wrap(taken), buf, Wrap(i));
            && (v.Old? ==> i < taken)
            && (v.Duplicate? || v.New? ==> taken <= i <= taken + window && Lift(taken, Wrap(i)) == i)
            && (v.Duplicate? ==> Wrap(i) in buf)
  {
    ClassificationExact(i, taken);
    if i >= taken {
      SubWrap(i, taken);
      LiftUnique(taken, i);
    } else {
      SubWrapBehind(i, taken);
    }
  }

  /** The bound is exact: a copy of a chunk already taken passes for a chunk to come if and only if it is older. */
  lemma StaleCopyExact(window: int, taken: nat, buf: map<u16, Chunk>, i: int)
    requires taken - MODULUS < i < taken && 0 <= window < HALF
    ensures var v := Classify(window, Wrap(taken), buf, Wrap(i));
            !v.Old? && !v.Beyond? <==> taken - i >= MODULUS - window
  {
    ClassificationExact(i, taken);
    SubWrapBehind(i, taken);
  }

  /** What is required of the copies of a batch: genuine, not too old for the test and not too new. */
  predicate Usable(input: seq<Chunk>, taken: nat, window: int, batch: seq<Copy>) {
    forall k :: 0 <= k < |batch| ==>
      Genuine(input, batch[k]) && taken - (MODULUS - window) < batch[k].i < taken + HALF
  }

  lemma {:induction false} BatchMatches(input: seq<Chunk>, taken: nat, window: int, buf: map<u16, Chunk>,
                                        batch: seq<Copy>)
    requires HeldMatch(input, taken, window, buf) && 0 <= window < HALF && Usable(input, taken, window, batch)
    ensures HeldMatch(input, taken, window, Insert(window, Wrap(taken), buf, PacketsOf(batch)))
    ensures buf.Keys <= Insert(window, Wrap(taken), buf, PacketsOf(batch)).Keys
    decreases |batch|
  {
    if batch != [] {
      var n := |batch| - 1;
      assert PacketsOf(batch)[..n] == PacketsOf(batch[..n]);
      BatchMatches(input, taken, window, buf, batch[..n]);
      ClassifyByIndex(window, taken, Insert(window, Wrap(taken), buf, PacketsOf(batch[..n])), batch[n].i);
    }
  }

  /** What one more copy acknowledges has been received once it is through. */
  lemma LastAckReceived(window: int, taken: nat, buf: map<u16, Chunk>, c: Copy)
    requires taken - (MODULUS - window) < c.i < taken + HALF && 0 <= window < HALF && c.sn == Wrap(c.i)
    requires Acked(Classify(window, Wrap(taken), buf, c.sn))
    ensures var buf1 := if Classify(window, Wrap(taken), buf, c.sn).New? then buf[c.sn := c.data] else buf;
            Received(taken, buf1, c.i)
  {
    ClassifyByIndex(window, taken, buf, c.i);
  }

  lemma VerdictOfFront(window: int, nxt: u16, buf: map<u16, Chunk>, batch: seq<Packet>, k: nat)
    requires k < |batch| - 1
    ensures VerdictAt(window, nxt, buf, batch[..|batch| - 1], k) == VerdictAt(window, nxt, buf, batch, k)
  {
    assert batch[..|batch| - 1][..k] == batch[..k];
  }

  lemma ReceivedStays(window: int, nxt: u16, taken: nat, buf: map<u16, Chunk>, batch: seq<Packet>, i: int)
    requires batch != [] && Received(taken, Insert(window, nxt, buf, batch[..|batch| - 1]), i)
    ensures Received(taken, Insert(window, nxt, buf, batch), i)
  {
  }

  lemma LastOfBatch(window: int, taken: nat, buf: map<u16, Chunk>, batch: seq<Packet>, c: Copy)
    requires batch != [] && batch[|batch| - 1] == Packet(c.sn, c.data) && c.sn == Wrap(c.i)
    requires taken - (MODULUS - window) < c.i < taken + HALF && 0 <= window < HALF
    requires Acked(VerdictAt(window, Wrap(taken), buf, batch, |batch| - 1))
    ensures Received(taken, Insert(window, Wrap(taken), buf, batch), c.i)
  {
    LastAckReceived(window, taken, Insert(window, Wrap(taken), buf, batch[..|batch| - 1]), c);
  }

  /** Whatever a batch acknowledges has been received once the batch is through. */
  lemma {:induction false} BatchAcksReceived(input: seq<Chunk>, taken: nat, window: int, buf: map<u16, Chunk>,
                                             batch: seq<Copy>, k: nat)
    requires 0 <= window < HALF && Usable(input, taken, window, batch) && k < |batch|
    requires Acked(VerdictAt(window, Wrap(taken), buf, PacketsOf(batch), k))
    ensures Received(taken, Insert(window, Wrap(taken), buf, PacketsOf(batch)), batch[k].i)
    decreases |batch|
  {
    var n := |batch| - 1;
    var ps := PacketsOf(batch);
    if k < n {
      var front := batch[..n];
      assert ps[..n] == PacketsOf(front);
      VerdictOfFront(window, Wrap(taken), buf, ps, k);
      BatchAcksReceived(input, taken, window, buf, front, k);
      ReceivedStays(window, Wrap(taken), taken, buf, ps, batch[k].i);
    } else {
      LastOfBatch(window, taken, buf, ps, batch[n]);
    }
  }

  // Which copies are acknowledged

  /** Buffered numbers lie no farther than the window from the next expected one. */
  ghost predicate InWindow(window: int, nxt: u16, buf: map<u16, Chunk>) {
    forall sn :: sn in buf ==> Sub(sn, nxt) <= window
  }

  function AfterOne(window: int, nxt: u16, buf: map<u16, Chunk>, p: Packet): map<u16, Chunk> {
    if Classify(window, nxt, buf, p.sn).New? then buf[p.sn := p.data] else buf
  }

  /**
   * The number of a packet is buffered once the packet is through, exactly if it was before or lies within the window
   * and the buffer has room or it is the next expected one; every other number is as before.
   */
  lemma AcceptedExactly(window: int, nxt: u16, buf: map<u16, Chunk>, p: Packet, sn: u16)
    requires 0 <= window < HALF
    ensures sn in AfterOne(window, nxt, buf, p) <==>
            sn in buf || (sn == p.sn && Sub(sn, nxt) <= window && (|buf| < window || sn == nxt))
    ensures sn in buf ==> AfterOne(window, nxt, buf, p)[sn] == buf[sn]
    ensures sn !in buf && sn in AfterOne(window, nxt, buf, p) ==> AfterOne(window, nxt, buf, p)[sn] == p.data
  {
  }

  /** A batch is its first part and then the rest. */
  lemma {:induction false} InsertSplits(window: int, nxt: u16, buf: map<u16, Chunk>, a: seq<Packet>, b: seq<Packet>)
    ensures Insert(window, nxt, buf, a + b) == Insert(window, nxt, Insert(window, nxt, buf, a), b)
    decreases |b|
  {
    if b == [] {
      assert a + b == a;
    } else {
      var n := |b| - 1;
      assert (a + b)[..|a + b| - 1] == a + b[..n] && (a + b)[|a + b| - 1] == b[n];
      InsertSplits(window, nxt, buf, a, b[..n]);
    }
  }

  /** A number ahead that is refused is refused again while the buffer does not shrink. */
  lemma RefusedAgain(window: int, nxt: u16, first: map<u16, Chunk>, before: map<u16, Chunk>, p: Packet, sn: u16)
    requires Sub(sn, nxt) < HALF && !Acked(Classify(window, nxt, first, sn))
    requires sn !in first && sn !in before && |before| >= |first|
    ensures sn !in AfterOne(window, nxt, before, p)
  {
  }

  lemma AfterOneGrows(window: int, nxt: u16, buf: map<u16, Chunk>, p: Packet)
    ensures buf.Keys <= AfterOne(window, nxt, buf, p).Keys && |buf| <= |AfterOne(window, nxt, buf, p)|
  {
    var after := AfterOne(window, nxt, buf, p);
    if after != buf {
      RemoveShrinks(after, p.sn);
      assert after - {p.sn} == buf;
    }
  }

  /** So it stays out for the rest of the batch. */
  lemma {:induction false} RefusedStaysOut(window: int, nxt: u16, first: map<u16, Chunk>, batch: seq<Packet>, sn: u16)
    requires Sub(sn, nxt) < HALF && !Acked(Classify(window, nxt, first, sn)) && sn !in first
    ensures sn !in Insert(window, nxt, first, batch) && |Insert(window, nxt, first, batch)| >= |first|
    decreases |batch|
  {
    if batch != [] {
      var n := |batch| - 1;
      var before := Insert(window, nxt, first, batch[..n]);
      RefusedStaysOut(window, nxt, first, batch[..n], sn);
      RefusedAgain(window, nxt, first, before, batch[n], sn);
      AfterOneGrows(window, nxt, before, batch[n]);
    }
  }

  lemma {:induction false} InsertGrows(window: int, nxt: u16, buf: map<u16, Chunk>, batch: seq<Packet>)
    ensures buf.Keys <= Insert(window, nxt, buf, batch).Keys
    decreases |batch|
  {
    if batch != [] {
      InsertGrows(window, nxt, buf, batch[..|batch| - 1]);
      AfterOneGrows(window, nxt, Insert(window, nxt, buf, batch[..|batch| - 1]), batch[|batch| - 1]);
    }
  }

  lemma {:induction false} InsertInWindow(window: int, nxt: u16, buf: map<u16, Chunk>, batch: seq<Packet>)
    requires InWindow(window, nxt, buf)
    ensures InWindow(window, nxt, Insert(window, nxt, buf, batch))
    decreases |batch|
  {
    if batch != [] { InsertInWindow(window, nxt, buf, batch[..|batch| - 1]); }
  }

  /**
   * A packet is acknowledged if and only if its number lies behind the next expected one, by the half-window test, or
   * is buffered when the batch is through.
   */
  lemma AckedExactly(window: int, nxt: u16, buf: map<u16, Chunk>, batch: seq<Packet>, k: nat)
    requires k < |batch| && InWindow(window, nxt, buf)
    ensures Acked(VerdictAt(window, nxt, buf, batch, k)) <==>
            Sub(batch[k].sn, nxt) >= HALF || batch[k].sn in Insert(window, nxt, buf, batch)
  {
    var sn, before := batch[k].sn, Insert(window, nxt, buf, batch[..k]);
    var through := Insert(window, nxt, before, [batch[k]]);
    InsertInWindow(window, nxt, buf, batch[..k]);
    assert batch[..k] + batch[k..] == batch && [batch[k]] + batch[k + 1..] == batch[k..];
    InsertSplits(window, nxt, buf, batch[..k], batch[k..]);
    InsertSplits(window, nxt, before, [batch[k]], batch[k + 1..]);
    InsertGrows(window, nxt, through, batch[k + 1..]);
    InsertOne(window, nxt, before, batch[k]);
    if Sub(sn, nxt) < HALF && !Acked(Classify(window, nxt, before, sn)) {
      RefusedStaysOut(window, nxt, before, batch[k..], sn);
    }
  }

  lemma InsertOne(window: int, nxt: u16, buf: map<u16, Chunk>, p: Packet)
    ensures Insert(window, nxt, buf, [p]) == AfterOne(window, nxt, buf, p)
  {
    assert [p][..0] == [];
  }

  /**
   * By indices: a processed copy of a chunk already taken is acknowledged if and only if it is at most 32768 chunks
   * behind, and a copy of one to come if and only if that chunk is buffered when the batch is through.
   */
  lemma ReceivedIsAcked(input: seq<Chunk>, taken: nat, window: int, buf: map<u16, Chunk>, batch: seq<Copy>, k: nat)
    requires HeldMatch(input, taken, window, buf) && 0 <= window < HALF && Usable(input, taken, window, batch)
    requires k < |batch|
    ensures var after := Insert(window, Wrap(taken), buf, PacketsOf(batch));
            Acked(VerdictAt(window, Wrap(taken), buf, PacketsOf(batch), k)) <==>
            if batch[k].i < taken then taken - batch[k].i <= HALF else Received(taken, after, batch[k].i)
  {
    var i := batch[k].i;
    HeldInWindow(input, taken, window, buf);
    AckedExactly(window, Wrap(taken), buf, PacketsOf(batch), k);
    InsertInWindow(window, Wrap(taken), buf, PacketsOf(batch));
    if i < taken { SubWrapBehind(i, taken); } else { SubWrap(i, taken); }
  }

  /** A resent copy of chunk 0 that arrives when 40000 chunks were taken is dropped without an acknowledgement. */
  lemma FarBehindIsDropped()
    ensures Classify(300, Wrap(40000), map[], Wrap(0)).Beyond?
  {
    SubWrapBehind(0, 40000);
  }

  lemma HeldInWindow(input: seq<Chunk>, taken: nat, window: int, buf: map<u16, Chunk>)
    requires HeldMatch(input, taken, window, buf)
    ensures InWindow(window, Wrap(taken), buf)
  {
    forall sn | sn in buf ensures Sub(sn, Wrap(taken)) <= window {
      LiftSpec(taken, sn);
      SubWrap(Lift(taken, sn), taken);
    }
  }

  /** The buffer never exceeds the window by more than the chunk expected next. */
  predicate Fits(window: int, nxt: u16, buf: map<u16, Chunk>) {
    |buf| <= window + 1 && (nxt !in buf ==> |buf| <= window)
  }

  lemma InsertOneFits(window: int, nxt: u16, buf: map<u16, Chunk>, p: Packet)
    requires 0 <= window && Fits(window, nxt, buf) && Classify(window, nxt, buf, p.sn).New?
    ensures Fits(window, nxt, buf[p.sn := p.data])
  {
    var buf1 := buf[p.sn := p.data];
    assert buf1 - {p.sn} == buf;
    RemoveShrinks(buf1, p.sn);
  }

  lemma {:induction false} BatchFits(window: int, nxt: u16, buf: map<u16, Chunk>, batch: seq<Packet>)
    requires 0 <= window && Fits(window, nxt, buf)
    ensures Fits(window, nxt, Insert(window, nxt, buf, batch))
    decreases |batch|
  {
    if batch != [] {
      var n := |batch| - 1;
      BatchFits(window, nxt, buf, batch[..n]);
      var b := Insert(window, nxt, buf, batch[..n]);
      if Classify(window, nxt, b, batch[n].sn).New? { InsertOneFits(window, nxt, b, batch[n]); }
    }
  }

  /** The chunk expected next is never refused, however full the buffer is. */
  lemma {:induction false} ExpectedIsKept(window: int, nxt: u16, buf: map<u16, Chunk>, batch: seq<Packet>, k: nat)
    requires 0 <= window && k < |batch| && batch[k].sn == nxt
    ensures nxt in Insert(window, nxt, buf, batch) && Acked(VerdictAt(window, nxt, buf, batch, k))
    decreases |batch|
  {
    var n := |batch| - 1;
    if k < n {
      assert batch[..n][..k] == batch[..k];
      ExpectedIsKept(window, nxt, buf, batch[..n], k);
    }
  }

  // ---------------------------------------------------------------------
  // A drain
  // ---------------------------------------------------------------------

  /** Taking the expected chunk leaves the others standing for what they stood for. */
  lemma TakeOne(input: seq<Chunk>, taken: nat, window: int, buf: map<u16, Chunk>)
    requires HeldMatch(input, taken, window, buf) && Wrap(taken) in buf && 0 <= window < HALF
    ensures taken < |input| && buf[Wrap(taken)] == input[taken]
    ensures HeldMatch(input, taken + 1, window, buf - {Wrap(taken)})
    ensures Inc(Wrap(taken)) == Wrap(taken + 1)
  {
    LiftUnique(taken, taken);
    WrapStep(taken);
    forall sn | sn in buf && sn != Wrap(taken) ensures Lift(taken + 1, sn) == Lift(taken, sn) {
      LiftSpec(taken, sn);
      LiftUnique(taken + 1, Lift(taken, sn));
    }
  }

  lemma DrainUnfolds(taken: nat, buf: map<u16, Chunk>)
    requires Wrap(taken) in buf
    ensures var rest := buf - {Wrap(taken)};
            && |rest| == |buf| - 1
            && Ready(buf, Wrap(taken)) == [buf[Wrap(taken)]] + Ready(rest, Wrap(taken + 1))
            && Rest(buf, Wrap(taken)) == Rest(rest, Wrap(taken + 1))
  {
    RemoveShrinks(buf, Wrap(taken));
    WrapStep(taken);
  }

  lemma Chain(input: seq<Chunk>, taken: nat, chunks: seq<Chunk>)
    requires taken + 1 + |chunks| <= |input| && chunks == input[taken + 1..taken + 1 + |chunks|]
    ensures [input[taken]] + chunks == input[taken..taken + 1 + |chunks|]
  {
  }

  /** A drain takes exactly the next chunks of the input, in order. */
  lemma {:induction false} DrainTakesPrefix(input: seq<Chunk>, taken: nat, window: int, buf: map<u16, Chunk>)
    requires HeldMatch(input, taken, window, buf) && taken <= |input| && 0 <= window < HALF
    ensures var k := |Ready(buf, Wrap(taken))|;
            taken + k <= |input| && Ready(buf, Wrap(taken)) == input[taken..taken + k]
    decreases |buf|
  {
    if Wrap(taken) in buf {
      var rest := buf - {Wrap(taken)};
      TakeOne(input, taken, window, buf);
      DrainUnfolds(taken, buf);
      DrainTakesPrefix(input, taken + 1, window, rest);
      Chain(input, taken, Ready(rest, Wrap(taken + 1)));
    }
  }

  /** What it leaves still stands for what it stood for. */
  lemma {:induction false} DrainKeepsMatch(input: seq<Chunk>, taken: nat, window: int, buf: map<u16, Chunk>)
    requires HeldMatch(input, taken, window, buf) && 0 <= window < HALF
    ensures HeldMatch(input, taken + |Ready(buf, Wrap(taken))|, window, Rest(buf, Wrap(taken)))
    decreases |buf|
  {
    if Wrap(taken) in buf {
      TakeOne(input, taken, window, buf);
      DrainUnfolds(taken, buf);
      DrainKeepsMatch(input, taken + 1, window, buf - {Wrap(taken)});
    }
  }

  /** A drain stops at a gap. */
  lemma {:induction false} DrainStopsAtGap(taken: nat, buf: map<u16, Chunk>)
    ensures Wrap(taken + |Ready(buf, Wrap(taken))|) !in Rest(buf, Wrap(taken))
    decreases |buf|
  {
    if Wrap(taken) in buf {
      DrainUnfolds(taken, buf);
      DrainStopsAtGap(taken + 1, buf - {Wrap(taken)});
    }
  }

  lemma {:induction false} DrainShrinks(taken: nat, buf: map<u16, Chunk>)
    ensures |Rest(buf, Wrap(taken))| == |buf| - |Ready(buf, Wrap(taken))|
    decreases |buf|
  {
    if Wrap(taken) in buf {
      DrainUnfolds(taken, buf);
      DrainShrinks(taken + 1, buf - {Wrap(taken)});
    }
  }

  /** No chunk is lost between the buffer and what was taken. */
  lemma {:induction false} DrainKeepsReceived(taken: nat, buf: map<u16, Chunk>, i: int)
    requires Received(taken, buf, i) && i < taken + MODULUS
    ensures Received(taken + |Ready(buf, Wrap(taken))|, Rest(buf, Wrap(taken)), i)
    decreases |buf|
  {
    if Wrap(taken) in buf {
      DrainUnfolds(taken, buf);
      if i > taken && Wrap(i) == Wrap(taken) { SameWire(i, taken); }
      DrainKeepsReceived(taken + 1, buf - {Wrap(taken)}, i);
    }
  }

  // ---------------------------------------------------------------------
  // Conservation
  // ---------------------------------------------------------------------

  /** Every chunk read is still unacknowledged at the sender or was received. */
  ghost predicate Conserved(n: nat, sent: map<u16, Item>, taken: nat, held: map<u16, Chunk>) {
    forall i :: taken <= i < n ==> Wrap(i) in sent || Wrap(i) in held
  }

  /** An acknowledgement frees only a chunk that was received. */
  lemma AckConserves(n: nat, sent: map<u16, Item>, taken: nat, held: map<u16, Chunk>, i: int)
    requires Conserved(n, sent, taken, held) && n - taken < MODULUS
    requires 0 <= i < n && n - i <= MODULUS && Received(taken, held, i)
    ensures Conserved(n, sent - {Wrap(i)}, taken, held)
  {
    forall j | taken <= j < n && Wrap(j) !in held ensures Wrap(j) in sent - {Wrap(i)} {
      if Wrap(j) == Wrap(i) { SameWire(j, i); }
    }
  }

  lemma {:induction false} CountWindow(lo: int, hi: int, sent: set<u16>)
    requires lo <= hi <= lo + MODULUS
    requires forall i :: lo <= i < hi ==> Wrap(i) in sent
    ensures hi - lo <= |sent|
    decreases hi - lo
  {
    if lo < hi {
      forall i | lo <= i < hi - 1 ensures Wrap(i) in sent - {Wrap(hi - 1)} {
        if Wrap(i) == Wrap(hi - 1) { SameWire(i, hi - 1); }
      }
      CountWindow(lo, hi - 1, sent - {Wrap(hi - 1)});
    }
  }

  /** The sender is never more than window + limit + 1 chunks ahead of what the receiver took. */
  lemma SpanBound(input: seq<Chunk>, sent: map<u16, Item>, taken: nat, held: map<u16, Chunk>, window: int, limit: int)
    requires Conserved(|input|, sent, taken, held) && HeldMatch(input, taken, window, held)
    requires |sent| <= limit && 0 <= window && window + limit < HALF && |input| - taken < MODULUS
    ensures |input| - taken <= window + limit + 1
  {
    var lo := taken + window + 1;
    if lo < |input| {
      forall i | lo <= i < |input| ensures Wrap(i) in sent {
        LiftUnique(taken, i);
      }
      CountWindow(lo, |input|, sent.Keys);
      assert |sent.Keys| == |sent|;
    }
  }

  // ---------------------------------------------------------------------
  // The flow of one direction
  // ---------------------------------------------------------------------

  /** No chunk is lost: an acknowledged chunk was received, and any other chunk read is unacknowledged or received. */
  ghost predicate Flow(n: nat, sent: map<u16, Item>, limit: int, flushed: bool,
                       taken: nat, held: map<u16, Chunk>, window: int, acks: set<Tag>) {
    && n - taken <= window + limit + 1
    && (forall a :: a in acks ==> Received(taken, held, a.i))
    && (!flushed ==> Conserved(n, sent, taken, held))
  }

  lemma FlowRead(input: seq<Chunk>, sent: map<u16, Item>, limit: int, data: Chunk, item: Item,
                 taken: nat, held: map<u16, Chunk>, window: int, acks: set<Tag>)
    requires Flow(|input|, sent, limit, false, taken, held, window, acks) && HeldMatch(input, taken, window, held)
    requires Wrap(|input|) !in sent && |sent| < limit && 0 <= window && window + limit < HALF
    ensures Flow(|input| + 1, sent[Wrap(|input|) := item], limit, false, taken, held, window, acks)
  {
    var sent1 := sent[Wrap(|input|) := item];
    assert sent1 - {Wrap(|input|)} == sent;
    RemoveShrinks(sent1, Wrap(|input|));
    assert Conserved(|input| + 1, sent1, taken, held);
    assert HeldMatch(input + [data], taken, window, held);
    SpanBound(input + [data], sent1, taken, held, window, limit);
  }

  lemma FlowAck(n: nat, sent: map<u16, Item>, limit: int, flushed: bool,
                taken: nat, held: map<u16, Chunk>, window: int, acks: set<Tag>, a: Tag)
    requires Flow(n, sent, limit, flushed, taken, held, window, acks)
    requires a in acks && 0 <= a.i < n && a.sn == Wrap(a.i) && n - a.i <= MODULUS
    requires 0 <= window && 0 <= limit && window + limit < HALF
    ensures Flow(n, sent - {a.sn}, limit, flushed, taken, held, window, acks)
  {
    if !flushed { AckConserves(n, sent, taken, held, a.i); }
  }

  /** Copies that were sent are within reach of the receiver's test as soon as they are not too old. */
  lemma ForwardHalf(n: nat, sent: map<u16, Item>, limit: int, flushed: bool,
                    taken: nat, held: map<u16, Chunk>, window: int, acks: set<Tag>, i: int)
    requires Flow(n, sent, limit, flushed, taken, held, window, acks) && i < n && window + limit < HALF
    ensures i < taken + HALF
  {
  }

  lemma FlowBatch(n: nat, sent: map<u16, Item>, limit: int, flushed: bool,
                  taken: nat, held: map<u16, Chunk>, held1: map<u16, Chunk>, window: int,
                  acks: set<Tag>, more: set<Tag>)
    requires Flow(n, sent, limit, flushed, taken, held, window, acks) && held.Keys <= held1.Keys
    requires forall a :: a in more ==> Received(taken, held1, a.i)
    ensures Flow(n, sent, limit, flushed, taken, held1, window, acks + more)
  {
    assert forall sn :: sn in held ==> sn in held1;
  }

  lemma FlowDrain(n: nat, sent: map<u16, Item>, limit: int, flushed: bool,
                  taken: nat, held: map<u16, Chunk>, window: int, acks: set<Tag>)
    requires Flow(n, sent, limit, flushed, taken, held, window, acks)
    requires (forall a :: a in acks ==> a.i < n) && window + limit < HALF
    ensures Flow(n, sent, limit, flushed, taken + |Ready(held, Wrap(taken))|, Rest(held, Wrap(taken)), window, acks)
  {
    forall i | i < n && Received(taken, held, i)
      ensures Received(taken + |Ready(held, Wrap(taken))|, Rest(held, Wrap(taken)), i)
    {
      DrainKeepsReceived(taken, held, i);
    }
    forall i | taken + |Ready(held, Wrap(taken))| <= i < n && !flushed
      ensures Wrap(i) in sent || Wrap(i) in Rest(held, Wrap(taken))
    {
      if Wrap(i) !in sent { DrainKeepsReceived(taken, held, i); }
    }
  }

  /** With nothing unacknowledged and the next chunk missing, everything read was taken. */
  lemma FlowComplete(n: nat, sent: map<u16, Item>, limit: int, taken: nat, held: map<u16, Chunk>, window: int,
                     acks: set<Tag>)
    requires Flow(n, sent, limit, false, taken, held, window, acks) && sent == map[] && taken <= n
    requires Wrap(taken) !in held
    ensures taken == n
  {
  }
}
