/**
 * What the sending half keeps over every run: no unacknowledged chunk is forgotten, the retransmission timeouts
 * stay within their bounds, round-trip samples come from chunks sent once, and the scan hint is sound.
 */
module ArqSender {
  import opened SeqNum
  import opened Extrema
  import opened ArqTerm
  import opened ArqTermProofs
  import opened ArqState
  import opened ArqRuns
  import opened ArqFlow

  // ---------------------------------------------------------------------
  // The invariants
  // ---------------------------------------------------------------------

  predicate InQueue(q: TxQueue, sn: u16) {
    TxKey(Fresh, sn) in q || TxKey(Resend, sn) in q
  }

  /** Every unacknowledged chunk has its RTO timer running or a copy in the queue. */
  ghost predicate Remembered(s: Sender) {
    forall sn :: sn in s.buf ==> s.buf[sn].dispatched || InQueue(s.queue, sn)
  }

  /** The queue never holds two copies of a chunk, and only copies of unacknowledged chunks. */
  ghost predicate OneCopy(s: Sender, flushed: bool) {
    forall key :: key in s.queue ==>
      (flushed || key.sn in s.buf) && !(TxKey(Fresh, key.sn) in s.queue && TxKey(Resend, key.sn) in s.queue)
  }

  predicate RttOk(r: AdaptiveRTO, lo: int, hi: int) {
    && lo <= r.currentBase <= hi
    && (r.initialized ==> lo <= r.srtt <= hi && 0 <= r.rttvar <= Max(hi / 2, hi - lo))
  }

  predicate ItemOk(cfg: Config, item: Item, queued: bool) {
    && cfg.rto <= item.currentRTO <= cfg.maxRTO
    && item.createdAt > 0 && (item.dispatched ==> item.lastSentAt > 0)
    && (item.sampleEligible ==> item.sends + Bit(queued) <= 1)
    && (item.sampleEligible && item.dispatched ==> item.sends == 1)
  }

  ghost predicate ItemsOk(cfg: Config, s: Sender) {
    forall sn :: sn in s.buf ==> ItemOk(cfg, s.buf[sn], InQueue(s.queue, sn))
  }

  /** The instant `at` is not later than any deadline of the item. */
  predicate NotLate(at: int, item: Item) {
    && (item.dispatched ==> at <= item.lastSentAt + item.currentRTO)
    && (item.ttl > 0 ==> at <= item.createdAt + item.ttl)
  }

  /** The hint is unset or a lower bound on every deadline in the send buffer. */
  ghost predicate HintOk(s: Sender) {
    s.minRetransmitAt == 0 || forall sn :: sn in s.buf ==> NotLate(s.minRetransmitAt, s.buf[sn])
  }

  ghost predicate Healthy(cfg: Config, s: Sender, flushed: bool) {
    && Remembered(s) && OneCopy(s, flushed) && ItemsOk(cfg, s) && HintOk(s) && RttOk(s.rtt, cfg.rto, cfg.maxRTO)
  }

  // ---------------------------------------------------------------------
  // RTO arithmetic
  // ---------------------------------------------------------------------

  /** One sample, whatever it is, leaves the estimate within its bounds. */
  lemma SampleKeepsBounds(r: AdaptiveRTO, sample: int, lo: int, hi: int)
    requires RttOk(r, lo, hi) && 0 < lo <= hi
    ensures RttOk(UpdateAdaptiveRTO(r, sample, lo, hi), lo, hi)
  {
    var x := Clamp(sample, lo, hi);
    var d := if r.srtt >= x then r.srtt - x else x - r.srtt;
    if r.initialized {
      assert 0 <= d <= hi - lo;
      assert lo <= (7 * r.srtt + x) / 8 <= hi;
      assert 0 <= (3 * r.rttvar + d) / 4 <= Max(hi / 2, hi - lo);
    }
  }

  function Distance(a: int, b: int): nat {
    if a < b then b - a else a - b
  }

  /** The value of [lo, hi] nearest to `v`. */
  predicate Nearest(x: int, v: int, lo: int, hi: int) {
    lo <= x <= hi && forall y :: lo <= y <= hi ==> Distance(x, v) <= Distance(y, v)
  }

  lemma ClampIsNearest(v: int, lo: int, hi: int)
    requires lo <= hi
    ensures Nearest(Clamp(v, lo, hi), v, lo, hi)
    ensures forall x :: Nearest(x, v, lo, hi) ==> x == Clamp(v, lo, hi)
  {
    var c := Clamp(v, lo, hi);
    forall x | Nearest(x, v, lo, hi) ensures x == c {
      assert Distance(x, v) <= Distance(c, v);
    }
  }

  /** `b` lies one part in `n` of the way from `a` to `target`, rounded down. */
  predicate PartOfTheWay(a: int, target: int, n: int, b: int) {
    target - a - n < n * (b - a) <= target - a
  }

  /**
   * What a sample does to the estimate, with `x` the sample brought into bounds: the first sets srtt to it and the
   * deviation to half of it; a later one moves srtt an eighth of the way to it, without passing it, and the deviation
   * a quarter of the way to its distance from the old srtt. The base is what lies nearest to srtt plus four deviations.
   */
  predicate Sampled(r: AdaptiveRTO, x: int, lo: int, hi: int, n: AdaptiveRTO) {
    && n.initialized && Nearest(n.currentBase, n.srtt + 4 * n.rttvar, lo, hi)
    && (!r.initialized ==> n.srtt == x && x - 1 <= 2 * n.rttvar <= x)
    && (r.initialized ==>
          && PartOfTheWay(r.srtt, x, 8, n.srtt) && (r.srtt <= n.srtt <= x || x <= n.srtt <= r.srtt)
          && PartOfTheWay(r.rttvar, Distance(r.srtt, x), 4, n.rttvar))
  }

  lemma SampleMovesEstimate(r: AdaptiveRTO, sample: int, x: int, lo: int, hi: int)
    requires RttOk(r, lo, hi) && 0 < lo <= hi && Nearest(x, sample, lo, hi)
    ensures Sampled(r, x, lo, hi, UpdateAdaptiveRTO(r, sample, lo, hi))
  {
    var n := UpdateAdaptiveRTO(r, sample, lo, hi);
    ClampIsNearest(sample, lo, hi);
    ClampIsNearest(n.srtt + 4 * n.rttvar, lo, hi);
  }

  function Samples(r: AdaptiveRTO, samples: seq<int>, lo: int, hi: int): AdaptiveRTO {
    if samples == [] then r
    else UpdateAdaptiveRTO(Samples(r, samples[..|samples| - 1], lo, hi), samples[|samples| - 1], lo, hi)
  }

  /** So after any number of samples, starting from a new estimate, srtt and the base RTO are in [lo, hi]. */
  lemma {:induction false} SamplesKeepBounds(samples: seq<int>, lo: int, hi: int)
    requires 0 < lo <= hi
    ensures RttOk(Samples(AdaptiveRTO(0, 0, lo, false), samples, lo, hi), lo, hi)
    ensures samples != [] ==> Samples(AdaptiveRTO(0, 0, lo, false), samples, lo, hi).initialized
  {
    if samples != [] {
      var n := |samples| - 1;
      SamplesKeepBounds(samples[..n], lo, hi);
      SampleKeepsBounds(Samples(AdaptiveRTO(0, 0, lo, false), samples[..n], lo, hi), samples[n], lo, hi);
    }
  }

  /**
   * Under equal samples within bounds srtt never passes the sample, comes nearer with each until it is less than 8
   * away, and after as many samples as it was away it is.
   */
  lemma {:induction false} EqualSamplesSettle(r: AdaptiveRTO, samples: seq<int>, x: int, lo: int, hi: int)
    requires RttOk(r, lo, hi) && r.initialized && 0 < lo <= x <= hi
    requires forall i :: 0 <= i < |samples| ==> samples[i] == x
    ensures var n := Samples(r, samples, lo, hi);
            && RttOk(n, lo, hi) && n.initialized && (r.srtt <= n.srtt <= x || x <= n.srtt <= r.srtt)
            && (Distance(n.srtt, x) < 8 || Distance(n.srtt, x) + |samples| <= Distance(r.srtt, x))
            && (|samples| > 0 && r.srtt != x ==>
                  Distance(n.srtt, x) < Distance(r.srtt, x) || x - 8 < r.srtt == n.srtt < x)
  {
    if samples != [] {
      var k := |samples| - 1;
      var m := Samples(r, samples[..k], lo, hi);
      EqualSamplesSettle(r, samples[..k], x, lo, hi);
      SampleKeepsBounds(m, x, lo, hi);
      SampleMovesEstimate(m, x, x, lo, hi);
    }
  }

  /** A resend never shortens the timeout of a chunk, and never takes it out of its bounds. */
  lemma ResendNeverShortens(cfg: Config, s: Sender, item: Item, now: int)
    requires 0 < cfg.rto <= cfg.maxRTO && cfg.rto <= item.currentRTO <= cfg.maxRTO
    ensures item.currentRTO <= Resent(item, DataBaseRTO(cfg, s), cfg.maxRTO, now).currentRTO <= cfg.maxRTO
  {
  }

  /**
   * And it backs off: a resend makes the timeout 1.35 times as long, rounded down, unless that is below the base
   * timeout or above the maximum. It counts as a retry and bars the chunk from sampling until the new copy is out.
   */
  lemma ResendBacksOff(cfg: Config, s: Sender, item: Item, now: int)
    requires ValidConfig(cfg) && cfg.rto <= item.currentRTO <= cfg.maxRTO
    ensures var r := Resent(item, DataBaseRTO(cfg, s), cfg.maxRTO, now);
            && r.retries == item.retries + 1 && !r.sampleEligible && !r.dispatched && r.lastSentAt == now
            && r.data == item.data && r.createdAt == item.createdAt && r.ttl == item.ttl && r.sends == item.sends
            && (r.currentRTO == cfg.maxRTO || 20 * r.currentRTO > 27 * item.currentRTO - 20)
            && (20 * r.currentRTO <= 27 * item.currentRTO || r.currentRTO == DataBaseRTO(cfg, s))
            && (r.currentRTO == cfg.maxRTO || r.currentRTO >= DataBaseRTO(cfg, s))
    ensures item.currentRTO >= 3 && item.currentRTO < cfg.maxRTO ==>
              item.currentRTO < Resent(item, DataBaseRTO(cfg, s), cfg.maxRTO, now).currentRTO
  {
  }

  // ---------------------------------------------------------------------
  // Each change of the send side
  // ---------------------------------------------------------------------

  lemma EnqueueHealthy(cfg: Config, s: Sender, data: Chunk, now: int)
    requires Healthy(cfg, s, false) && ValidConfig(cfg) && s.nxt !in s.buf && now > 0
    ensures Healthy(cfg, Enqueue(cfg, s, data, now), false)
    ensures Accepts(s.queue, Fresh, s.nxt)
  {
    assert Accepts(s.queue, Fresh, s.nxt);
    var s1 := Enqueue(cfg, s, data, now);
    assert s1.queue == s.queue[TxKey(Fresh, s.nxt) := data];
    forall sn | sn in s.buf ensures InQueue(s1.queue, sn) == InQueue(s.queue, sn) {
    }
  }

  lemma PopHealthy(cfg: Config, s: Sender, key: TxKey, now: int, flushed: bool)
    requires Healthy(cfg, s, flushed) && key in s.queue && now > 0
    ensures Healthy(cfg, Pop(s, key, now), flushed)
  {
    var s1 := Pop(s, key, now);
    forall sn | sn in s.buf && sn != key.sn ensures InQueue(s1.queue, sn) == InQueue(s.queue, sn) {
    }
    assert InQueue(s.queue, key.sn) && !InQueue(s1.queue, key.sn) by {
      match key.lane
      case Fresh => assert key == TxKey(Fresh, key.sn);
      case Resend => assert key == TxKey(Resend, key.sn);
    }
  }

  lemma AcknowledgeHealthy(cfg: Config, s: Sender, sn: u16, now: int, flushed: bool)
    requires Healthy(cfg, s, flushed) && sn in s.buf && ValidConfig(cfg)
    ensures Healthy(cfg, Acknowledge(cfg, s, sn, now), flushed)
  {
    var s1 := Acknowledge(cfg, s, sn, now);
    SampleKeepsBounds(s.rtt, now - s.buf[sn].lastSentAt, cfg.rto, cfg.maxRTO);
    FreedHealthy(cfg, s, s1, sn, flushed);
  }

  lemma FreedHealthy(cfg: Config, s: Sender, s1: Sender, sn: u16, flushed: bool)
    requires Healthy(cfg, s, flushed) && RttOk(s1.rtt, cfg.rto, cfg.maxRTO)
    requires s1.buf == s.buf - {sn} && s1.queue == RemoveQueuedData(s.queue, sn)
    requires s1.minRetransmitAt == s.minRetransmitAt
    ensures Healthy(cfg, s1, flushed)
  {
    forall key ensures key in s1.queue <==> key in s.queue && key.sn != sn {
      RemovedFromQueue(s.queue, sn, key);
    }
    forall x | x in s1.buf ensures InQueue(s1.queue, x) == InQueue(s.queue, x) {
    }
  }

  /** A round-trip sample is only taken from a chunk of which one copy was ever sent. */
  lemma SamplesAreUnambiguous(cfg: Config, s: Sender, sn: u16, now: int, flushed: bool)
    requires Healthy(cfg, s, flushed) && sn in s.buf
    ensures Acknowledge(cfg, s, sn, now).rtt != s.rtt ==> s.buf[sn].sends == 1 && !InQueue(s.queue, sn)
  {
  }

  /**
   * The acknowledgement of a chunk that may be sampled moves the estimate by the time since its copy left the queue;
   * any other leaves it alone.
   */
  lemma AckMovesEstimate(cfg: Config, s: Sender, sn: u16, now: int, flushed: bool, x: int)
    requires ValidConfig(cfg) && Healthy(cfg, s, flushed) && sn in s.buf
    requires Nearest(x, now - s.buf[sn].lastSentAt, cfg.rto, cfg.maxRTO)
    ensures var item, n := s.buf[sn], Acknowledge(cfg, s, sn, now).rtt;
            if item.sampleEligible && item.dispatched then Sampled(s.rtt, x, cfg.rto, cfg.maxRTO, n) else n == s.rtt
  {
    SampleMovesEstimate(s.rtt, now - s.buf[sn].lastSentAt, x, cfg.rto, cfg.maxRTO);
  }

  lemma PushResend(q: TxQueue, sn: u16, data: Chunk, x: u16)
    requires Accepts(q, Resend, sn)
    ensures var q1 := PushTX(q, Resend, sn, data);
            InQueue(q1, x) == (InQueue(q, x) || x == sn) && (TxKey(Fresh, x) in q1 <==> TxKey(Fresh, x) in q && x != sn)
  {
  }

  /**
   * A NACK for a held chunk queues a resend in place of a fresh copy, exactly if none was honoured for it within the
   * repeat interval and no resend waits; otherwise it changes nothing of the sender. Another one is honoured only an
   * interval later.
   */
  lemma NackExactly(e: Endpoint, sn: u16, now: int)
    requires IsClosed !in e.t.flags && e.t.state != Reset && RstReceived !in e.t.flags && RstSent !in e.t.flags
    ensures var f := HandleDataNack(e, sn, now);
            if sn in e.s.buf && TxKey(Resend, sn) !in e.s.queue
               && (e.s.buf[sn].lastNackSentAt == 0 || now >= e.s.buf[sn].lastNackSentAt + e.cfg.nackRepeat)
            then
              && TxKey(Resend, sn) in f.s.queue && TxKey(Fresh, sn) !in f.s.queue
              && f.s.queue[TxKey(Resend, sn)] == e.s.buf[sn].data
              && f.s.buf.Keys == e.s.buf.Keys && f.s.buf[sn].lastNackSentAt == now && !f.s.buf[sn].sampleEligible
            else f.s == e.s
    ensures sn in e.s.buf && now != 0 && NackHonoured(e.cfg, e.s, sn, now) ==>
              forall later, queue :: now <= later < now + e.cfg.nackRepeat ==>
                !NackHonoured(e.cfg, HandleDataNack(e, sn, now).s.(queue := queue), sn, later)
  {
  }

  lemma NackHealthy(cfg: Config, s: Sender, sn: u16, now: int, flushed: bool)
    requires Healthy(cfg, s, flushed) && NackHonoured(cfg, s, sn, now)
    ensures Healthy(cfg, Resend1(s, sn, now), flushed)
  {
    var s1 := Resend1(s, sn, now);
    forall x: u16 ensures InQueue(s1.queue, x) == (InQueue(s.queue, x) || x == sn) {
      PushResend(s.queue, sn, s.buf[sn].data, x);
    }
    forall key | key in s1.queue ensures (key in s.queue && key.sn != sn) || key == TxKey(Resend, sn) {
      match key.lane
      case Fresh =>
      case Resend =>
    }
    PushResend(s.queue, sn, s.buf[sn].data, sn);
  }

  // ---------------------------------------------------------------------
  // The retransmit scan
  // ---------------------------------------------------------------------

  lemma ScannedQueue(window: int, s: Sender, due: set<u16>, sn: u16)
    requires due <= s.buf.Keys
    ensures var q := ResentQueue(window, s, due);
            if QueuedNow(window, s, due, sn)
            then (TxKey(Fresh, sn) in q <==> LaneOf(window, due, s.nxt, sn).Fresh?)
                 && (TxKey(Resend, sn) in q <==> LaneOf(window, due, s.nxt, sn).Resend?)
            else (TxKey(Fresh, sn) in q <==> TxKey(Fresh, sn) in s.queue)
                 && (TxKey(Resend, sn) in q <==> TxKey(Resend, sn) in s.queue)
  {
  }

  lemma ScannedInQueue(window: int, s: Sender, due: set<u16>, sn: u16)
    requires due <= s.buf.Keys
    ensures InQueue(ResentQueue(window, s, due), sn) == (InQueue(s.queue, sn) || QueuedNow(window, s, due, sn))
  {
    ScannedQueue(window, s, due, sn);
  }

  lemma ResentItemOk(cfg: Config, s: Sender, item: Item, now: int, queued: bool)
    requires ValidConfig(cfg) && ItemOk(cfg, item, queued) && now > 0
    ensures ItemOk(cfg, Resent(item, DataBaseRTO(cfg, s), cfg.maxRTO, now), true)
  {
    ResendNeverShortens(cfg, s, item, now);
  }

  lemma HintIsSound(buf: map<u16, Item>, sn: u16)
    requires sn in buf
    ensures NotLate(HintOf(buf), buf[sn])
  {
    if buf[sn].dispatched { assert buf[sn].lastSentAt + buf[sn].currentRTO in Deadlines(buf); }
    if buf[sn].ttl > 0 { assert buf[sn].createdAt + buf[sn].ttl in Deadlines(buf); }
  }

  lemma ScanHealthy(cfg: Config, s: Sender, now: int, flushed: bool)
    requires Healthy(cfg, s, flushed) && ValidConfig(cfg) && now > 0
    ensures Healthy(cfg, Scanned(cfg, s, now), flushed)
  {
    var due := Due(s.buf, now);
    var s1 := Scanned(cfg, s, now);
    forall sn: u16 ensures InQueue(s1.queue, sn) == (InQueue(s.queue, sn) || QueuedNow(cfg.window, s, due, sn)) {
      ScannedInQueue(cfg.window, s, due, sn);
    }
    forall sn | sn in s1.buf ensures ItemOk(cfg, s1.buf[sn], InQueue(s1.queue, sn))
        && NotLate(s1.minRetransmitAt, s1.buf[sn]) {
      HintIsSound(s1.buf, sn);
      if QueuedNow(cfg.window, s, due, sn) { ResentItemOk(cfg, s, s.buf[sn], now, InQueue(s.queue, sn)); }
    }
    ScannedOneCopy(cfg.window, s, due, flushed);
  }

  lemma ScannedOneCopy(window: int, s: Sender, due: set<u16>, flushed: bool)
    requires OneCopy(s, flushed) && due <= s.buf.Keys
    ensures forall key :: key in ResentQueue(window, s, due) ==>
              (flushed || key.sn in s.buf)
              && !(TxKey(Fresh, key.sn) in ResentQueue(window, s, due)
                  && TxKey(Resend, key.sn) in ResentQueue(window, s, due))
  {
    forall key | key in ResentQueue(window, s, due)
      ensures flushed || key.sn in s.buf
      ensures !(TxKey(Fresh, key.sn) in ResentQueue(window, s, due)
          && TxKey(Resend, key.sn) in ResentQueue(window, s, due))
    {
      ScannedQueue(window, s, due, key.sn);
    }
  }

  /**
   * A tick that skips the scan misses nothing due: no chunk's RTO ran out and no explicit TTL expired. What it can
   * miss is a chunk that used up its retries, and that is all it can miss.
   */
  lemma SkippedScanMissesNothing(cfg: Config, s: Sender, now: int, flushed: bool)
    requires Healthy(cfg, s, flushed) && Skips(s, now)
    ensures Due(s.buf, now) == {}
    ensures GivesUp(cfg, s, now) <==> AnyRetryExceeded(cfg, s.buf, now)
    ensures ResendDue(cfg, s, now) == s
  {
    assert Due(s.buf, now) == {};
    assert ResentBuf(cfg, s, now) == s.buf;
    assert ResentQueue(cfg.window, s, {}) == s.queue;
  }

  /** A drain toward RST is pending while some chunk has used up its lifetime. */
  predicate Stalled(e: Endpoint, now: int) {
    && DeferredClose in e.t.flags && e.t.deferredPacket == Rst && now <= e.t.deferredDeadline
    && GivesUp(e.cfg, e.s, now)
  }
}
