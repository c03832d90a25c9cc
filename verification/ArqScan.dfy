/** The retransmit scan in steps: whatever order the map is walked in, the result is the one of a whole scan. */
module ArqScan {
  import opened SeqNum
  import opened Extrema
  import opened ArqTerm
  import opened ArqState
  import opened ArqPriority
  import opened ArqSender

  /** Some order in which a set is walked, as `range` over a map picks one. */
  method Enumerate<T(==)>(s: set<T>) returns (order: seq<T>)
    ensures forall i, j :: 0 <= i < j < |order| ==> order[i] != order[j]
    ensures forall x :: x in order <==> x in s
  {
    order := [];
    var rest := s;
    while rest != {}
      invariant rest <= s
      invariant forall i, j :: 0 <= i < j < |order| ==> order[i] != order[j]
      invariant forall x :: x in order <==> x in s && x !in rest
      decreases |rest|
    {
      var x :| x in rest;
      rest := rest - {x};
      order := order + [x];
    }
  }

  // ---------------------------------------------------------------------
  // Looking for due chunks
  // ---------------------------------------------------------------------

  /** The first loop of checkRetransmits: collect due chunks unless some chunk has to be given up on. */
  method ScanSendBuffer(cfg: Config, buf: map<u16, Item>, now: int)
    returns (jobs: seq<u16>, ttlExpired: bool, retryExceeded: bool)
    ensures Distinct(jobs) && forall sn :: sn in jobs ==> sn in buf
    ensures ttlExpired || retryExceeded <==> AnyTtlExpired(buf, now) || AnyRetryExceeded(cfg, buf, now)
    ensures !ttlExpired && !retryExceeded ==> Elements(jobs) == Due(buf, now)
    ensures !ttlExpired && !retryExceeded ==>
              forall sn :: sn in jobs <==>
                sn in buf && buf[sn].dispatched && now >= buf[sn].lastSentAt + buf[sn].currentRTO
    ensures ttlExpired || retryExceeded <==>
            exists sn :: sn in buf
              && if buf[sn].ttl > 0 then now >= buf[sn].createdAt + buf[sn].ttl
                 else now >= buf[sn].createdAt + cfg.dataPacketTTL && buf[sn].retries >= cfg.maxDataRetries
  {
    jobs, ttlExpired, retryExceeded := [], false, false;
    var order := Enumerate(buf.Keys);
    for i := 0 to |order|
      invariant !ttlExpired && !retryExceeded && Distinct(jobs)
      invariant forall sn :: sn in order[..i] ==> !TtlExpired(buf[sn], now) && !RetryExceeded(cfg, buf[sn], now)
      invariant forall sn :: sn in jobs <==> sn in order[..i] && RtoDue(buf[sn], now)
    {
      var sn := order[i];
      var item := buf[sn];
      assert sn !in order[..i];
      assert order[..i + 1] == order[..i] + [sn];
      if item.ttl > 0 {
        if now - item.createdAt >= item.ttl {
          ttlExpired := true;
          assert TtlExpired(buf[sn], now);
          return;
        }
      } else if now - item.createdAt >= cfg.dataPacketTTL && item.retries >= cfg.maxDataRetries {
        retryExceeded := true;
        assert RetryExceeded(cfg, buf[sn], now);
        return;
      }
      if item.dispatched && now - item.lastSentAt >= item.currentRTO {
        jobs := jobs + [sn];
      }
    }
    assert order[..|order|] == order;
  }

  // ---------------------------------------------------------------------
  // Queueing them
  // ---------------------------------------------------------------------

  /** The send buffer and the queue once the due chunks in `done` were offered to the queue. */
  ghost predicate Requeued(cfg: Config, s: Sender, now: int, due: set<u16>, done: set<u16>, buf: map<u16, Item>,
                           queue: TxQueue) {
    RequeuedBuf(cfg, s, now, due, done, buf) && RequeuedQueue(cfg, s, due, done, queue)
  }

  ghost predicate RequeuedBuf(cfg: Config, s: Sender, now: int, due: set<u16>, done: set<u16>, buf: map<u16, Item>) {
    && buf.Keys == s.buf.Keys
    && (forall sn :: sn in buf ==>
          buf[sn] == (if sn in done && QueuedNow(cfg.window, s, due, sn)
                      then Resent(s.buf[sn], DataBaseRTO(cfg, s), cfg.maxRTO, now) else s.buf[sn]))
  }

  ghost predicate RequeuedQueue(cfg: Config, s: Sender, due: set<u16>, done: set<u16>, queue: TxQueue) {
    && (forall key :: key in queue <==>
          if key.sn in done && QueuedNow(cfg.window, s, due, key.sn)
          then key.lane == LaneOf(cfg.window, due, s.nxt, key.sn) else key in s.queue)
    && (forall key :: key in queue && key.sn in s.buf ==>
          queue[key] == (if key.sn in done && QueuedNow(cfg.window, s, due, key.sn)
                         then s.buf[key.sn].data else s.queue[key]))
    && (forall key :: key in queue && key.sn !in s.buf ==> key in s.queue && queue[key] == s.queue[key])
  }

  lemma RequeuedNone(cfg: Config, s: Sender, now: int, due: set<u16>)
    ensures Requeued(cfg, s, now, due, {}, s.buf, s.queue)
  {
  }

  lemma RequeuedAllBuf(cfg: Config, s: Sender, now: int, buf: map<u16, Item>)
    requires RequeuedBuf(cfg, s, now, Due(s.buf, now), Due(s.buf, now), buf)
    ensures buf == ResentBuf(cfg, s, now)
  {
  }

  lemma RequeuedAllKeys(cfg: Config, s: Sender, due: set<u16>, queue: TxQueue, key: TxKey)
    requires RequeuedQueue(cfg, s, due, due, queue) && due <= s.buf.Keys
    ensures key in queue <==> key in ResentQueue(cfg.window, s, due)
  {
    assert key == TxKey(key.lane, key.sn);
    match key.lane
    case Fresh =>
    case Resend =>
  }

  lemma RequeuedAllQueue(cfg: Config, s: Sender, due: set<u16>, queue: TxQueue)
    requires RequeuedQueue(cfg, s, due, due, queue) && due <= s.buf.Keys
    ensures queue == ResentQueue(cfg.window, s, due)
  {
    forall key ensures key in queue <==> key in ResentQueue(cfg.window, s, due) {
      RequeuedAllKeys(cfg, s, due, queue, key);
    }
  }

  /** Offered one after another, all due chunks end up where one simultaneous resend puts them. */
  lemma RequeuedAll(cfg: Config, s: Sender, now: int, buf: map<u16, Item>, queue: TxQueue)
    requires Requeued(cfg, s, now, Due(s.buf, now), Due(s.buf, now), buf, queue)
    ensures buf == ResentBuf(cfg, s, now) && queue == ResentQueue(cfg.window, s, Due(s.buf, now))
  {
    RequeuedAllBuf(cfg, s, now, buf);
    RequeuedAllQueue(cfg, s, Due(s.buf, now), queue);
  }

  /** The queue takes the next due chunk exactly when the queue before the scan would have. */
  lemma RequeueAccepts(cfg: Config, s: Sender, now: int, due: set<u16>, done: set<u16>, buf: map<u16, Item>,
                       queue: TxQueue, sn: u16)
    requires Requeued(cfg, s, now, due, done, buf, queue) && sn in due && sn in s.buf && sn !in done
    ensures Accepts(queue, LaneOf(cfg.window, due, s.nxt, sn), sn) == QueuedNow(cfg.window, s, due, sn)
  {
  }

  lemma RequeueRefused(cfg: Config, s: Sender, now: int, due: set<u16>, done: set<u16>, buf: map<u16, Item>,
                       queue: TxQueue, sn: u16)
    requires Requeued(cfg, s, now, due, done, buf, queue) && !QueuedNow(cfg.window, s, due, sn)
    ensures Requeued(cfg, s, now, due, done + {sn}, buf, queue)
  {
  }

  lemma RequeueTaken(cfg: Config, s: Sender, now: int, due: set<u16>, done: set<u16>, buf: map<u16, Item>,
                     queue: TxQueue, sn: u16)
    requires Requeued(cfg, s, now, due, done, buf, queue) && sn in s.buf && sn !in done
    requires QueuedNow(cfg.window, s, due, sn)
    ensures Requeued(cfg, s, now, due, done + {sn},
                     buf[sn := Resent(s.buf[sn], DataBaseRTO(cfg, s), cfg.maxRTO, now)],
                     PushTX(queue, LaneOf(cfg.window, due, s.nxt, sn), sn, s.buf[sn].data))
  {
    RequeueAccepts(cfg, s, now, due, done, buf, queue, sn);
    RequeueTakenBuf(cfg, s, now, due, done, buf, sn);
    RequeueTakenQueue(cfg, s, due, done, queue, sn);
  }

  lemma RequeueTakenBuf(cfg: Config, s: Sender, now: int, due: set<u16>, done: set<u16>, buf: map<u16, Item>, sn: u16)
    requires RequeuedBuf(cfg, s, now, due, done, buf) && sn in s.buf && QueuedNow(cfg.window, s, due, sn)
    ensures RequeuedBuf(cfg, s, now, due, done + {sn},
        buf[sn := Resent(s.buf[sn], DataBaseRTO(cfg, s), cfg.maxRTO, now)])
  {
  }

  lemma RequeueTakenQueue(cfg: Config, s: Sender, due: set<u16>, done: set<u16>, queue: TxQueue, sn: u16)
    requires RequeuedQueue(cfg, s, due, done, queue) && sn in s.buf && QueuedNow(cfg.window, s, due, sn)
    requires Accepts(queue, LaneOf(cfg.window, due, s.nxt, sn), sn)
    ensures RequeuedQueue(cfg, s, due, done + {sn},
        PushTX(queue, LaneOf(cfg.window, due, s.nxt, sn), sn, s.buf[sn].data))
  {
    var lane := LaneOf(cfg.window, due, s.nxt, sn);
    var q1 := PushTX(queue, lane, sn, s.buf[sn].data);
    forall key ensures key in q1 <==> if key.sn == sn then key.lane == lane else key in queue {
      PushedKeys(queue, lane, sn, s.buf[sn].data, key);
    }
  }

  lemma PushedKeys(q: TxQueue, lane: Lane, sn: u16, data: Chunk, key: TxKey)
    requires Accepts(q, lane, sn)
    ensures key in PushTX(q, lane, sn, data) <==> if key.sn == sn then key.lane == lane else key in q
  {
    assert key == TxKey(key.lane, key.sn);
    match key.lane
    case Fresh =>
    case Resend =>
  }

  /** Offering a due chunk to the queue, whatever the queue answers. */
  lemma RequeueOffered(cfg: Config, s: Sender, now: int, due: set<u16>, done: set<u16>, buf: map<u16, Item>,
                       queue: TxQueue,
                       sn: u16, lane: Lane)
    requires Requeued(cfg, s, now, due, done, buf, queue) && sn in due && sn in s.buf && sn !in done
    requires lane == LaneOf(cfg.window, due, s.nxt, sn)
    ensures sn in buf && buf[sn] == s.buf[sn]
    ensures if Accepts(queue, lane, sn)
            then Requeued(cfg, s, now, due, done + {sn},
                buf[sn := Resent(s.buf[sn], DataBaseRTO(cfg, s), cfg.maxRTO, now)],
                          PushTX(queue, lane, sn, s.buf[sn].data))
            else Requeued(cfg, s, now, due, done + {sn}, buf, queue)
  {
    RequeueAccepts(cfg, s, now, due, done, buf, queue, sn);
    if Accepts(queue, lane, sn) {
      RequeueTaken(cfg, s, now, due, done, buf, queue, sn);
    } else {
      RequeueRefused(cfg, s, now, due, done, buf, queue, sn);
    }
  }

  // ---------------------------------------------------------------------
  // The hint
  // ---------------------------------------------------------------------

  lemma HintIsLeast(buf: map<u16, Item>, minAt: int)
    requires minAt == 0 ==> Deadlines(buf) == {}
    requires minAt != 0 ==> IsLeast(minAt, Deadlines(buf))
    ensures minAt == HintOf(buf)
  {
  }

  /** Every deadline is past the zero instant. */
  predicate Dated(item: Item) {
    && (item.dispatched ==> item.lastSentAt + item.currentRTO > 0)
    && (item.ttl > 0 ==> item.createdAt + item.ttl > 0)
  }

  lemma HealthyIsDated(cfg: Config, s: Sender, flushed: bool)
    requires Healthy(cfg, s, flushed) && cfg.rto > 0
    ensures forall sn :: sn in s.buf ==> Dated(s.buf[sn])
  {
    forall sn | sn in s.buf ensures Dated(s.buf[sn]) {
      assert ItemOk(cfg, s.buf[sn], InQueue(s.queue, sn));
    }
  }

  /** recomputeRetransmitHint. */
  method RecomputeHint(buf: map<u16, Item>) returns (minAt: int)
    requires forall sn :: sn in buf ==> Dated(buf[sn])
    ensures minAt == HintOf(buf)
  {
    minAt := 0;
    var order := Enumerate(buf.Keys);
    for i := 0 to |order|
      invariant minAt == 0 ==> forall sn :: sn in order[..i] ==> !buf[sn].dispatched && buf[sn].ttl == 0
      invariant minAt != 0 ==> minAt in Deadlines(buf) && forall sn :: sn in order[..i] ==> NotLate(minAt, buf[sn])
    {
      var sn := order[i];
      assert order[..i + 1] == order[..i] + [sn];
      var item := buf[sn];
      if item.dispatched {
        var due := item.lastSentAt + item.currentRTO;
        assert due in Deadlines(buf);
        if minAt == 0 || due < minAt { minAt := due; }
      }
      if item.ttl > 0 {
        var ttlAt := item.createdAt + item.ttl;
        assert ttlAt in Deadlines(buf);
        if minAt == 0 || ttlAt < minAt { minAt := ttlAt; }
      }
    }
    assert order[..|order|] == order;
    HintIsLeast(buf, minAt);
  }
}
