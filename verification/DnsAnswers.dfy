/** What the cache answers: the response last stored, as long as the entry is used in time and not crowded out. */
module DnsAnswers {
  import opened Wrappers
  import opened SeqNum
  import opened Extrema
  import opened DnsCache
  import opened DnsCacheRuns
  import opened DnsFile
  import opened DnsStoreRuns

  // ---------------------------------------------------------------------
  // One store, one question
  // ---------------------------------------------------------------------

  /** `answer` is `raw` with the id zeroed. */
  predicate AnswerOf(answer: seq<byte>, raw: seq<byte>) {
    |answer| == |raw| && forall k :: 0 <= k < |raw| ==> answer[k] == if k < 2 then 0 else raw[k]
  }

  /** The entry a response leaves: ready, just used, the question it came with, and its bytes with the id zeroed. */
  predicate HoldsResponse(e: Entry, q: Question, raw: seq<byte>, now: int) {
    e.status.Ready? && e.lastUsedAt == now && e.question == q && AnswerOf(e.response, raw)
  }

  /** The most recently used entry is that of `key`, and such an entry. */
  predicate LastHolds(l: seq<Node>, key: Key, q: Question, raw: seq<byte>, now: int) {
    l != [] && l[|l| - 1].key == key && HoldsResponse(l[|l| - 1].entry, q, raw, now)
  }

  lemma UseHolds(l: seq<Node>, key: Key, e: Entry, q: Question, raw: seq<byte>, now: int)
    requires HoldsResponse(e, q, raw, now)
    ensures LastHolds(Use(l, key, e), key, q, raw, now)
  {
  }

  lemma CreatedHolds(l: seq<Node>, key: Key, e: Entry, q: Question, raw: seq<byte>, now: int, limit: nat)
    requires HoldsResponse(e, q, raw, now) && limit > 0
    ensures LastHolds(Trim(l + [Node(key, e)], limit), key, q, raw, now)
  {
    assert (l + [Node(key, e)])[|l|] == Node(key, e);
  }

  lemma NormalizedIsAnswer(raw: seq<byte>)
    requires |raw| >= 2
    ensures AnswerOf(Normalized(raw), raw)
  {
  }

  lemma StoredEntry(s: Settings, l: seq<Node>, key: Key, q: Question, raw: seq<byte>, now: int)
    requires |raw| >= 2
    ensures LastHolds(Store1(s, l, key, q, raw, now), key, q, raw, now)
  {
    NormalizedIsAnswer(raw);
    match Find(l, key)
    case None => CreatedHolds(l, key, Entry(q, Ready, now, now, 0, Normalized(raw)), q, raw, now, Limit(s));
    case Some(e) =>
      UseHolds(l, key, e.(question := q, status := Ready, createdAt := if e.createdAt == 0 then now else e.createdAt,
                          lastUsedAt := now, response := Normalized(raw)), q, raw, now);
  }

  /** `key` has a ready entry that was used less than the TTL ago. */
  predicate Servable(s: Settings, l: seq<Node>, key: Key, now: int) {
    && Find(l, key).Some? && Find(l, key).value.status.Ready?
    && now - Find(l, key).value.lastUsedAt < s.cacheTTL
  }

  /** A lookup answers, and a fetch gives, exactly what such an entry holds. */
  lemma AnsweredFromEntry(s: Settings, l: seq<Node>, key: Key, q: Question, now: int)
    ensures Lookup(s, l, key, q, now).1.Found? <==> Servable(s, l, key, now)
    ensures Fetch(s, l, key, now).1.Some? <==> Servable(s, l, key, now) && Find(l, key).value.response != []
    ensures Servable(s, l, key, now) ==>
              Lookup(s, l, key, q, now).1 == Found(Find(l, key).value.response)
              && (Find(l, key).value.response != [] ==>
                    Fetch(s, l, key, now).1 == Some(Find(l, key).value.response))
  {
  }

  /** A query is dispatched exactly when there is no entry, an expired one, or one waiting for the whole timeout. */
  lemma DispatchedExactly(s: Settings, l: seq<Node>, key: Key, q: Question, now: int)
    ensures Lookup(s, l, key, q, now).1 == Waiting(true) <==>
            Find(l, key).None?
            || (Find(l, key).value.status.Ready? && now >= Find(l, key).value.lastUsedAt + s.cacheTTL)
            || (Find(l, key).value.status.Pending? && now >= Find(l, key).value.lastDispatchAt + s.pendingTimeout)
  {
  }

  // ---------------------------------------------------------------------
  // Whatever is answered was stored last
  // ---------------------------------------------------------------------

  predicate Stores(op: Op, key: Key) {
    op.OpStore? && op.key == key && |op.response| >= 2
  }

  /** The response last stored for `key` in a run, or `known` if none was. */
  function LastStored(known: Option<seq<byte>>, trace: seq<Timed>, key: Key): Option<seq<byte>>
    decreases |trace|
  {
    if trace == [] then known
    else LastStored(if Stores(trace[0].op, key) then Some(trace[0].op.response) else known, trace[1..], key)
  }

  /** A ready entry of `key` holds the response last stored. */
  predicate Known(l: seq<Node>, key: Key, known: Option<seq<byte>>) {
    Find(l, key).Some? && Find(l, key).value.status.Ready? ==>
      known.Some? && AnswerOf(Find(l, key).value.response, known.value)
  }

  lemma StepKnown(s: Settings, l: seq<Node>, op: Op, earlier: int, now: int, key: Key, known: Option<seq<byte>>)
    requires IsLru(s, l, earlier) && earlier <= now && Known(l, key, known)
    ensures Known(Apply(s, l, op, now), key, if Stores(op, key) then Some(op.response) else known)
  {
    var r := Apply(s, l, op, now);
    ApplyKeeps(s, l, op, earlier, now);
    if Find(r, key).Some? {
      var e := Find(r, key).value;
      FindIsMember(r, key, e);
      if op.OpClear? || op.key != key {
        OtherKeyUnchanged(s, l, op, earlier, now, key, e);
        FindIsMember(l, key, e);
      } else {
        OwnStepKnown(s, l, op, earlier, now, key, known);
      }
    }
  }

  lemma OwnStepKnown(s: Settings, l: seq<Node>, op: Op, earlier: int, now: int, key: Key, known: Option<seq<byte>>)
    requires IsLru(s, l, earlier) && earlier <= now && Known(l, key, known)
    requires !op.OpClear? && op.key == key && IsLru(s, Apply(s, l, op, now), now)
    ensures Known(Apply(s, l, op, now), key, if Stores(op, key) then Some(op.response) else known)
  {
    var r := Apply(s, l, op, now);
    match op
    case OpStore(_, q, raw) =>
      if |raw| >= 2 {
        StoredEntry(s, l, key, q, raw, now);
        LastIsFound(r, r[|r| - 1]);
      }
    case OpLookup(_, q) =>
      LookupKeeps(s, l, key, q, earlier, now);
      LastIsFound(r, r[|r| - 1]);
    case OpFetch(_) =>
      FindHas(r, key);
      WithoutHasNot(l, key);
      if Find(l, key).Some? && !Expired(s, Find(l, key).value, now) { LastIsFound(r, r[|r| - 1]); }
    case _ =>
  }

  lemma {:induction false} RunKnown(s: Settings, l: seq<Node>, trace: seq<Timed>, start: int, key: Key,
                                    known: Option<seq<byte>>)
    requires IsLru(s, l, start) && Clocked(start, trace) && Known(l, key, known)
    ensures Known(Run(s, l, trace), key, LastStored(known, trace, key))
    decreases |trace|
  {
    if trace != [] {
      var op, now := trace[0].op, trace[0].now;
      ApplyKeeps(s, l, op, start, now);
      StepKnown(s, l, op, start, now, key, known);
      RunKnown(s, Apply(s, l, op, now), trace[1..], now, key, if Stores(op, key) then Some(op.response) else known);
    }
  }

  // ---------------------------------------------------------------------
  // What was stored is answered
  // ---------------------------------------------------------------------

  /** Entry `n` stands at position `i`, and behind it only keys of `others`. */
  predicate StandsAt(l: seq<Node>, i: nat, n: Node, others: set<Key>) {
    i < |l| && l[i] == n && forall j :: i < j < |l| ==> l[j].key in others
  }

  lemma {:induction false} BehindCount(l: seq<Node>, i: nat, n: Node, others: set<Key>)
    requires DistinctKeys(l) && StandsAt(l, i, n, others)
    ensures |l| - 1 - i <= |others|
    decreases |l|
  {
    if i < |l| - 1 {
      var m := |l| - 1;
      BehindCount(l[..m], i, n, others - {l[m].key});
    }
  }

  /** Taking another key out moves the entry at most forward. */
  lemma {:induction false} WithoutStands(l: seq<Node>, key: Key, i: nat, n: Node, others: set<Key>) returns (k: nat)
    requires StandsAt(l, i, n, others) && n.key != key
    ensures StandsAt(Without(l, key), k, n, others)
    decreases |l|
  {
    var rest := Without(l[1..], key);
    if i == 0 {
      assert l[0] == n;
      k := 0;
      forall j | 0 < j < |Without(l, key)| ensures Without(l, key)[j].key in others {
        WithoutMembers(l[1..], key, rest[j - 1]);
      }
    } else {
      var k1 := WithoutStands(l[1..], key, i - 1, n, others);
      k := if l[0].key == key then k1 else k1 + 1;
    }
  }

  lemma {:induction false} NoPendingStands(l: seq<Node>, i: nat, n: Node, others: set<Key>) returns (k: nat)
    requires StandsAt(l, i, n, others) && n.entry.status.Ready?
    ensures StandsAt(NoPending(l), k, n, others)
    decreases |l|
  {
    var rest := NoPending(l[1..]);
    if i == 0 {
      k := 0;
      forall j | 0 < j < |NoPending(l)| ensures NoPending(l)[j].key in others {
        NoPendingMembers(l[1..], rest[j - 1]);
      }
    } else {
      var k1 := NoPendingStands(l[1..], i - 1, n, others);
      k := if l[0].entry.status.Pending? then k1 else k1 + 1;
    }
  }

  /** With fewer than `limit` keys behind it, an entry survives the eviction another key causes. */
  lemma AppendStands(l: seq<Node>, x: Node, limit: nat, i: nat, n: Node, others: set<Key>) returns (k: nat)
    requires StandsAt(l, i, n, others) && DistinctKeys(l) && !Has(l, x.key) && |others + {x.key}| < limit
    ensures StandsAt(Trim(l + [x], limit), k, n, others + {x.key})
  {
    var all := l + [x];
    assert forall j :: 0 <= j < |l| ==> all[j] == l[j];
    assert StandsAt(all, i, n, others + {x.key});
    BehindCount(all, i, n, others + {x.key});
    k := if |all| <= limit then i else i - (|all| - limit);
  }

  lemma {:induction false} WithoutNone(l: seq<Node>, key: Key)
    requires Find(l, key).None?
    ensures Without(l, key) == l
  {
    if l != [] { WithoutNone(l[1..], key); }
  }

  /** Another key's entry is used: it goes to the end. */
  lemma UseStands(l: seq<Node>, key: Key, e: Entry, i: nat, n: Node, others: set<Key>) returns (k: nat)
    requires StandsAt(l, i, n, others) && n.key != key
    ensures StandsAt(Use(l, key, e), k, n, others + {key})
  {
    k := WithoutStands(l, key, i, n, others);
  }

  /** Another key gets a new entry: it goes to the end, and the list is cut to the limit. */
  lemma CreatedStands(s: Settings, l: seq<Node>, x: Node, earlier: int, i: nat, n: Node, others: set<Key>)
    returns (k: nat)
    requires IsLru(s, l, earlier) && StandsAt(l, i, n, others) && n.key != x.key
    requires |others + {x.key}| < Limit(s)
    ensures StandsAt(Trim(Without(l, x.key) + [x], Limit(s)), k, n, others + {x.key})
  {
    var k1 := WithoutStands(l, x.key, i, n, others);
    WithoutKeeps(s, l, x.key, earlier);
    WithoutHasNot(l, x.key);
    k := AppendStands(Without(l, x.key), x, Limit(s), k1, n, others);
  }

  lemma MoreStands(l: seq<Node>, i: nat, n: Node, others: set<Key>, key: Key)
    requires StandsAt(l, i, n, others)
    ensures StandsAt(l, i, n, others + {key})
  {
  }

  lemma LookupStands(s: Settings, l: seq<Node>, key: Key, q: Question, earlier: int, now: int, i: nat, n: Node,
                     others: set<Key>) returns (k: nat)
    requires IsLru(s, l, earlier) && key != n.key && StandsAt(l, i, n, others) && |others + {key}| < Limit(s)
    ensures StandsAt(Lookup(s, l, key, q, now).0, k, n, others + {key})
  {
    var x := Node(key, Entry(q, Pending, now, now, now, []));
    match Find(l, key)
    case None =>
      WithoutNone(l, key);
      k := CreatedStands(s, l, x, earlier, i, n, others);
    case Some(e) =>
      if Expired(s, e, now) {
        k := CreatedStands(s, l, x, earlier, i, n, others);
      } else if !e.status.Ready? && now - e.lastDispatchAt >= s.pendingTimeout {
        k := UseStands(l, key, e.(lastUsedAt := now, lastDispatchAt := now), i, n, others);
      } else {
        k := UseStands(l, key, e.(lastUsedAt := now), i, n, others);
      }
  }

  lemma FetchStands(s: Settings, l: seq<Node>, key: Key, now: int, i: nat, n: Node, others: set<Key>)
    returns (k: nat)
    requires key != n.key && StandsAt(l, i, n, others)
    ensures StandsAt(Fetch(s, l, key, now).0, k, n, others + {key})
  {
    match Find(l, key)
    case None => k := i;
    case Some(e) =>
      if Expired(s, e, now) {
        k := WithoutStands(l, key, i, n, others);
        MoreStands(Without(l, key), k, n, others, key);
      } else {
        k := UseStands(l, key, e.(lastUsedAt := now), i, n, others);
      }
  }

  lemma StoreStands(s: Settings, l: seq<Node>, key: Key, q: Question, raw: seq<byte>, earlier: int, now: int, i: nat,
                    n: Node, others: set<Key>) returns (k: nat)
    requires IsLru(s, l, earlier) && key != n.key && StandsAt(l, i, n, others) && |others + {key}| < Limit(s)
    ensures StandsAt(Store1(s, l, key, q, raw, now), k, n, others + {key})
  {
    if |raw| < 2 { return i; }
    match Find(l, key)
    case None =>
      WithoutNone(l, key);
      k := CreatedStands(s, l, Node(key, Entry(q, Ready, now, now, 0, Normalized(raw))), earlier, i, n, others);
    case Some(e) =>
      k := UseStands(l, key, e.(question := q, status := Ready,
                                createdAt := if e.createdAt == 0 then now else e.createdAt,
                                lastUsedAt := now, response := Normalized(raw)), i, n, others);
  }

  /** A step about another key leaves the entry, while fewer keys than the limit were used since it was. */
  lemma OtherStepStands(s: Settings, l: seq<Node>, op: Op, earlier: int, now: int, i: nat, n: Node, others: set<Key>)
    returns (k: nat)
    requires IsLru(s, l, earlier) && !op.OpClear? && op.key != n.key
    requires StandsAt(l, i, n, others) && |others + {op.key}| < Limit(s)
    ensures StandsAt(Apply(s, l, op, now), k, n, others + {op.key})
  {
    match op
    case OpLookup(key, q) => k := LookupStands(s, l, key, q, earlier, now, i, n, others);
    case OpFetch(key) => k := FetchStands(s, l, key, now, i, n, others);
    case OpStore(key, q, raw) => k := StoreStands(s, l, key, q, raw, earlier, now, i, n, others);
    case OpClear =>
  }

  /**
   * After an entry of `key` was used at instant `t`, with `others` used since, a run goes on using it in time: it is
   * not stored again, every use comes less than the TTL after the one before, and between two uses fewer keys than a
   * shard may hold are used.
   */
  predicate UsedInTime(s: Settings, key: Key, t: int, others: set<Key>, trace: seq<Timed>)
    decreases |trace|
  {
    trace == [] ||
    var op, now := trace[0].op, trace[0].now;
    if op.OpClear? then UsedInTime(s, key, t, others, trace[1..])
    else if op.key != key then
      |others + {op.key}| < Limit(s) && UsedInTime(s, key, t, others + {op.key}, trace[1..])
    else if op.OpStore? then |op.response| < 2 && UsedInTime(s, key, t, others, trace[1..])
    else now - t < s.cacheTTL && UsedInTime(s, key, now, {}, trace[1..])
  }

  /** When the entry was last used in such a run. */
  function LastUse(key: Key, t: int, trace: seq<Timed>): int
    decreases |trace|
  {
    if trace == [] then t
    else
      var op := trace[0].op;
      LastUse(key, if (op.OpLookup? || op.OpFetch?) && op.key == key then trace[0].now else t, trace[1..])
  }

  /** The entry of `key` is ready, holds `response`, and was last used at `t`; since then only `others` were used. */
  ghost predicate Answering(l: seq<Node>, key: Key, response: seq<byte>, t: int, others: set<Key>) {
    exists i: nat, e :: StandsAt(l, i, Node(key, e), others) && e.status.Ready? && e.response == response
                        && e.lastUsedAt == t
  }

  lemma AnsweringIsServable(s: Settings, l: seq<Node>, key: Key, response: seq<byte>, t: int, others: set<Key>,
                            now: int)
    requires DistinctKeys(l) && Answering(l, key, response, t, others) && now - t < s.cacheTTL
    ensures Servable(s, l, key, now) && Find(l, key).value.response == response
    ensures Find(l, key).value.status.Ready? && Find(l, key).value.lastUsedAt == t
  {
    var i: nat, e :| StandsAt(l, i, Node(key, e), others) && e.status.Ready? && e.response == response
                     && e.lastUsedAt == t;
    FindIsMember(l, key, e);
  }

  lemma OtherStepAnswering(s: Settings, l: seq<Node>, op: Op, earlier: int, now: int, key: Key, response: seq<byte>,
                           t: int, others: set<Key>)
    requires IsLru(s, l, earlier) && Answering(l, key, response, t, others)
    requires !op.OpClear? && op.key != key && |others + {op.key}| < Limit(s)
    ensures Answering(Apply(s, l, op, now), key, response, t, others + {op.key})
  {
    var i: nat, e :| StandsAt(l, i, Node(key, e), others) && e.status.Ready? && e.response == response
                     && e.lastUsedAt == t;
    var k := OtherStepStands(s, l, op, earlier, now, i, Node(key, e), others);
  }

  lemma ClearAnswering(l: seq<Node>, key: Key, response: seq<byte>, t: int, others: set<Key>)
    requires Answering(l, key, response, t, others)
    ensures Answering(NoPending(l), key, response, t, others)
  {
    var i: nat, e :| StandsAt(l, i, Node(key, e), others) && e.status.Ready? && e.response == response
                     && e.lastUsedAt == t;
    var k := NoPendingStands(l, i, Node(key, e), others);
  }

  /** Using it in time makes it the last of the list. */
  lemma UseAnswering(s: Settings, l: seq<Node>, op: Op, earlier: int, now: int, key: Key, response: seq<byte>,
                     t: int, others: set<Key>)
    requires IsLru(s, l, earlier) && Answering(l, key, response, t, others) && now - t < s.cacheTTL
    requires (op.OpLookup? || op.OpFetch?) && op.key == key
    ensures Answering(Apply(s, l, op, now), key, response, now, {})
  {
    AnsweringIsServable(s, l, key, response, t, others, now);
    var r := Apply(s, l, op, now);
    var e := Find(l, key).value.(lastUsedAt := now);
    assert r == Use(l, key, e);
    assert StandsAt(r, |r| - 1, Node(key, e), {});
  }

  lemma {:induction false} RunAnswering(s: Settings, l: seq<Node>, trace: seq<Timed>, start: int, key: Key,
                                        response: seq<byte>, t: int, others: set<Key>) returns (left: set<Key>)
    requires IsLru(s, l, start) && Clocked(start, trace) && Answering(l, key, response, t, others)
    requires UsedInTime(s, key, t, others, trace)
    ensures Answering(Run(s, l, trace), key, response, LastUse(key, t, trace), left)
    decreases |trace|
  {
    if trace == [] { return others; }
    var op, now := trace[0].op, trace[0].now;
    var l1 := Apply(s, l, op, now);
    ApplyKeeps(s, l, op, start, now);
    if op.OpClear? {
      ClearAnswering(l, key, response, t, others);
      left := RunAnswering(s, l1, trace[1..], now, key, response, t, others);
    } else if op.key != key {
      OtherStepAnswering(s, l, op, start, now, key, response, t, others);
      left := RunAnswering(s, l1, trace[1..], now, key, response, t, others + {op.key});
    } else if op.OpStore? {
      left := RunAnswering(s, l1, trace[1..], now, key, response, t, others);
    } else {
      UseAnswering(s, l, op, start, now, key, response, t, others);
      left := RunAnswering(s, l1, trace[1..], now, key, response, now, {});
    }
  }

  // ---------------------------------------------------------------------
  // Main results
  // ---------------------------------------------------------------------

  /**
   * In every run from a list without the key, whatever a lookup or a fetch of it answers is the response last stored,
   * with its id zeroed; if none was stored there is no answer.
   */
  lemma AnswersAreLastStored(s: Settings, l: seq<Node>, trace: seq<Timed>, start: int, key: Key, q: Question, now: int)
    requires IsLru(s, l, start) && Clocked(start, trace) && Find(l, key).None?
    ensures var r, last := Run(s, l, trace), LastStored(None, trace, key);
            && (Lookup(s, r, key, q, now).1.Found? ==>
                  last.Some? && AnswerOf(Lookup(s, r, key, q, now).1.response, last.value))
            && (Fetch(s, r, key, now).1.Some? ==> last.Some? && AnswerOf(Fetch(s, r, key, now).1.value, last.value))
  {
    RunKnown(s, l, trace, start, key, None);
    AnsweredFromEntry(s, Run(s, l, trace), key, q, now);
  }

  /**
   * After a response is stored, every run that goes on using it in time leaves it there: a lookup and a fetch less
   * than the TTL after the last use answer exactly its bytes with the id zeroed.
   */
  lemma StoredIsAnswered(s: Settings, l: seq<Node>, start: int, key: Key, q: Question, raw: seq<byte>, storedAt: int,
                         trace: seq<Timed>, q1: Question, now: int)
    requires IsLru(s, l, start) && start <= storedAt && |raw| >= 2 && Clocked(storedAt, trace)
    requires UsedInTime(s, key, storedAt, {}, trace) && now - LastUse(key, storedAt, trace) < s.cacheTTL
    ensures var r := Run(s, Store1(s, l, key, q, raw, storedAt), trace);
            && Lookup(s, r, key, q1, now).1.Found? && AnswerOf(Lookup(s, r, key, q1, now).1.response, raw)
            && Fetch(s, r, key, now).1 == Some(Lookup(s, r, key, q1, now).1.response)
  {
    var l1 := Store1(s, l, key, q, raw, storedAt);
    var e := l1[|l1| - 1].entry;
    StoreKeeps(s, l, key, q, raw, start, storedAt);
    StoredEntry(s, l, key, q, raw, storedAt);
    assert StandsAt(l1, |l1| - 1, Node(key, e), {});
    var left := RunAnswering(s, l1, trace, storedAt, key, e.response, storedAt, {});
    RunStaysLru(s, l1, trace, storedAt);
    AnsweringIsServable(s, Run(s, l1, trace), key, e.response, LastUse(key, storedAt, trace), left, now);
    AnsweredFromEntry(s, Run(s, l1, trace), key, q1, now);
  }

  // The whole store

  lemma {:induction false} LastStoredReaches(place: Key -> nat, trace: seq<Timed>, key: Key, known: Option<seq<byte>>)
    requires key != []
    ensures LastStored(known, Reaching(place, trace, place(key)), key) == LastStored(known, trace, key)
    decreases |trace|
  {
    if trace != [] {
      var op, more := trace[0].op, Reaching(place, trace[1..], place(key));
      LastStoredReaches(place, trace[1..], key, if Stores(op, key) then Some(op.response) else known);
      if op.OpClear? || (op.key != [] && place(op.key) == place(key)) {
        assert ([trace[0]] + more)[1..] == more;
      } else {
        assert [] + more == more;
      }
    }
  }

  /** So in every run of a store that starts empty, whatever shard the key belongs to. */
  lemma StoreAnswersLastStored(s: Settings, place: Key -> nat, lists: seq<seq<Node>>, trace: seq<Timed>, start: int,
                               key: Key, q: Question, now: int)
    requires Places(place, |lists|) && AllLru(s, lists, start) && Clocked(start, trace)
    requires key != [] && Find(lists[place(key)], key).None?
    ensures var r, last := StoreRun(s, place, lists, trace)[place(key)], LastStored(None, trace, key);
            && (Lookup(s, r, key, q, now).1.Found? ==>
                  last.Some? && AnswerOf(Lookup(s, r, key, q, now).1.response, last.value))
            && (Fetch(s, r, key, now).1.Some? ==> last.Some? && AnswerOf(Fetch(s, r, key, now).1.value, last.value))
  {
    var i := place(key);
    ShardRunsAlone(s, place, lists, trace, start, i);
    LastStoredReaches(place, trace, key, None);
    AnswersAreLastStored(s, lists[i], Reaching(place, trace, i), start, key, q, now);
  }

  /** And what a store of a response leaves is answered, as long as the key's shard goes on using it in time. */
  lemma StoreAnswersStored(s: Settings, place: Key -> nat, lists: seq<seq<Node>>, start: int, key: Key, q: Question,
                           raw: seq<byte>, storedAt: int, trace: seq<Timed>, q1: Question, now: int)
    requires Places(place, |lists|) && AllLru(s, lists, start) && start <= storedAt && Clocked(storedAt, trace)
    requires key != [] && |raw| >= 2 && UsedInTime(s, key, storedAt, {}, Reaching(place, trace, place(key)))
    requires now - LastUse(key, storedAt, Reaching(place, trace, place(key))) < s.cacheTTL
    ensures var stored := StoreStep(s, place, lists, OpStore(key, q, raw), storedAt);
            var r := StoreRun(s, place, stored, trace)[place(key)];
            && Lookup(s, r, key, q1, now).1.Found? && AnswerOf(Lookup(s, r, key, q1, now).1.response, raw)
            && Fetch(s, r, key, now).1 == Some(Lookup(s, r, key, q1, now).1.response)
  {
    var i := place(key);
    ShardRunsAlone(s, place, StoreStep(s, place, lists, OpStore(key, q, raw), storedAt), trace, storedAt, i);
    StoredIsAnswered(s, lists[i], start, key, q, raw, storedAt, Reaching(place, trace, i), q1, now);
  }
}
