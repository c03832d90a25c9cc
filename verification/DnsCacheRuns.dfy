/** Whole runs of one shard: it stays an LRU list, and an entry is not dispatched again before its timeout. */
module DnsCacheRuns {
  import opened Wrappers
  import opened SeqNum
  import opened DnsCache

  datatype Op =
    | OpLookup(key: Key, question: Question)
    | OpFetch(key: Key)
    | OpStore(key: Key, question: Question, response: seq<byte>)
    | OpClear

  function Apply(s: Settings, l: seq<Node>, op: Op, now: int): seq<Node> {
    match op
    case OpLookup(key, q) => Lookup(s, l, key, q, now).0
    case OpFetch(key) => Fetch(s, l, key, now).0
    case OpStore(key, q, response) => Store1(s, l, key, q, response, now)
    case OpClear => NoPending(l)
  }

  /** The step told its caller to dispatch the query for `key`. */
  predicate Dispatches(s: Settings, l: seq<Node>, op: Op, now: int, key: Key) {
    op.OpLookup? && op.key == key && Lookup(s, l, key, op.question, now).1 == Waiting(true)
  }

  /** The entry of `key` is there and the step finds it fresh. */
  predicate Survives(s: Settings, l: seq<Node>, now: int, key: Key) {
    Find(l, key).Some? && !Expired(s, Find(l, key).value, now)
  }

  lemma ApplyKeeps(s: Settings, l: seq<Node>, op: Op, earlier: int, now: int)
    requires IsLru(s, l, earlier) && earlier <= now
    ensures IsLru(s, Apply(s, l, op, now), now)
  {
    match op
    case OpLookup(key, q) => LookupKeeps(s, l, key, q, earlier, now);
    case OpFetch(key) =>
      FetchKeeps(s, l, key, earlier, now);
      Later(s, l, earlier, now);
    case OpStore(key, q, response) =>
      StoreKeeps(s, l, key, q, response, earlier, now);
    case OpClear =>
      ClearKeeps(s, l, earlier);
      Later(s, NoPending(l), earlier, now);
  }

  lemma Later(s: Settings, l: seq<Node>, earlier: int, now: int)
    requires IsLru(s, l, earlier) && earlier <= now
    ensures IsLru(s, l, now)
  {
  }

  // ---------------------------------------------------------------------
  // One entry through one step
  // ---------------------------------------------------------------------

  lemma {:induction false} FindIsMember(l: seq<Node>, key: Key, e: Entry)
    requires DistinctKeys(l)
    ensures Find(l, key) == Some(e) <==> Node(key, e) in l
  {
    if l != [] {
      FindIsMember(l[1..], key, e);
      assert l == [l[0]] + l[1..];
      FindHas(l[1..], key);
      if Node(key, e) in l[1..] {
        var i :| 0 <= i < |l[1..]| && l[1..][i] == Node(key, e);
        assert l[i + 1].key == key;
      }
    }
  }

  lemma UsedMembers(l: seq<Node>, key: Key, e: Entry, n: Node)
    requires n in Use(l, key, e) && n.key != key
    ensures n in l
  {
    WithoutMembers(l, key, n);
  }

  lemma TrimmedMembers(l: seq<Node>, added: Node, limit: nat, n: Node)
    requires n in Trim(l + [added], limit) && n != added
    ensures n in l
  {
  }

  /** A lookup adds no entry of another key. */
  lemma LookupLeavesOthers(s: Settings, l: seq<Node>, key: Key, q: Question, now: int, n: Node)
    requires n in Lookup(s, l, key, q, now).0 && n.key != key
    ensures n in l
  {
    var added := Node(key, Entry(q, Pending, now, now, now, []));
    match Find(l, key)
    case None => TrimmedMembers(l, added, Limit(s), n);
    case Some(e) =>
      if Expired(s, e, now) {
        TrimmedMembers(Without(l, key), added, Limit(s), n);
        WithoutMembers(l, key, n);
      } else if !e.status.Ready? && now - e.lastDispatchAt >= s.pendingTimeout {
        UsedMembers(l, key, e.(lastUsedAt := now, lastDispatchAt := now), n);
      } else {
        UsedMembers(l, key, e.(lastUsedAt := now), n);
      }
  }

  /** A step about another key does not change an entry that is still there after it. */
  lemma OtherKeyUnchanged(s: Settings, l: seq<Node>, op: Op, earlier: int, now: int, key: Key, e: Entry)
    requires IsLru(s, l, earlier) && earlier <= now && (op.OpClear? || op.key != key)
    requires Node(key, e) in Apply(s, l, op, now)
    ensures Node(key, e) in l
  {
    var n := Node(key, e);
    match op
    case OpClear => NoPendingMembers(l, n);
    case OpLookup(k, q) => LookupLeavesOthers(s, l, k, q, now, n);
    case OpFetch(k) => WithoutMembers(l, k, n);
    case OpStore(k, q, response) => WithoutMembers(l, k, n);
  }

  /** The entry is answered, or was last dispatched no earlier than `t`. */
  predicate DispatchedSince(l: seq<Node>, key: Key, t: int) {
    Find(l, key).Some? && (Find(l, key).value.status.Ready? || Find(l, key).value.lastDispatchAt >= t)
  }

  lemma LastIsFound(l: seq<Node>, n: Node)
    requires DistinctKeys(l) && l != [] && l[|l| - 1] == n
    ensures Find(l, n.key) == Some(n.entry)
  {
    FindIsMember(l, n.key, n.entry);
  }

  /** The entry a lookup leaves behind: it is the last of the list. */
  lemma LookupLeaves(s: Settings, l: seq<Node>, key: Key, q: Question, earlier: int, now: int)
    requires IsLru(s, l, earlier) && earlier <= now
    ensures var r := Lookup(s, l, key, q, now).0;
            Find(r, key).Some? && Find(r, key) == Some(r[|r| - 1].entry)
    ensures Lookup(s, l, key, q, now).1 == Waiting(true)
        ==> Find(Lookup(s, l, key, q, now).0, key).value.lastDispatchAt == now
  {
    var r := Lookup(s, l, key, q, now).0;
    LookupKeeps(s, l, key, q, earlier, now);
    LastIsFound(r, r[|r| - 1]);
  }

  /** A surviving entry keeps its last dispatch, or is dispatched anew a whole timeout after it. */
  lemma StaysDispatched(s: Settings, l: seq<Node>, op: Op, earlier: int, now: int, key: Key, t: int)
    requires IsLru(s, l, earlier) && earlier <= now && s.pendingTimeout > 0
    requires DispatchedSince(l, key, t) && Survives(s, l, now, key) && Find(Apply(s, l, op, now), key).Some?
    ensures DispatchedSince(Apply(s, l, op, now), key, t)
    ensures Dispatches(s, l, op, now, key) ==> now - t >= s.pendingTimeout
  {
    var r := Apply(s, l, op, now);
    ApplyKeeps(s, l, op, earlier, now);
    if op.OpClear? || op.key != key {
      var e := Find(r, key).value;
      FindIsMember(r, key, e);
      OtherKeyUnchanged(s, l, op, earlier, now, key, e);
      FindIsMember(l, key, e);
    } else if op.OpStore? && |op.response| < 2 {
    } else {
      LastIsFound(r, r[|r| - 1]);
    }
  }

  // ---------------------------------------------------------------------
  // Runs
  // ---------------------------------------------------------------------

  datatype Timed = Timed(op: Op, now: int)

  predicate Clocked(start: int, trace: seq<Timed>)
    decreases |trace|
  {
    trace == [] || (start <= trace[0].now && Clocked(trace[0].now, trace[1..]))
  }

  function Run(s: Settings, l: seq<Node>, trace: seq<Timed>): seq<Node>
    decreases |trace|
  {
    if trace == [] then l else Run(s, Apply(s, l, trace[0].op, trace[0].now), trace[1..])
  }

  /** A shard stays an LRU list: within its limit, no key twice, in the order of last use. */
  lemma {:induction false} RunStaysLru(s: Settings, l: seq<Node>, trace: seq<Timed>, start: int)
    requires IsLru(s, l, start) && Clocked(start, trace)
    ensures IsLru(s, Run(s, l, trace), if trace == [] then start else trace[|trace| - 1].now)
    decreases |trace|
  {
    if trace != [] {
      ApplyKeeps(s, l, trace[0].op, start, trace[0].now);
      RunStaysLru(s, Apply(s, l, trace[0].op, trace[0].now), trace[1..], trace[0].now);
    }
  }

  /** The entry of `key` is present and fresh at every step of the run, and present at its end. */
  predicate SurvivesRun(s: Settings, l: seq<Node>, trace: seq<Timed>, key: Key)
    decreases |trace|
  {
    Find(l, key).Some? &&
    (trace == [] ||
     (Survives(s, l, trace[0].now, key) && SurvivesRun(s, Apply(s, l, trace[0].op, trace[0].now), trace[1..], key)))
  }

  lemma {:induction false} StaysDispatchedRun(s: Settings, l: seq<Node>, trace: seq<Timed>, start: int, key: Key,
                                              t: int)
    requires IsLru(s, l, start) && Clocked(start, trace) && s.pendingTimeout > 0
    requires DispatchedSince(l, key, t) && SurvivesRun(s, l, trace, key)
    ensures DispatchedSince(Run(s, l, trace), key, t)
    decreases |trace|
  {
    if trace != [] {
      ApplyKeeps(s, l, trace[0].op, start, trace[0].now);
      StaysDispatched(s, l, trace[0].op, start, trace[0].now, key, t);
      StaysDispatchedRun(s, Apply(s, l, trace[0].op, trace[0].now), trace[1..], trace[0].now, key, t);
    }
  }

  /**
   * Between two requests to dispatch the query of an entry that survives in between lies at least the pending
   * timeout, whatever happens to the shard meanwhile.
   */
  lemma DispatchesAreSpaced(s: Settings, l: seq<Node>, first: Timed, between: seq<Timed>, second: Timed, start: int,
                            key: Key)
    requires IsLru(s, l, start) && start <= first.now && Clocked(first.now, between + [second]) && s.pendingTimeout > 0
    requires Dispatches(s, l, first.op, first.now, key)
    requires SurvivesRun(s, Apply(s, l, first.op, first.now), between + [second], key)
    requires Dispatches(s, Run(s, Apply(s, l, first.op, first.now), between), second.op, second.now, key)
    ensures second.now - first.now >= s.pendingTimeout
  {
    var l1 := Apply(s, l, first.op, first.now);
    ApplyKeeps(s, l, first.op, start, first.now);
    LookupLeaves(s, l, key, first.op.question, start, first.now);
    SplitRun(s, l1, between, second, first.now, key);
    StaysDispatchedRun(s, l1, between, first.now, key, first.now);
    RunStaysLru(s, l1, between, first.now);
    StaysDispatched(s, Run(s, l1, between), second.op, if between == [] then first.now else between[|between| - 1].now,
                    second.now, key, first.now);
  }

  lemma {:induction false} SplitRun(s: Settings, l: seq<Node>, between: seq<Timed>, second: Timed, start: int, key: Key)
    requires Clocked(start, between + [second]) && SurvivesRun(s, l, between + [second], key)
    ensures Clocked(start, between) && SurvivesRun(s, l, between, key)
    ensures (if between == [] then start else between[|between| - 1].now) <= second.now
    ensures Survives(s, Run(s, l, between), second.now, key)
    ensures Find(Apply(s, Run(s, l, between), second.op, second.now), key).Some?
    decreases |between|
  {
    if between == [] {
      assert (between + [second])[1..] == [];
    } else {
      assert (between + [second])[1..] == between[1..] + [second];
      SplitRun(s, Apply(s, l, between[0].op, between[0].now), between[1..], second, between[0].now, key);
    }
  }
}
