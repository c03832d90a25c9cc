/** Whole runs of the sharded store, on the lists its shards stand for, and what saving and loading give back. */
module DnsStoreRuns {
  import opened SeqNum
  import opened DnsCache
  import opened DnsCacheRuns
  import opened DnsFile

  /** Keys are in their own shards. */
  predicate AllPlaced(place: Key -> nat, lists: seq<seq<Node>>) {
    forall i :: 0 <= i < |lists| ==> Placed(place, lists[i], i)
  }

  /** Every shard is an LRU list. */
  predicate AllLru(s: Settings, lists: seq<seq<Node>>, now: int) {
    forall i :: 0 <= i < |lists| ==> IsLru(s, lists[i], now)
  }

  ghost predicate Places(place: Key -> nat, n: nat) {
    forall key :: place(key) < n
  }

  /** What an operation of the store does to the lists: only the key's shard changes, and an empty key is ignored. */
  function StoreStep(s: Settings, place: Key -> nat, lists: seq<seq<Node>>, op: Op, now: int): (r: seq<seq<Node>>)
    requires Places(place, |lists|)
    ensures |r| == |lists|
  {
    if op.OpClear? then seq(|lists|, i requires 0 <= i < |lists| => NoPending(lists[i]))
    else if op.key == [] then lists
    else lists[place(op.key) := Apply(s, lists[place(op.key)], op, now)]
  }

  function StoreRun(s: Settings, place: Key -> nat, lists: seq<seq<Node>>, trace: seq<Timed>): (r: seq<seq<Node>>)
    requires Places(place, |lists|)
    ensures |r| == |lists|
    decreases |trace|
  {
    if trace == [] then lists
    else StoreRun(s, place, StoreStep(s, place, lists, trace[0].op, trace[0].now), trace[1..])
  }

  function EndOf(start: int, trace: seq<Timed>): int {
    if trace == [] then start else trace[|trace| - 1].now
  }

  // ---------------------------------------------------------------------
  // Keys stay in their shards
  // ---------------------------------------------------------------------

  lemma PlacedMembers(place: Key -> nat, l: seq<Node>, r: seq<Node>, i: nat)
    requires Placed(place, l, i) && forall n :: n in r ==> n in l || place(n.key) == i
    ensures Placed(place, r, i)
  {
  }

  /** An operation puts no key into a shard but its own. */
  lemma ApplyPlaced(s: Settings, place: Key -> nat, l: seq<Node>, op: Op, now: int, i: nat)
    requires Placed(place, l, i) && (op.OpClear? || place(op.key) == i)
    ensures Placed(place, Apply(s, l, op, now), i)
  {
    var r := Apply(s, l, op, now);
    forall n | n in r ensures n in l || place(n.key) == i {
      if op.OpClear? {
        NoPendingMembers(l, n);
      } else {
        WithoutMembers(l, op.key, n);
      }
    }
    PlacedMembers(place, l, r, i);
  }

  lemma StoreStepKeeps(s: Settings, place: Key -> nat, lists: seq<seq<Node>>, op: Op, earlier: int, now: int)
    requires Places(place, |lists|) && earlier <= now
    ensures AllPlaced(place, lists) ==> AllPlaced(place, StoreStep(s, place, lists, op, now))
    ensures AllLru(s, lists, earlier) ==> AllLru(s, StoreStep(s, place, lists, op, now), now)
  {
    var r := StoreStep(s, place, lists, op, now);
    forall i | 0 <= i < |lists|
      ensures Placed(place, lists[i], i) ==> Placed(place, r[i], i)
      ensures IsLru(s, lists[i], earlier) ==> IsLru(s, r[i], now)
    {
      ShardStepKeeps(s, place, lists, op, earlier, now, i);
    }
  }

  lemma ShardStepKeeps(s: Settings, place: Key -> nat, lists: seq<seq<Node>>, op: Op, earlier: int, now: int, i: nat)
    requires Places(place, |lists|) && earlier <= now && i < |lists|
    ensures Placed(place, lists[i], i) ==> Placed(place, StoreStep(s, place, lists, op, now)[i], i)
    ensures IsLru(s, lists[i], earlier) ==> IsLru(s, StoreStep(s, place, lists, op, now)[i], now)
  {
    if op.OpClear? || (op.key != [] && place(op.key) == i) {
      if Placed(place, lists[i], i) { ApplyPlaced(s, place, lists[i], op, now, i); }
      if IsLru(s, lists[i], earlier) { ApplyKeeps(s, lists[i], op, earlier, now); }
    } else if IsLru(s, lists[i], earlier) {
      Later(s, lists[i], earlier, now);
    }
  }

  /** In every run of a store each shard stays an LRU list of keys that belong to it. */
  lemma {:induction false} StoreRunKeeps(s: Settings, place: Key -> nat, lists: seq<seq<Node>>, trace: seq<Timed>,
                                         start: int)
    requires Places(place, |lists|) && AllPlaced(place, lists) && AllLru(s, lists, start) && Clocked(start, trace)
    ensures AllPlaced(place, StoreRun(s, place, lists, trace))
        && AllLru(s, StoreRun(s, place, lists, trace), EndOf(start, trace))
    decreases |trace|
  {
    if trace != [] {
      StoreStepKeeps(s, place, lists, trace[0].op, start, trace[0].now);
      StoreRunKeeps(s, place, StoreStep(s, place, lists, trace[0].op, trace[0].now), trace[1..], trace[0].now);
    }
  }

  /** The operations of a run that reach shard `i`. */
  function Reaching(place: Key -> nat, trace: seq<Timed>, i: nat): seq<Timed>
    decreases |trace|
  {
    if trace == [] then []
    else
      var op := trace[0].op;
      (if op.OpClear? || (op.key != [] && place(op.key) == i) then [trace[0]] else []) + Reaching(place, trace[1..], i)
  }

  /** A shard runs by itself on the operations that reach it, so what holds of every run of a shard holds of it. */
  lemma {:induction false} ShardRunsAlone(s: Settings, place: Key -> nat, lists: seq<seq<Node>>, trace: seq<Timed>,
                                          start: int, i: nat)
    requires Places(place, |lists|) && i < |lists| && Clocked(start, trace)
    ensures StoreRun(s, place, lists, trace)[i] == Run(s, lists[i], Reaching(place, trace, i))
    ensures Clocked(start, Reaching(place, trace, i))
    decreases |trace|
  {
    if trace != [] {
      var op, more := trace[0].op, Reaching(place, trace[1..], i);
      ShardRunsAlone(s, place, StoreStep(s, place, lists, op, trace[0].now), trace[1..], trace[0].now, i);
      if op.OpClear? || (op.key != [] && place(op.key) == i) {
        assert ([trace[0]] + more)[1..] == more;
      } else {
        assert [] + more == more;
        ClockedEarlier(start, trace[0].now, more);
      }
    }
  }

  lemma ClockedEarlier(start: int, later: int, trace: seq<Timed>)
    requires start <= later && Clocked(later, trace)
    ensures Clocked(start, trace)
  {
  }

  // ---------------------------------------------------------------------
  // What a save writes and a load gives back
  // ---------------------------------------------------------------------

  lemma {:induction false} KeptMembers(s: Settings, l: seq<Node>, now: int, n: Node)
    requires n in Kept(s, l, now)
    ensures n in l
  {
    if l != [] && n != l[0] { KeptMembers(s, l[1..], now, n); }
  }

  /** A save keeps exactly the ready entries used less than the TTL ago, and a load exactly the unexpired ones. */
  lemma {:induction false} KeptExactly(s: Settings, l: seq<Node>, now: int, n: Node)
    ensures n in Kept(s, l, now) <==> n in l && n.entry.status.Ready? && now < n.entry.lastUsedAt + s.cacheTTL
    ensures n.entry.status.Ready? ==> (n in Fresh(s, l, now) <==> n in l && now < n.entry.lastUsedAt + s.cacheTTL)
  {
    if l != [] {
      KeptExactly(s, l[1..], now, n);
    }
  }

  lemma {:induction false} KeptDistinct(s: Settings, l: seq<Node>, now: int)
    requires DistinctKeys(l)
    ensures DistinctKeys(Kept(s, l, now))
  {
    if l != [] {
      KeptDistinct(s, l[1..], now);
      var r := Kept(s, l[1..], now);
      forall k | 0 <= k < |r| ensures r[k].key != l[0].key {
        KeptMembers(s, l[1..], now, r[k]);
        var j :| 0 <= j < |l[1..]| && l[1..][j] == r[k];
        assert l[j + 1] == r[k];
      }
    }
  }

  lemma {:induction false} FreshMembers(s: Settings, l: seq<Node>, now: int, n: Node)
    requires n in Fresh(s, l, now)
    ensures n in l
  {
    if l != [] && n != l[0] { FreshMembers(s, l[1..], now, n); }
  }

  lemma {:induction false} FreshDistinct(s: Settings, l: seq<Node>, now: int)
    requires DistinctKeys(l)
    ensures DistinctKeys(Fresh(s, l, now))
  {
    if l != [] {
      FreshDistinct(s, l[1..], now);
      var r := Fresh(s, l[1..], now);
      forall k | 0 <= k < |r| ensures r[k].key != l[0].key {
        FreshMembers(s, l[1..], now, r[k]);
        var j :| 0 <= j < |l[1..]| && l[1..][j] == r[k];
        assert l[j + 1] == r[k];
      }
    }
  }

  predicate AllDistinct(lists: seq<seq<Node>>) {
    forall i :: 0 <= i < |lists| ==> DistinctKeys(lists[i])
  }

  lemma {:induction false} AllKeptPlaced(s: Settings, place: Key -> nat, lists: seq<seq<Node>>, now: int, n: Node)
    requires AllPlaced(place, lists) && n in AllKept(s, lists, now)
    ensures place(n.key) < |lists|
  {
    if lists != [] {
      var m := |lists| - 1;
      if n in AllKept(s, lists[..m], now) {
        AllKeptPlaced(s, place, lists[..m], now, n);
      } else {
        KeptMembers(s, lists[m], now, n);
      }
    }
  }

  lemma AppendDistinct(place: Key -> nat, a: seq<Node>, b: seq<Node>, m: nat)
    requires DistinctKeys(a) && DistinctKeys(b) && Placed(place, b, m)
    requires forall k :: 0 <= k < |a| ==> place(a[k].key) < m
    ensures DistinctKeys(a + b)
  {
  }

  /** No key stands twice in what a save writes. */
  lemma {:induction false} AllKeptDistinct(s: Settings, place: Key -> nat, lists: seq<seq<Node>>, now: int)
    requires AllPlaced(place, lists) && AllDistinct(lists)
    ensures DistinctKeys(AllKept(s, lists, now))
  {
    if lists != [] {
      var m := |lists| - 1;
      AllKeptDistinct(s, place, lists[..m], now);
      KeptDistinct(s, lists[m], now);
      KeptPlaced(s, place, lists[m], now, m);
      var a := AllKept(s, lists[..m], now);
      forall k | 0 <= k < |a| ensures place(a[k].key) < m {
        AllKeptPlaced(s, place, lists[..m], now, a[k]);
      }
      AppendDistinct(place, a, Kept(s, lists[m], now), m);
    }
  }

  /** So a load of it finds every key once. */
  lemma SavedKeysAreDistinct(s: Settings, place: Key -> nat, lists: seq<seq<Node>>, savedAt: int, now: int)
    requires AllPlaced(place, lists) && AllDistinct(lists)
    ensures DistinctKeys(Fresh(s, RestoredAll(AllKept(s, lists, savedAt)), now))
  {
    AllKeptDistinct(s, place, lists, savedAt);
    FreshDistinct(s, RestoredAll(AllKept(s, lists, savedAt)), now);
  }

  /** The format has room for every entry a save writes and for their number. */
  predicate Fits(s: Settings, lists: seq<seq<Node>>, savedAt: int) {
    && |AllKept(s, lists, savedAt)| < 0x1_0000_0000
    && forall k :: 0 <= k < |AllKept(s, lists, savedAt)| ==> Encodable(AllKept(s, lists, savedAt)[k])
  }

  /** What a shard gets back. */
  function Back(s: Settings, l: seq<Node>, savedAt: int, now: int): seq<Node> {
    Fresh(s, RestoredAll(Kept(s, l, savedAt)), now)
  }

  lemma {:induction false} KeptLru(s: Settings, l: seq<Node>, t: int, now: int)
    requires IsLru(s, l, t)
    ensures IsLru(s, Kept(s, l, now), t)
  {
    if l != [] {
      KeptLru(s, l[1..], t, now);
      var r := Kept(s, l[1..], now);
      forall k | 0 <= k < |r| ensures r[k].key != l[0].key && l[0].entry.lastUsedAt <= r[k].entry.lastUsedAt {
        KeptMembers(s, l[1..], now, r[k]);
        HeadFirst(l, r[k]);
      }
      ConsKeeps(l[0], r, t);
    }
  }

  lemma {:induction false} FreshLru(s: Settings, l: seq<Node>, t: int, now: int)
    requires IsLru(s, l, t)
    ensures IsLru(s, Fresh(s, l, now), t)
  {
    if l != [] {
      FreshLru(s, l[1..], t, now);
      var r := Fresh(s, l[1..], now);
      forall k | 0 <= k < |r| ensures r[k].key != l[0].key && l[0].entry.lastUsedAt <= r[k].entry.lastUsedAt {
        FreshMembers(s, l[1..], now, r[k]);
        HeadFirst(l, r[k]);
      }
      ConsKeeps(l[0], r, t);
      FreshIsShorter(s, l, now);
    }
  }

  lemma TruncatedMonotone(t: int, u: int)
    requires t <= u
    ensures Truncated(t) <= Truncated(u) <= u
  {
  }

  lemma RestoredLru(s: Settings, l: seq<Node>, t: int)
    requires IsLru(s, l, t)
    ensures IsLru(s, RestoredAll(l), t)
  {
    forall i, j | 0 <= i < j < |l| ensures Truncated(l[i].entry.lastUsedAt) <= Truncated(l[j].entry.lastUsedAt) {
      TruncatedMonotone(l[i].entry.lastUsedAt, l[j].entry.lastUsedAt);
    }
    forall i | 0 <= i < |l| ensures Truncated(l[i].entry.lastUsedAt) <= t {
      TruncatedMonotone(l[i].entry.lastUsedAt, t);
    }
  }

  /** What comes back is an LRU list again, and nothing of it is evicted. */
  lemma BackIsLru(s: Settings, l: seq<Node>, t: int, savedAt: int, now: int)
    requires IsLru(s, l, t)
    ensures IsLru(s, Back(s, l, savedAt, now), t)
        && Trim(Back(s, l, savedAt, now), Limit(s)) == Back(s, l, savedAt, now)
  {
    KeptLru(s, l, t, savedAt);
    RestoredLru(s, Kept(s, l, savedAt), t);
    FreshLru(s, RestoredAll(Kept(s, l, savedAt)), t, now);
  }
}
