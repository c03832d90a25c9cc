/** The sharded store: every operation does to one shard what DnsCache says, and the pending counter stays exact. */
module DnsStore {
  import opened Wrappers
  import opened DnsCache
  import opened DnsShard

  // ---------------------------------------------------------------------
  // The pending counter
  // ---------------------------------------------------------------------

  ghost predicate AllAgree(shards: seq<Shard>) {
    forall i :: 0 <= i < |shards| ==> Agrees(shards[i])
  }

  /** How many pending entries each shard holds. */
  ghost function Counts(shards: seq<Shard>): (c: seq<nat>)
    requires AllAgree(shards)
    ensures |c| == |shards| && forall i :: 0 <= i < |shards| ==> c[i] == CountPending(Contents(shards[i]))
  {
    seq(|shards|, i requires 0 <= i < |shards| => CountPending(Contents(shards[i])))
  }

  ghost function Sum(c: seq<nat>, n: nat): nat
    requires n <= |c|
  {
    if n == 0 then 0 else Sum(c, n - 1) + c[n - 1]
  }

  /** The pending entries of all shards together. */
  ghost function Total(shards: seq<Shard>): nat
    requires AllAgree(shards)
  {
    Sum(Counts(shards), |shards|)
  }

  lemma {:induction false} SumUpdate(c: seq<nat>, i: nat, x: nat, n: nat)
    requires i < |c| && n <= |c|
    ensures Sum(c[i := x], n) + (if i < n then c[i] else 0) == Sum(c, n) + (if i < n then x else 0)
  {
    if n > 0 { SumUpdate(c, i, x, n - 1); }
  }

  lemma {:induction false} SumCovers(c: seq<nat>, i: nat, n: nat)
    requires i < n <= |c|
    ensures c[i] <= Sum(c, n)
  {
    if i < n - 1 { SumCovers(c, i, n - 1); }
  }

  lemma {:induction false} SumZero(c: seq<nat>, n: nat)
    requires n <= |c|
    ensures Sum(c, n) == 0 <==> forall i :: 0 <= i < n ==> c[i] == 0
  {
    if n > 0 { SumZero(c, n - 1); }
  }

  lemma TotalUpdate(shards: seq<Shard>, i: nat, sh: Shard)
    requires AllAgree(shards) && i < |shards| && Agrees(sh)
    ensures AllAgree(shards[i := sh])
    ensures Total(shards[i := sh]) + CountPending(Contents(shards[i])) == Total(shards) + CountPending(Contents(sh))
  {
    assert Counts(shards[i := sh]) == Counts(shards)[i := CountPending(Contents(sh))];
    SumUpdate(Counts(shards), i, CountPending(Contents(sh)), |shards|);
  }

  lemma TotalCovers(shards: seq<Shard>, i: nat)
    requires AllAgree(shards) && i < |shards|
    ensures CountPending(Contents(shards[i])) <= Total(shards)
  {
    SumCovers(Counts(shards), i, |shards|);
  }

  lemma TotalZero(shards: seq<Shard>)
    requires AllAgree(shards)
    ensures Total(shards) == 0 <==> forall i :: 0 <= i < |shards| ==> CountPending(Contents(shards[i])) == 0
  {
    SumZero(Counts(shards), |shards|);
  }

  /** The counter `pending1` is to `sh1` what `pending` was to `sh`. */
  ghost predicate Counted(sh: Shard, pending: nat, sh1: Shard, pending1: nat) {
    Agrees(sh) && Agrees(sh1) &&
    pending1 + CountPending(Contents(sh)) == pending + CountPending(Contents(sh1))
  }

  // ---------------------------------------------------------------------
  // Work on one shard
  // ---------------------------------------------------------------------

  /** removeElementLocked. */
  method RemoveElement(sh: Shard, pending: nat, key: Key) returns (sh1: Shard, pending1: nat)
    requires Agrees(sh) && key in sh.items && pending >= CountPending(Contents(sh))
    ensures sh1 == Removed(sh, key) && Counted(sh, pending, sh1, pending1)
    ensures Contents(sh1) == Without(Contents(sh), key)
  {
    ContentsDistinct(sh);
    FindContents(sh, key);
    CountWithout(Contents(sh), key);
    RemovedIsWithout(sh, key);
    pending1 := pending;
    if sh.items[key].status == Pending {
      if pending > 0 { pending1 := pending - 1; }
    }
    sh1 := Shard(sh.items - {key}, Drop(sh.order, key));
  }

  lemma FrontRemoved(sh: Shard)
    requires Agrees(sh) && sh.order != []
    ensures Without(Contents(sh), sh.order[0]) == Contents(sh)[1..]
  {
    ContentsDistinct(sh);
    NotThere(Contents(sh), sh.order[0]);
    WithoutAbsent(Contents(sh)[1..], sh.order[0]);
  }

  lemma {:induction false} WithoutAbsent(l: seq<Node>, key: Key)
    requires Find(l, key) == None
    ensures Without(l, key) == l
  {
    if l != [] { WithoutAbsent(l[1..], key); }
  }

  lemma {:induction false} SameSize(items: map<Key, Entry>, order: seq<Key>)
    requires NoRepeats(order) && forall key :: key in items <==> key in order
    ensures |items| == |order|
    decreases |order|
  {
    if order == [] {
      assert items == map[];
    } else {
      var n := |order| - 1;
      assert order == order[..n] + [order[n]];
      var less := items - {order[n]};
      assert items == less[order[n] := items[order[n]]];
      SameSize(less, order[..n]);
    }
  }

  /** evictIfNeededLocked: the least recently used entries go until the limit is met. */
  method EvictIfNeeded(sh: Shard, pending: nat, limit: nat) returns (sh1: Shard, pending1: nat)
    requires Agrees(sh) && pending >= CountPending(Contents(sh))
    ensures Counted(sh, pending, sh1, pending1) && Contents(sh1) == Trim(Contents(sh), limit)
  {
    sh1, pending1 := sh, pending;
    SameSize(sh1.items, sh1.order);
    while |sh1.items| > limit
      invariant Counted(sh, pending, sh1, pending1) && |sh1.items| == |sh1.order|
      invariant |Contents(sh1)| <= |Contents(sh)|
      invariant Contents(sh1) == Contents(sh)[|Contents(sh)| - |Contents(sh1)|..]
      invariant |Contents(sh)| <= limit ==> sh1 == sh
      invariant |Contents(sh)| > limit ==> |Contents(sh1)| >= limit
      decreases |sh1.items|
    {
      if sh1.order == [] {
        return;
      }
      FrontRemoved(sh1);
      sh1, pending1 := RemoveElement(sh1, pending1, sh1.order[0]);
      SameSize(sh1.items, sh1.order);
    }
  }

  /** LookupOrCreatePending on the shard of the key. */
  method LookupIn(s: Settings, sh: Shard, pending: nat, key: Key, q: Question, now: int)
    returns (sh1: Shard, pending1: nat, answer: Answer)
    requires Agrees(sh) && pending >= CountPending(Contents(sh))
    ensures Counted(sh, pending, sh1, pending1)
    ensures (Contents(sh1), answer) == Lookup(s, Contents(sh), key, q, now)
  {
    sh1, pending1 := sh, pending;
    FindContents(sh, key);
    if key in sh.items {
      var e := sh.items[key];
      if !Expired(s, e, now) {
        e := e.(lastUsedAt := now);
        if e.status == Ready {
          sh1 := MoveUsed(sh, pending, key, e);
          return sh1, pending, Found(e.response);
        }
        if now - e.lastDispatchAt >= s.pendingTimeout {
          sh1 := MoveUsed(sh, pending, key, e.(lastDispatchAt := now));
          return sh1, pending, Waiting(true);
        }
        sh1 := MoveUsed(sh, pending, key, e);
        return sh1, pending, Waiting(false);
      }
      sh1, pending1 := RemoveElement(sh, pending, key);
    } else {
      WithoutAbsent(Contents(sh), key);
    }
    sh1, pending1 := CreatePending(s, sh1, pending1, key, q, now);
    answer := Waiting(true);
  }

  /** The entry was touched in place; its element moves to the back. */
  method MoveUsed(sh: Shard, ghost pending: nat, key: Key, e: Entry) returns (sh1: Shard)
    requires Agrees(sh) && key in sh.items && e.status == sh.items[key].status
    ensures Counted(sh, pending, sh1, pending) && Contents(sh1) == Use(Contents(sh), key, e)
  {
    sh1 := Shard(sh.items[key := e], Drop(sh.order, key) + [key]);
    MovedIsUse(sh, key, e);
    UseCount(sh, key, e);
  }

  lemma UseCount(sh: Shard, key: Key, e: Entry)
    requires Agrees(sh)
    ensures CountPending(Use(Contents(sh), key, e)) + PendingBit(Find(Contents(sh), key))
            == CountPending(Contents(sh)) + PendingBit(Some(e))
    ensures Find(Contents(sh), key) == if key in sh.items then Some(sh.items[key]) else None
  {
    ContentsDistinct(sh);
    FindContents(sh, key);
    CountWithout(Contents(sh), key);
    CountAppend(Without(Contents(sh), key), Node(key, e));
  }

  method CreatePending(s: Settings, sh: Shard, pending: nat, key: Key, q: Question, now: int)
    returns (sh1: Shard, pending1: nat)
    requires Agrees(sh) && key !in sh.items && pending >= CountPending(Contents(sh))
    ensures Counted(sh, pending, sh1, pending1)
    ensures Contents(sh1) == Created(s, Contents(sh), key, q, now).0
  {
    var e := Entry(q, Pending, now, now, now, []);
    PushedIsAppend(sh, key, e);
    CountAppend(Contents(sh), Node(key, e));
    sh1, pending1 := EvictIfNeeded(Shard(sh.items[key := e], sh.order + [key]), pending + 1, Limit(s));
  }

  /** GetReady on the shard of the key. */
  method FetchIn(s: Settings, sh: Shard, pending: nat, key: Key, now: int)
    returns (sh1: Shard, pending1: nat, response: Option<seq<byte>>)
    requires Agrees(sh) && pending >= CountPending(Contents(sh))
    ensures Counted(sh, pending, sh1, pending1)
    ensures (Contents(sh1), response) == Fetch(s, Contents(sh), key, now)
  {
    FindContents(sh, key);
    if key !in sh.items { return sh, pending, None; }
    var e := sh.items[key];
    if Expired(s, e, now) {
      sh1, pending1 := RemoveElement(sh, pending, key);
      return sh1, pending1, None;
    }
    sh1 := MoveUsed(sh, pending, key, e.(lastUsedAt := now));
    pending1 := pending;
    response := if e.status != Ready || |e.response| == 0 then None else Some(e.response);
  }

  /** SetReady on the shard of the key. */
  method StoreIn(s: Settings, sh: Shard, pending: nat, key: Key, q: Question, raw: seq<byte>, now: int)
    returns (sh1: Shard, pending1: nat)
    requires Agrees(sh) && pending >= CountPending(Contents(sh)) && |raw| >= 2
    ensures Counted(sh, pending, sh1, pending1)
    ensures Contents(sh1) == Store1(s, Contents(sh), key, q, raw, now)
  {
    FindContents(sh, key);
    pending1 := pending;
    if key in sh.items {
      var e := sh.items[key];
      CountCovers(sh, key);
      if e.status == Pending {
        if pending > 0 { pending1 := pending - 1; }
      }
      e := e.(question := q, status := Ready, createdAt := if e.createdAt == 0 then now else e.createdAt,
              lastUsedAt := now, response := Normalized(raw));
      sh1 := Shard(sh.items[key := e], Drop(sh.order, key) + [key]);
      MovedIsUse(sh, key, e);
      UseCount(sh, key, e);
    } else {
      var e := Entry(q, Ready, now, now, 0, Normalized(raw));
      PushedIsAppend(sh, key, e);
      CountAppend(Contents(sh), Node(key, e));
      sh1, pending1 := EvictIfNeeded(Shard(sh.items[key := e], sh.order + [key]), pending, Limit(s));
    }
  }

  lemma CountCovers(sh: Shard, key: Key)
    requires Agrees(sh) && key in sh.items
    ensures PendingBit(Some(sh.items[key])) <= CountPending(Contents(sh))
  {
    UseCount(sh, key, sh.items[key].(status := Ready));
  }

  // ---------------------------------------------------------------------
  // Clearing
  // ---------------------------------------------------------------------

  lemma {:induction false} NoPendingAppend(a: seq<Node>, n: Node)
    ensures NoPending(a + [n]) == NoPending(a) + if n.entry.status.Pending? then [] else [n]
  {
    if a == [] {
      assert [] + [n] == [n] && [n][1..] == [];
    } else {
      assert (a + [n])[1..] == a[1..] + [n];
      NoPendingAppend(a[1..], n);
    }
  }

  lemma {:induction false} WithoutMiddle(a: seq<Node>, n: Node, b: seq<Node>)
    requires DistinctKeys(a + [n] + b)
    ensures Without(a + [n] + b, n.key) == a + b
  {
    var l := a + [n] + b;
    if a == [] {
      assert l == [n] + b && l[1..] == b;
      NotThere(l, n.key);
      WithoutAbsent(b, n.key);
    } else {
      assert l[0] == a[0] && l[|a|] == n;
      assert l[1..] == a[1..] + [n] + b;
      WithoutMiddle(a[1..], n, b);
    }
  }

  /** Where the inner loop of ClearPending is after `k` elements. */
  ghost predicate ClearedUpTo(all: seq<Node>, k: nat, l: seq<Node>) {
    k <= |all| && l == NoPending(all[..k]) + all[k..]
  }

  /** One element of the inner loop of ClearPending. */
  method ClearOne(sh: Shard, pending: nat, key: Key, ghost all: seq<Node>, ghost k: nat)
    returns (sh1: Shard, pending1: nat)
    requires Agrees(sh) && pending >= CountPending(Contents(sh))
    requires k < |all| && all[k].key == key && ClearedUpTo(all, k, Contents(sh))
    ensures Counted(sh, pending, sh1, pending1) && ClearedUpTo(all, k + 1, Contents(sh1))
  {
    ContentsDistinct(sh);
    ClearStep(all, k, Contents(sh));
    FindContents(sh, key);
    sh1, pending1 := sh, pending;
    if sh.items[key].status == Pending {
      sh1, pending1 := RemoveElement(sh, pending, key);
    }
  }

  /** The inner loop of ClearPending. */
  method ClearShard(sh: Shard, pending: nat) returns (sh1: Shard, pending1: nat)
    requires Agrees(sh) && pending >= CountPending(Contents(sh))
    ensures Counted(sh, pending, sh1, pending1) && Contents(sh1) == NoPending(Contents(sh))
  {
    sh1, pending1 := sh, pending;
    ghost var all := Contents(sh);
    ClearedNone(all);
    for k := 0 to |sh.order|
      invariant Counted(sh, pending, sh1, pending1) && ClearedUpTo(all, k, Contents(sh1))
    {
      sh1, pending1 := ClearOne(sh1, pending1, sh.order[k], all, k);
    }
    ClearedAll(all, Contents(sh1));
  }

  lemma ClearedNone(all: seq<Node>)
    ensures ClearedUpTo(all, 0, all)
  {
    assert all[..0] == [] && all[0..] == all && [] + all == all;
  }

  lemma ClearedAll(all: seq<Node>, l: seq<Node>)
    requires ClearedUpTo(all, |all|, l)
    ensures l == NoPending(all)
  {
    assert all[..|all|] == all && all[|all|..] == [] && NoPending(all) + [] == NoPending(all);
  }

  lemma ClearStep(all: seq<Node>, k: nat, l: seq<Node>)
    requires k < |all| && l == NoPending(all[..k]) + all[k..] && DistinctKeys(l)
    ensures Find(l, all[k].key) == Some(all[k].entry)
    ensures NoPending(all[..k + 1]) + all[k + 1..] ==
            if all[k].entry.status.Pending? then Without(l, all[k].key) else l
  {
    var a, n, b := NoPending(all[..k]), all[k], all[k + 1..];
    assert all[..k + 1] == all[..k] + [n] && all[k..] == [n] + b;
    assert l == a + [n] + b;
    NoPendingAppend(all[..k], n);
    WithoutMiddle(a, n, b);
    assert l[|a|] == n;
    FindAt(l, |a|);
    assert a + [] == a;
  }

  lemma {:induction false} FindAt(l: seq<Node>, i: nat)
    requires DistinctKeys(l) && i < |l|
    ensures Find(l, l[i].key) == Some(l[i].entry)
  {
    if i > 0 {
      assert l[1..][i - 1] == l[i];
      FindAt(l[1..], i - 1);
    }
  }
}
