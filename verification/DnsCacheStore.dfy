/** The store as the object it is: 32 shards and one counter, changed in place by every operation. */
module DnsCacheStore {
  import opened Wrappers
  import opened SeqNum
  import opened Numerals
  import opened DnsCache
  import opened DnsShard
  import opened DnsStore
  import opened DnsCacheRuns
  import opened DnsStoreRuns
  import opened DnsAnswers
  import DnsFile

  /** What a load came to; a bad header leaves the store alone. */
  datatype LoadResult = BadHeader | BadEntry | Loaded(count: nat)

  /** The keys of every shard belong to it. */
  ghost predicate ShardsPlaced(place: Key -> nat, shards: seq<Shard>)
    requires AllAgree(shards)
  {
    forall i :: 0 <= i < |shards| ==> DnsFile.Placed(place, Contents(shards[i]), i)
  }

  class Store {
    const settings: Settings
    const hash: Key -> nat
    var shards: seq<Shard>
    var pendingTotal: nat

    /** getShardIndex. */
    function Place(key: Key): (i: nat)
      ensures i < SHARDS
    {
      hash(key) % SHARDS
    }

    /** Maps and lists agree, keys are in their own shard, and the counter counts the pending entries. */
    ghost predicate Valid()
      reads this
    {
      && |shards| == SHARDS && AllAgree(shards)
      && pendingTotal == Total(shards) && ShardsPlaced(Place, shards)
      && settings.cacheTTL > 0 && settings.pendingTimeout > 0 && settings.maxRecords >= 1
    }

    /** The entries of shard `i`, least recently used first. */
    ghost function List(i: nat): seq<Node>
      requires Valid() && i < SHARDS
      reads this
    {
      Contents(shards[i])
    }

    ghost function Lists(): (l: seq<seq<Node>>)
      requires Valid()
      reads this
      ensures |l| == SHARDS && forall i :: 0 <= i < SHARDS ==> l[i] == List(i)
    {
      seq(SHARDS, i requires 0 <= i < SHARDS reads this requires Valid() => List(i))
    }

    /** Every shard is an LRU list, last used by instant `t`. */
    ghost predicate Lru(t: int)
      requires Valid()
      reads this
    {
      AllLru(settings, Lists(), t)
    }

    ghost predicate Empty()
      reads this
    {
      |shards| == SHARDS && forall i :: 0 <= i < SHARDS ==> shards[i] == Shard(map[], [])
    }

    constructor (maxRecords: int, cacheTTL: int, pendingTimeout: int, hash: Key -> nat)
      ensures Valid() && Empty() && this.hash == hash
    {
      settings := Settings(if maxRecords < 1 then 1 else maxRecords,
                           if cacheTTL <= 0 then 3600 * DnsFile.SECOND else cacheTTL,
                           if pendingTimeout <= 0 then 30 * DnsFile.SECOND else pendingTimeout);
      this.hash := hash;
      shards, pendingTotal := seq(SHARDS, _ => Shard(map[], [])), 0;
      new;
      TotalZero(shards);
    }

    /** Replace one shard and the counter. */
    method Put(i: nat, sh: Shard, pending: nat)
      requires Valid() && i < SHARDS && Counted(shards[i], pendingTotal, sh, pending)
      requires DnsFile.Placed(Place, Contents(sh), i)
      modifies this
      ensures Valid() && shards == old(shards)[i := sh] && pendingTotal == pending
      ensures Lists() == old(Lists())[i := Contents(sh)]
    {
      TotalUpdate(shards, i, sh);
      shards, pendingTotal := shards[i := sh], pending;
    }

    /** An empty key is not looked up. */
    method LookupOrCreatePending(key: Key, q: Question, now: int) returns (answer: Option<Answer>)
      requires Valid()
      modifies this
      ensures Valid()
      ensures key == [] ==> answer == None && shards == old(shards)
      ensures key != [] ==>
                answer == Some(Lookup(settings, old(List(Place(key))), key, q, now).1)
                && Lists() == StoreStep(settings, Place, old(Lists()), OpLookup(key, q), now)
    {
      if key == [] { return None; }
      var i := Place(key);
      TotalCovers(shards, i);
      var sh, pending, a := LookupIn(settings, shards[i], pendingTotal, key, q, now);
      ApplyPlaced(settings, Place, List(i), OpLookup(key, q), now, i);
      Put(i, sh, pending);
      answer := Some(a);
    }

    method GetReady(key: Key, now: int) returns (response: Option<seq<byte>>)
      requires Valid()
      modifies this
      ensures Valid()
      ensures key == [] ==> response == None && shards == old(shards)
      ensures key != [] ==>
                response == Fetch(settings, old(List(Place(key))), key, now).1
                && Lists() == StoreStep(settings, Place, old(Lists()), OpFetch(key), now)
    {
      if key == [] { return None; }
      var i := Place(key);
      TotalCovers(shards, i);
      var sh, pending, r := FetchIn(settings, shards[i], pendingTotal, key, now);
      ApplyPlaced(settings, Place, List(i), OpFetch(key), now, i);
      Put(i, sh, pending);
      response := r;
    }

    method SetReady(key: Key, q: Question, raw: seq<byte>, now: int)
      requires Valid()
      modifies this
      ensures Valid()
      ensures key == [] || |raw| < 2 ==> shards == old(shards)
      ensures key != [] && |raw| >= 2 ==> Lists() == StoreStep(settings, Place, old(Lists()), OpStore(key, q, raw), now)
      ensures key != [] && |raw| >= 2 ==> LastHolds(List(Place(key)), key, q, raw, now)
    {
      if key == [] || |raw| < 2 { return; }
      var i := Place(key);
      StoredEntry(settings, List(i), key, q, raw, now);
      TotalCovers(shards, i);
      var sh, pending := StoreIn(settings, shards[i], pendingTotal, key, q, raw, now);
      ApplyPlaced(settings, Place, List(i), OpStore(key, q, raw), now, i);
      Put(i, sh, pending);
    }

    /** HasPending: the counter is exact, so it answers for every shard. */
    method HasPending() returns (any: bool)
      requires Valid()
      ensures any <==> exists i :: 0 <= i < SHARDS && CountPending(List(i)) > 0
    {
      TotalZero(shards);
      assert forall i :: 0 <= i < SHARDS ==> List(i) == Contents(shards[i]);
      return pendingTotal > 0;
    }

    method ClearPending()
      requires Valid()
      modifies this
      ensures Valid() && pendingTotal == 0
      ensures Lists() == StoreStep(settings, Place, old(Lists()), OpClear, 0)
    {
      ClearShards();
      NonePending(old(Lists()), Lists());
      assert forall i :: 0 <= i < SHARDS ==> Contents(shards[i]) == Lists()[i];
      TotalZero(shards);
    }

    /** The loops of ClearPending. */
    method ClearShards()
      requires Valid()
      modifies this
      ensures Valid() && forall i :: 0 <= i < SHARDS ==> Lists()[i] == NoPending(old(Lists())[i])
    {
      for i := 0 to SHARDS
        invariant Valid()
        invariant forall j :: 0 <= j < i ==> Lists()[j] == NoPending(old(Lists())[j])
        invariant forall j :: i <= j < SHARDS ==> Lists()[j] == old(Lists())[j]
      {
        ClearOneShard(i);
      }
    }

    method ClearOneShard(i: nat)
      requires Valid() && i < SHARDS
      modifies this
      ensures Valid() && Lists() == old(Lists())[i := NoPending(old(Lists())[i])]
    {
      TotalCovers(shards, i);
      var sh, pending := ClearShard(shards[i], pendingTotal);
      ClearPlaced(settings, Place, Lists()[i], i);
      Put(i, sh, pending);
    }

    /** SaveToFile, when there is something to save: the bytes it leaves in the file. */
    method SaveToFile(now: int) returns (file: seq<byte>, saved: nat)
      requires Valid()
      ensures file == DnsFile.File(settings, Lists(), now) && saved == |DnsFile.AllKept(settings, Lists(), now)|
    {
      saved := 0;
      var body: seq<byte> := [];
      ghost var lists := Lists();
      for i := 0 to SHARDS
        invariant saved == |DnsFile.AllKept(settings, lists[..i], now)|
        invariant body == DnsFile.WriteNodes(DnsFile.AllKept(settings, lists[..i], now))
      {
        var bytes, count := WriteShard(settings, shards[i], now);
        assert lists[..i + 1][..i] == lists[..i];
        WriteAppend(DnsFile.AllKept(settings, lists[..i], now), DnsFile.Kept(settings, lists[i], now));
        saved, body := saved + count, body + bytes;
      }
      assert lists[..SHARDS] == lists;
      file := DnsFile.Header(saved) + body;
    }

    /**
     * LoadFromFile. The entries of a file are taken to have distinct keys, as those of every file SaveToFile
     * writes have: with a repeated key the main loop leaves a shard's map and list in disagreement, as
     * LoadAgreesExactly shows.
     */
    method LoadFromFile(file: seq<byte>, now: int) returns (r: LoadResult)
      requires Valid()
      requires DnsFile.ReadFile(file).Ok? ==>
                 DistinctKeys(DnsFile.Fresh(settings, DnsFile.ReadFile(file).value.nodes, now))
      modifies this
      ensures Valid()
      ensures r.BadHeader? <==> DnsFile.ReadFile(file).Err?
      ensures r.BadHeader? ==> shards == old(shards)
      ensures r.BadEntry? ==>
                DnsFile.ReadFile(file).value.failed && pendingTotal == 0
                && forall i :: 0 <= i < SHARDS ==>
                     var unexpired := DnsFile.Fresh(settings, DnsFile.ReadFile(file).value.nodes, now);
                     List(i) == DnsFile.OfShard(Place, unexpired, i)
      ensures r.Loaded? ==>
                var unexpired := DnsFile.Fresh(settings, DnsFile.ReadFile(file).value.nodes, now);
                !DnsFile.ReadFile(file).value.failed && r.count == |unexpired| && pendingTotal == 0
                && forall i :: 0 <= i < SHARDS ==>
                     List(i) == Trim(DnsFile.OfShard(Place, unexpired, i), Limit(settings))
    {
      var header := ReadHeader(file);
      if header.None? { return BadHeader; }
      var (count, body) := header.value;
      HeaderIsRead(file);
      var sh, loaded, failed := LoadEntries(settings, Place, body, count, now);
      PushesHold(Place, DnsFile.Fresh(settings, DnsFile.ReadNodes(body, count).nodes, now), sh);
      HeldArePlaced(Place, DnsFile.Fresh(settings, DnsFile.ReadNodes(body, count).nodes, now), sh);
      shards, pendingTotal := sh, 0;
      LoadedAreReady(settings, Place, DnsFile.ReadNodes(body, count).nodes, now, shards);
      if failed { return BadEntry; }
      EvictAll();
      r := Loaded(loaded);
    }

    /** The last loop of LoadFromFile. */
    method EvictAll()
      requires Valid() && pendingTotal == 0
      modifies this
      ensures Valid() && pendingTotal == 0
      ensures forall i :: 0 <= i < SHARDS ==> List(i) == Trim(old(List(i)), Limit(settings))
    {
      for i := 0 to SHARDS
        invariant Valid() && pendingTotal == 0
        invariant forall j :: 0 <= j < i ==> List(j) == Trim(old(List(j)), Limit(settings))
        invariant forall j :: i <= j < SHARDS ==> shards[j] == old(shards[j])
      {
        EvictOne(i);
      }
    }

    method EvictOne(i: nat)
      requires Valid() && pendingTotal == 0 && i < SHARDS
      modifies this
      ensures Valid() && pendingTotal == 0 && List(i) == Trim(old(List(i)), Limit(settings))
      ensures forall j :: 0 <= j < SHARDS && j != i ==> shards[j] == old(shards[j])
    {
      TotalCovers(shards, i);
      TrimCount(List(i), Limit(settings));
      TrimPlaced(Place, List(i), Limit(settings), i);
      var sh, pending := EvictIfNeeded(shards[i], pendingTotal, Limit(settings));
      Put(i, sh, pending);
    }
  }

  /** A restart: what one store saves, another with the same settings and the same hash loads. */
  method Reload(saver: Store, loader: Store, savedAt: int, now: int) returns (saved: nat, r: LoadResult)
    requires saver.Valid() && loader.Valid() && saver.settings == loader.settings && saver.hash == loader.hash
    requires Fits(saver.settings, saver.Lists(), savedAt)
    modifies loader
    ensures loader.Valid() && saved == |DnsFile.AllKept(saver.settings, old(saver.Lists()), savedAt)|
    ensures r.Loaded? && loader.pendingTotal == 0
    ensures forall i :: 0 <= i < SHARDS ==>
              loader.List(i) == Trim(Back(loader.settings, old(saver.List(i)), savedAt, now), Limit(loader.settings))
    ensures forall t :: old(saver.Lru(t)) ==>
              loader.Lru(t)
              && forall i :: 0 <= i < SHARDS ==>
                   loader.List(i) == Back(loader.settings, old(saver.List(i)), savedAt, now)
  {
    ghost var s, lists := saver.settings, saver.Lists();
    ListsShape(saver, loader.Place);
    SavedIsLoadable(s, loader.Place, lists, savedAt, now);
    var file;
    file, saved := saver.SaveToFile(savedAt);
    r := loader.LoadFromFile(file, now);
    forall t | AllLru(s, lists, t)
      ensures AllLru(s, loader.Lists(), t)
      ensures forall i :: 0 <= i < SHARDS ==> loader.Lists()[i] == Back(s, lists[i], savedAt, now)
    {
      LruBack(s, lists, loader.Lists(), t, savedAt, now);
    }
  }

  /** What Valid says of the lists. */
  lemma ListsShape(store: Store, place: Key -> nat)
    requires store.Valid() && forall key :: place(key) == store.Place(key)
    ensures AllPlaced(place, store.Lists()) && AllDistinct(store.Lists())
  {
    forall i | 0 <= i < SHARDS ensures DnsFile.Placed(place, store.Lists()[i], i) && DistinctKeys(store.Lists()[i]) {
      assert store.Lists()[i] == Contents(store.shards[i]);
      ContentsDistinct(store.shards[i]);
    }
  }

  lemma LruBack(s: Settings, lists: seq<seq<Node>>, back: seq<seq<Node>>, t: int, savedAt: int, now: int)
    requires AllLru(s, lists, t) && |back| == |lists|
    requires forall i :: 0 <= i < |lists| ==> back[i] == Trim(Back(s, lists[i], savedAt, now), Limit(s))
    ensures AllLru(s, back, t) && forall i :: 0 <= i < |lists| ==> back[i] == Back(s, lists[i], savedAt, now)
  {
    forall i | 0 <= i < |lists| ensures IsLru(s, back[i], t) && back[i] == Back(s, lists[i], savedAt, now) {
      BackIsLru(s, lists[i], t, savedAt, now);
    }
  }

  lemma NonePending(before: seq<seq<Node>>, after: seq<seq<Node>>)
    requires |after| == |before| && forall i :: 0 <= i < |before| ==> after[i] == NoPending(before[i])
    ensures forall i :: 0 <= i < |after| ==> CountPending(after[i]) == 0
  {
    forall i | 0 <= i < |after| ensures CountPending(after[i]) == 0 {
      ClearLeavesNone(before[i]);
    }
  }

  lemma SavedIsLoadable(s: Settings, place: Key -> nat, lists: seq<seq<Node>>, savedAt: int, now: int)
    requires AllPlaced(place, lists) && AllDistinct(lists) && Fits(s, lists, savedAt)
    ensures var all := DnsFile.RestoredAll(DnsFile.AllKept(s, lists, savedAt));
            && DnsFile.ReadFile(DnsFile.File(s, lists, savedAt)) == Ok(DnsFile.Loaded(all, false))
            && DistinctKeys(DnsFile.Fresh(s, all, now))
            && forall i :: 0 <= i < |lists| ==>
                 DnsFile.OfShard(place, DnsFile.Fresh(s, all, now), i) == Back(s, lists[i], savedAt, now)
  {
    SavedKeysAreDistinct(s, place, lists, savedAt, now);
    forall i | 0 <= i < |lists|
      ensures DnsFile.OfShard(place, DnsFile.Fresh(s, DnsFile.RestoredAll(DnsFile.AllKept(s, lists, savedAt)), now), i)
              == Back(s, lists[i], savedAt, now)
    {
      DnsFile.SaveLoadRoundTrip(s, place, lists, savedAt, now, i);
    }
    if lists == [] {
      DnsFile.HeaderBack(0, []);
      assert DnsFile.RestoredAll([]) == [];
    } else {
      DnsFile.SaveLoadRoundTrip(s, place, lists, savedAt, now, 0);
    }
  }

  lemma TrimPlaced(place: Key -> nat, l: seq<Node>, limit: nat, i: nat)
    requires DnsFile.Placed(place, l, i)
    ensures DnsFile.Placed(place, Trim(l, limit), i)
  {
  }

  lemma ClearPlaced(s: Settings, place: Key -> nat, l: seq<Node>, i: nat)
    requires DnsFile.Placed(place, l, i)
    ensures DnsFile.Placed(place, NoPending(l), i)
  {
    ApplyPlaced(s, place, l, OpClear, 0, i);
  }

  lemma HeldArePlaced(place: Key -> nat, nodes: seq<Node>, shards: seq<Shard>)
    requires Holds(place, nodes, shards)
    ensures ShardsPlaced(place, shards)
  {
    forall i | 0 <= i < |shards| ensures DnsFile.Placed(place, Contents(shards[i]), i) {
      var l := Contents(shards[i]);
      forall k | 0 <= k < |l| ensures place(l[k].key) == i { OfShardMembers(place, nodes, i, l[k]); }
    }
  }

  lemma {:induction false} SuffixCount(l: seq<Node>, d: nat)
    requires d <= |l|
    ensures CountPending(l[d..]) <= CountPending(l)
  {
    if d > 0 {
      assert l[1..][d - 1..] == l[d..];
      SuffixCount(l[1..], d - 1);
    } else {
      assert l[0..] == l;
    }
  }

  lemma TrimCount(l: seq<Node>, limit: nat)
    ensures CountPending(Trim(l, limit)) <= CountPending(l)
  {
    if |l| > limit { SuffixCount(l, |l| - limit); }
  }

  // ---------------------------------------------------------------------
  // Saving
  // ---------------------------------------------------------------------

  lemma {:induction false} WriteAppend(a: seq<Node>, b: seq<Node>)
    ensures DnsFile.WriteNodes(a + b) == DnsFile.WriteNodes(a) + DnsFile.WriteNodes(b)
  {
    if a == [] {
      assert a + b == b;
    } else {
      assert (a + b)[1..] == a[1..] + b;
      WriteAppend(a[1..], b);
    }
  }

  lemma {:induction false} KeptAppend(s: Settings, a: seq<Node>, n: Node, now: int)
    ensures DnsFile.Kept(s, a + [n], now) ==
            DnsFile.Kept(s, a, now) + if n.entry.status.Ready? && !Expired(s, n.entry, now) then [n] else []
  {
    if a == [] {
      assert a + [n] == [n] && [n][1..] == [];
    } else {
      assert (a + [n])[1..] == a[1..] + [n];
      KeptAppend(s, a[1..], n, now);
    }
  }

  /** Whether a save writes the entry. */
  predicate Saves(s: Settings, e: Entry, now: int) {
    e.status.Ready? && !Expired(s, e, now)
  }

  lemma WriteStep(s: Settings, all: seq<Node>, k: nat, now: int)
    requires k < |all|
    ensures DnsFile.WriteNodes(DnsFile.Kept(s, all[..k + 1], now)) ==
            DnsFile.WriteNodes(DnsFile.Kept(s, all[..k], now))
            + if Saves(s, all[k].entry, now) then DnsFile.WriteEntry(all[k]) else []
    ensures |DnsFile.Kept(s, all[..k + 1], now)| ==
            |DnsFile.Kept(s, all[..k], now)| + if Saves(s, all[k].entry, now) then 1 else 0
  {
    var kept, n := DnsFile.Kept(s, all[..k], now), all[k];
    assert all[..k + 1] == all[..k] + [n];
    KeptAppend(s, all[..k], n, now);
    WriteAppend(kept, [n]);
    WriteOne(n);
    assert kept + [] == kept && DnsFile.WriteNodes(kept) + [] == DnsFile.WriteNodes(kept);
  }

  /** The inner loop of SaveToFile. */
  method WriteShard(s: Settings, sh: Shard, now: int) returns (bytes: seq<byte>, count: nat)
    requires Agrees(sh)
    ensures bytes == DnsFile.WriteNodes(DnsFile.Kept(s, Contents(sh), now))
        && count == |DnsFile.Kept(s, Contents(sh), now)|
  {
    bytes, count := [], 0;
    ghost var all := Contents(sh);
    for k := 0 to |sh.order|
      invariant bytes == DnsFile.WriteNodes(DnsFile.Kept(s, all[..k], now))
      invariant count == |DnsFile.Kept(s, all[..k], now)|
    {
      WriteStep(s, all, k, now);
      var e := sh.items[sh.order[k]];
      if e.status == Ready && !Expired(s, e, now) {
        bytes, count := bytes + DnsFile.WriteEntry(Node(sh.order[k], e)), count + 1;
      }
    }
    assert all[..|all|] == all;
  }

  lemma WriteOne(n: Node)
    ensures DnsFile.WriteNodes([n]) == DnsFile.WriteEntry(n)
  {
    assert [n][1..] == [];
  }

  // ---------------------------------------------------------------------
  // Loading
  // ---------------------------------------------------------------------

  /** The header: how many entries are announced, and the bytes after it. */
  function ReadHeader(file: seq<byte>): Option<(nat, seq<byte>)> {
    match DnsFile.TakeNumber(file, 4) case AtEnd => None case Broken => None case Got(magic, s1) =>
    if magic != DnsFile.MAGIC then None else
    match DnsFile.TakeNumber(s1, 2) case AtEnd => None case Broken => None case Got(version, s2) =>
    if version != DnsFile.VERSION then None else
    match DnsFile.TakeNumber(s2, 4) case AtEnd => None case Broken => None case Got(count, s3) =>
    Some((count, s3))
  }

  lemma HeaderIsRead(file: seq<byte>)
    ensures DnsFile.ReadFile(file) == match ReadHeader(file)
                                      case None => Err
                                      case Some(h) => Ok(DnsFile.ReadNodes(h.1, h.0))
  {
  }

  /** Agreement is exactly what a repeated key destroys. */
  lemma PushedAgreesExactly(sh: Shard, key: Key, e: Entry)
    requires Agrees(sh)
    ensures Agrees(Pushed(sh, key, e)) <==> key !in sh.items
  {
    if key in sh.items {
      var i :| 0 <= i < |sh.order| && sh.order[i] == key;
      var order := sh.order + [key];
      assert order[i] == order[|order| - 1];
    } else {
      PushedIsAppend(sh, key, e);
    }
  }

  /** Every shard holds the entries of `nodes` that belong to it. */
  ghost predicate Holds(place: Key -> nat, nodes: seq<Node>, shards: seq<Shard>) {
    |shards| == SHARDS && AllAgree(shards) &&
    forall i :: 0 <= i < SHARDS ==> Contents(shards[i]) == DnsFile.OfShard(place, nodes, i)
  }

  lemma {:induction false} OfShardMembers(place: Key -> nat, l: seq<Node>, i: nat, n: Node)
    ensures n in DnsFile.OfShard(place, l, i) <==> n in l && place(n.key) == i
  {
    if l != [] { OfShardMembers(place, l[1..], i, n); }
  }

  lemma {:induction false} FreshAppend(s: Settings, a: seq<Node>, n: Node, now: int)
    ensures DnsFile.Fresh(s, a + [n], now) == DnsFile.Fresh(s, a, now) + if Expired(s, n.entry, now) then [] else [n]
  {
    if a == [] {
      assert a + [n] == [n] && [n][1..] == [];
    } else {
      assert (a + [n])[1..] == a[1..] + [n];
      FreshAppend(s, a[1..], n, now);
    }
  }

  /** What the main loop of a load makes of a shard, whatever the keys: each entry pushed to the back in turn. */
  function PushedAll(l: seq<Node>): Shard {
    if l == [] then Shard(map[], [])
    else Pushed(PushedAll(l[..|l| - 1]), l[|l| - 1].key, l[|l| - 1].entry)
  }

  /** Its list holds the keys in order, repetitions included, and its map the same keys. */
  lemma {:induction false} PushedAllKeys(l: seq<Node>)
    ensures |PushedAll(l).order| == |l| && forall k :: 0 <= k < |l| ==> PushedAll(l).order[k] == l[k].key
    ensures forall key :: key in PushedAll(l).items <==> key in PushedAll(l).order
  {
    if l != [] { PushedAllKeys(l[..|l| - 1]); }
  }

  predicate DistinctInShard(place: Key -> nat, l: seq<Node>, i: nat) {
    DistinctKeys(DnsFile.OfShard(place, l, i))
  }

  /** Adding a first entry leaves the keys distinct if and only if no later entry has its key. */
  lemma DistinctCons(n: Node, l: seq<Node>)
    ensures DistinctKeys([n] + l) <==> DistinctKeys(l) && !Has(l, n.key)
  {
    var all := [n] + l;
    if DistinctKeys(all) {
      forall i | 0 <= i < |l|
        ensures l[i].key != n.key && forall j :: i < j < |l| ==> l[i].key != l[j].key
      {
        assert all[0] == n && all[i + 1] == l[i];
        assert forall j :: i < j < |l| ==> l[j] == all[j + 1];
      }
    }
  }

  lemma ShardHas(place: Key -> nat, l: seq<Node>, key: Key)
    ensures Has(DnsFile.OfShard(place, l, place(key)), key) <==> Has(l, key)
  {
    var there := DnsFile.OfShard(place, l, place(key));
    if Has(l, key) {
      var k :| 0 <= k < |l| && l[k].key == key;
      OfShardMembers(place, l, place(key), l[k]);
    }
    if Has(there, key) {
      var k :| 0 <= k < |there| && there[k].key == key;
      OfShardMembers(place, l, place(key), there[k]);
    }
  }

  lemma ShardCons(place: Key -> nat, n: Node, rest: seq<Node>, i: nat)
    ensures DistinctInShard(place, [n] + rest, i) <==>
            DistinctInShard(place, rest, i) && (place(n.key) == i ==> !Has(rest, n.key))
  {
    var there := DnsFile.OfShard(place, rest, i);
    DnsFile.OfShardCons(place, n, rest, i);
    assert [] + there == there;
    DistinctCons(n, there);
    ShardHas(place, rest, n.key);
  }

  /** Keys are distinct if and only if they are within each shard: equal keys belong to one shard. */
  lemma {:induction false} DistinctByShard(place: Key -> nat, l: seq<Node>)
    requires forall key :: place(key) < SHARDS
    ensures DistinctKeys(l) <==> forall i :: 0 <= i < SHARDS ==> DistinctInShard(place, l, i)
  {
    if l != [] {
      var n, rest := l[0], l[1..];
      assert l == [n] + rest;
      DistinctCons(n, rest);
      DistinctByShard(place, rest);
      forall i | 0 <= i < SHARDS
        ensures DistinctInShard(place, l, i) <==>
                DistinctInShard(place, rest, i) && (place(n.key) == i ==> !Has(rest, n.key))
      {
        ShardCons(place, n, rest, i);
      }
      assert DistinctInShard(place, l, place(n.key)) ==> !Has(rest, n.key);
    }
  }

  /** Map and list of shard `i` agree when the entries that belong to it were pushed one after the other. */
  ghost predicate AgreesAfterLoad(place: Key -> nat, unexpired: seq<Node>, i: nat) {
    Agrees(PushedAll(DnsFile.OfShard(place, unexpired, i)))
  }

  /**
   * So after the main loop map and list of every shard agree if and only if no key stands twice among the unexpired
   * entries of the file.
   */
  lemma LoadAgreesExactly(place: Key -> nat, unexpired: seq<Node>)
    requires forall key :: place(key) < SHARDS
    ensures (forall i :: 0 <= i < SHARDS ==> AgreesAfterLoad(place, unexpired, i)) <==> DistinctKeys(unexpired)
  {
    DistinctByShard(place, unexpired);
    forall i | 0 <= i < SHARDS
      ensures DistinctInShard(place, unexpired, i) <==> AgreesAfterLoad(place, unexpired, i)
    {
      PushedAllAgrees(DnsFile.OfShard(place, unexpired, i));
    }
  }

  lemma PushedAllAgrees(l: seq<Node>)
    ensures Agrees(PushedAll(l)) <==> DistinctKeys(l)
  {
    PushedAllKeys(l);
  }

  lemma PushedAllGrows(l: seq<Node>, n: Node)
    requires DistinctKeys(l + [n]) && Agrees(PushedAll(l)) && Contents(PushedAll(l)) == l
    ensures Agrees(PushedAll(l + [n])) && Contents(PushedAll(l + [n])) == l + [n]
  {
    var all, sh := l + [n], PushedAll(l);
    PushedAllKeys(l);
    assert all[..|l|] == l && all[|l|] == n;
    assert n.key !in sh.items by {
      assert forall k :: 0 <= k < |l| ==> sh.order[k] == l[k].key && l[k] == all[k];
    }
    PushedIsAppend(sh, n.key, n.entry);
  }

  lemma {:induction false} PushedAllContents(l: seq<Node>)
    requires DistinctKeys(l)
    ensures Agrees(PushedAll(l)) && Contents(PushedAll(l)) == l
  {
    if l == [] {
      assert Contents(PushedAll(l)) == [];
    } else {
      var front := l[..|l| - 1];
      assert l == front + [l[|l| - 1]];
      PushedAllContents(front);
      PushedAllGrows(front, l[|l| - 1]);
    }
  }

  /** Every shard is what pushing the entries of `nodes` that belong to it makes. */
  ghost predicate Pushes(place: Key -> nat, nodes: seq<Node>, shards: seq<Shard>) {
    |shards| == SHARDS && forall i :: 0 <= i < SHARDS ==> shards[i] == PushedAll(DnsFile.OfShard(place, nodes, i))
  }

  /** With distinct keys the shards hold those entries. */
  lemma PushesHold(place: Key -> nat, nodes: seq<Node>, shards: seq<Shard>)
    requires Pushes(place, nodes, shards) && DistinctKeys(nodes) && forall key :: place(key) < SHARDS
    ensures Holds(place, nodes, shards)
  {
    DistinctByShard(place, nodes);
    forall i | 0 <= i < SHARDS
      ensures Agrees(shards[i]) && Contents(shards[i]) == DnsFile.OfShard(place, nodes, i)
    {
      assert DistinctInShard(place, nodes, i);
      PushedAllContents(DnsFile.OfShard(place, nodes, i));
    }
  }

  /** One entry pushed to the back of its shard. */
  method PushEntry(place: Key -> nat, ghost nodes: seq<Node>, shards: seq<Shard>, n: Node) returns (shards1: seq<Shard>)
    requires Pushes(place, nodes, shards) && place(n.key) < SHARDS
    ensures Pushes(place, nodes + [n], shards1)
  {
    var i := place(n.key);
    var sh := shards[i];
    shards1 := shards[i := Shard(sh.items[n.key := n.entry], sh.order + [n.key])];
    forall j | 0 <= j < SHARDS ensures shards1[j] == PushedAll(DnsFile.OfShard(place, nodes + [n], j)) {
      PushedOne(place, nodes, n, j);
    }
  }

  lemma PushedOne(place: Key -> nat, nodes: seq<Node>, n: Node, j: nat)
    ensures var before, after := DnsFile.OfShard(place, nodes, j), DnsFile.OfShard(place, nodes + [n], j);
            PushedAll(after) ==
            if place(n.key) == j then Pushed(PushedAll(before), n.key, n.entry) else PushedAll(before)
  {
    OfShardOneMore(place, nodes, n, j);
    PushedAllLast(DnsFile.OfShard(place, nodes, j), n);
  }

  lemma OfShardOneMore(place: Key -> nat, nodes: seq<Node>, n: Node, j: nat)
    ensures var before := DnsFile.OfShard(place, nodes, j);
            DnsFile.OfShard(place, nodes + [n], j) == if place(n.key) == j then before + [n] else before
  {
    DnsFile.OfShardAppend(place, nodes, [n], j);
    DnsFile.OfShardCons(place, n, [], j);
    assert [n] + [] == [n];
  }

  lemma PushedAllLast(l: seq<Node>, n: Node)
    ensures PushedAll(l + [n]) == Pushed(PushedAll(l), n.key, n.entry)
  {
    assert (l + [n])[..|l|] == l;
  }

  /** One entry of the main loop of LoadFromFile. */
  method LoadOne(s: Settings, place: Key -> nat, ghost done: seq<Node>, shards: seq<Shard>, n: Node, now: int)
    returns (shards1: seq<Shard>, one: nat)
    requires Pushes(place, DnsFile.Fresh(s, done, now), shards) && place(n.key) < SHARDS
    ensures Pushes(place, DnsFile.Fresh(s, done + [n], now), shards1)
    ensures |DnsFile.Fresh(s, done + [n], now)| == |DnsFile.Fresh(s, done, now)| + one
  {
    FreshAppend(s, done, n, now);
    if Expired(s, n.entry, now) {
      assert DnsFile.Fresh(s, done, now) + [] == DnsFile.Fresh(s, done, now);
      return shards, 0;
    }
    shards1 := PushEntry(place, DnsFile.Fresh(s, done, now), shards, n);
    one := 1;
  }

  /** Where the main loop of LoadFromFile is. */
  ghost predicate Loading(s: Settings, place: Key -> nat, all: DnsFile.Loaded, now: int, done: seq<Node>,
                          more: DnsFile.Loaded,
                          shards: seq<Shard>, loaded: nat) {
    && all.nodes == done + more.nodes && all.failed == more.failed
    && Pushes(place, DnsFile.Fresh(s, done, now), shards) && loaded == |DnsFile.Fresh(s, done, now)|
  }

  lemma LoadingStarts(s: Settings, place: Key -> nat, all: DnsFile.Loaded, now: int, shards: seq<Shard>)
    requires |shards| == SHARDS && forall i :: 0 <= i < SHARDS ==> shards[i] == Shard(map[], [])
    ensures Loading(s, place, all, now, [], all, shards, 0)
  {
    assert [] + all.nodes == all.nodes;
  }

  lemma LoadingEnds(s: Settings, place: Key -> nat, all: DnsFile.Loaded, now: int, done: seq<Node>, failed: bool,
                    shards: seq<Shard>, loaded: nat)
    requires Loading(s, place, all, now, done, DnsFile.Loaded([], failed), shards, loaded)
    ensures Pushes(place, DnsFile.Fresh(s, all.nodes, now), shards) && failed == all.failed
    ensures loaded == |DnsFile.Fresh(s, all.nodes, now)|
  {
    assert done + [] == done;
  }

  method LoadNext(s: Settings, place: Key -> nat, ghost all: DnsFile.Loaded, now: int, ghost done: seq<Node>,
                  ghost more: DnsFile.Loaded, shards: seq<Shard>, loaded: nat, n: Node)
    returns (shards1: seq<Shard>, loaded1: nat)
    requires Loading(s, place, all, now, done, DnsFile.Loaded([n] + more.nodes, more.failed), shards, loaded)
    requires place(n.key) < SHARDS
    ensures Loading(s, place, all, now, done + [n], more, shards1, loaded1)
  {
    assert all.nodes == done + [n] + more.nodes;
    var one;
    shards1, one := LoadOne(s, place, done, shards, n, now);
    loaded1 := loaded + one;
  }

  /** The same, with `left` entries still to be read from `body`. */
  ghost predicate LoadingFrom(s: Settings, place: Key -> nat, read: seq<byte> -> DnsFile.Read<Node>,
                              all: DnsFile.Loaded, now: int, done: seq<Node>, body: seq<byte>, left: nat,
                              shards: seq<Shard>, loaded: nat) {
    Loading(s, place, all, now, done, DnsFile.ReadAll(read, body, left), shards, loaded)
  }

  /** The main loop of LoadFromFile, for any keys: entries that are not expired go to the back of their shards. */
  method LoadEntries(s: Settings, place: Key -> nat, body: seq<byte>, count: nat, now: int)
    returns (shards: seq<Shard>, loaded: nat, failed: bool)
    requires forall key :: place(key) < SHARDS
    ensures failed == DnsFile.ReadNodes(body, count).failed
    ensures Pushes(place, DnsFile.Fresh(s, DnsFile.ReadNodes(body, count).nodes, now), shards)
    ensures loaded == |DnsFile.Fresh(s, DnsFile.ReadNodes(body, count).nodes, now)|
  {
    shards, loaded, failed := LoadAll(s, place, DnsFile.ReadEntry, body, count, now);
  }

  /** The loop, for any way of reading one entry. */
  method LoadAll(s: Settings, place: Key -> nat, read: seq<byte> -> DnsFile.Read<Node>, body0: seq<byte>, count: nat,
                 now: int) returns (shards: seq<Shard>, loaded: nat, failed: bool)
    requires forall key :: place(key) < SHARDS
    ensures failed == DnsFile.ReadAll(read, body0, count).failed
    ensures Pushes(place, DnsFile.Fresh(s, DnsFile.ReadAll(read, body0, count).nodes, now), shards)
    ensures loaded == |DnsFile.Fresh(s, DnsFile.ReadAll(read, body0, count).nodes, now)|
  {
    shards, loaded, failed := seq(SHARDS, _ => Shard(map[], [])), 0, false;
    var body, left := body0, count;
    ghost var all, done := DnsFile.ReadAll(read, body0, count), [];
    LoadingStarts(s, place, all, now, shards);
    while left > 0
      invariant LoadingFrom(s, place, read, all, now, done, body, left, shards, loaded) && !failed
    {
      var entry := read(body);
      if !entry.Got? {
        failed := entry.Broken?;
        LoadingEnds(s, place, all, now, done, failed, shards, loaded);
        return;
      }
      ghost var more := DnsFile.ReadAll(read, entry.rest, left - 1);
      shards, loaded := LoadNext(s, place, all, now, done, more, shards, loaded, entry.value);
      done := done + [entry.value];
      body, left := entry.rest, left - 1;
    }
    LoadingEnds(s, place, all, now, done, failed, shards, loaded);
  }

  /** Entries read from a file are ready, so nothing is pending after a load. */
  lemma LoadedAreReady(s: Settings, place: Key -> nat, nodes: seq<Node>, now: int, shards: seq<Shard>)
    requires Holds(place, DnsFile.Fresh(s, nodes, now), shards)
    requires DnsFile.AllReady(nodes)
    ensures Total(shards) == 0
  {
    forall i | 0 <= i < SHARDS ensures CountPending(Contents(shards[i])) == 0 {
      var l := Contents(shards[i]);
      forall n | n in l ensures n.entry.status.Ready? {
        OfShardMembers(place, DnsFile.Fresh(s, nodes, now), i, n);
        FreshMembers(s, nodes, now, n);
      }
      NoneCounted(l);
    }
    TotalZero(shards);
  }

  lemma {:induction false} NoneCounted(l: seq<Node>)
    requires forall n :: n in l ==> n.entry.status.Ready?
    ensures CountPending(l) == 0
  {
    if l != [] { NoneCounted(l[1..]); }
  }
}
