/**
 * One shard of the DNS cache as the list it is meant to be: entries in the order of their last use, the least
 * recently used first. The store with its maps and lists is proved to be this.
 */
module DnsCache {
  import opened Wrappers
  import opened SeqNum
  import opened Extrema

  type Key = seq<byte>

  datatype Status = Pending | Ready

  /** The question an entry answers. */
  datatype Question = Question(domain: seq<byte>, qType: u16, qClass: u16)

  datatype Entry = Entry(question: Question, status: Status, createdAt: int, lastUsedAt: int, lastDispatchAt: int,
                         response: seq<byte>)

  datatype Node = Node(key: Key, entry: Entry)

  datatype Settings = Settings(maxRecords: nat, cacheTTL: int, pendingTimeout: int)

  /** The answer to a lookup. */
  datatype Answer = Waiting(dispatchNeeded: bool) | Found(response: seq<byte>)

  const SHARDS: nat := 32

  /** How many entries one shard may hold. */
  function Limit(s: Settings): nat {
    if s.maxRecords / SHARDS < 1 then 1 else s.maxRecords / SHARDS
  }

  predicate Expired(s: Settings, e: Entry, now: int) {
    e.status.Ready? && now - e.lastUsedAt >= s.cacheTTL
  }

  // ---------------------------------------------------------------------
  // Lists of entries
  // ---------------------------------------------------------------------

  predicate Has(l: seq<Node>, key: Key) {
    exists i :: 0 <= i < |l| && l[i].key == key
  }

  function Without(l: seq<Node>, key: Key): seq<Node> {
    if l == [] then []
    else if l[0].key == key then Without(l[1..], key)
    else [l[0]] + Without(l[1..], key)
  }

  function Find(l: seq<Node>, key: Key): Option<Entry> {
    if l == [] then None else if l[0].key == key then Some(l[0].entry) else Find(l[1..], key)
  }

  /** The entry of `key` becomes `e` and the most recently used. */
  function Use(l: seq<Node>, key: Key, e: Entry): seq<Node> {
    Without(l, key) + [Node(key, e)]
  }

  /** The `limit` most recently used entries. */
  function Trim(l: seq<Node>, limit: nat): (r: seq<Node>)
    ensures |r| == Min(|l|, limit) && r == l[|l| - |r|..]
  {
    if |l| <= limit then l else l[|l| - limit..]
  }

  function CountPending(l: seq<Node>): nat {
    if l == [] then 0 else (if l[0].entry.status.Pending? then 1 else 0) + CountPending(l[1..])
  }

  function NoPending(l: seq<Node>): seq<Node> {
    if l == [] then [] else (if l[0].entry.status.Pending? then [] else [l[0]]) + NoPending(l[1..])
  }

  // ---------------------------------------------------------------------
  // The operations
  // ---------------------------------------------------------------------

  /** LookupOrCreatePending. */
  function Lookup(s: Settings, l: seq<Node>, key: Key, q: Question, now: int): (seq<Node>, Answer) {
    match Find(l, key)
    case Some(e) =>
      if Expired(s, e, now) then Created(s, Without(l, key), key, q, now)
      else if e.status.Ready? then (Use(l, key, e.(lastUsedAt := now)), Found(e.response))
      else if now - e.lastDispatchAt >= s.pendingTimeout then
        (Use(l, key, e.(lastUsedAt := now, lastDispatchAt := now)), Waiting(true))
      else (Use(l, key, e.(lastUsedAt := now)), Waiting(false))
    case None => Created(s, l, key, q, now)
  }

  function Created(s: Settings, l: seq<Node>, key: Key, q: Question, now: int): (seq<Node>, Answer) {
    (Trim(l + [Node(key, Entry(q, Pending, now, now, now, []))], Limit(s)), Waiting(true))
  }

  /** GetReady; the response is returned as stored. */
  function Fetch(s: Settings, l: seq<Node>, key: Key, now: int): (seq<Node>, Option<seq<byte>>) {
    match Find(l, key)
    case None => (l, None)
    case Some(e) =>
      if Expired(s, e, now) then (Without(l, key), None)
      else (Use(l, key, e.(lastUsedAt := now)), if e.status.Ready? && e.response != [] then Some(e.response) else None)
  }

  function Normalized(response: seq<byte>): seq<byte>
    requires |response| >= 2
  {
    [0, 0] + response[2..]
  }

  /** SetReady; a response shorter than an id is ignored. */
  function Store1(s: Settings, l: seq<Node>, key: Key, q: Question, response: seq<byte>, now: int): seq<Node> {
    if |response| < 2 then l
    else
      match Find(l, key)
      case Some(e) =>
        Use(l, key, e.(question := q, status := Ready, createdAt := if e.createdAt == 0 then now else e.createdAt,
                       lastUsedAt := now, response := Normalized(response)))
      case None => Trim(l + [Node(key, Entry(q, Ready, now, now, 0, Normalized(response)))], Limit(s))
  }

  // ---------------------------------------------------------------------
  // What the operations keep
  // ---------------------------------------------------------------------

  predicate DistinctKeys(l: seq<Node>) {
    forall i, j :: 0 <= i < j < |l| ==> l[i].key != l[j].key
  }

  /** Entries stand in the order of their last use. */
  predicate ByRecency(l: seq<Node>) {
    forall i, j :: 0 <= i < j < |l| ==> l[i].entry.lastUsedAt <= l[j].entry.lastUsedAt
  }

  predicate NotAfter(l: seq<Node>, now: int) {
    forall i :: 0 <= i < |l| ==> l[i].entry.lastUsedAt <= now
  }

  /** A shard: no key twice, within its limit, least recently used first. */
  predicate IsLru(s: Settings, l: seq<Node>, now: int) {
    DistinctKeys(l) && ByRecency(l) && NotAfter(l, now) && |l| <= Limit(s)
  }

  /** A sequence of nodes that keeps the order of another. */
  lemma {:induction false} WithoutMembers(l: seq<Node>, key: Key, n: Node)
    ensures n in Without(l, key) <==> n in l && n.key != key
  {
    if l != [] { WithoutMembers(l[1..], key, n); }
  }

  lemma ConsKeeps(h: Node, r: seq<Node>, now: int)
    requires DistinctKeys(r) && ByRecency(r) && NotAfter(r, now) && h.entry.lastUsedAt <= now
    requires forall i :: 0 <= i < |r| ==> r[i].key != h.key && h.entry.lastUsedAt <= r[i].entry.lastUsedAt
    ensures DistinctKeys([h] + r) && ByRecency([h] + r) && NotAfter([h] + r, now)
  {
  }

  lemma HeadFirst(l: seq<Node>, n: Node)
    requires l != [] && DistinctKeys(l) && ByRecency(l) && n in l[1..]
    ensures n.key != l[0].key && l[0].entry.lastUsedAt <= n.entry.lastUsedAt
  {
    var i :| 0 <= i < |l[1..]| && l[1..][i] == n;
    assert l[i + 1] == n;
  }

  lemma {:induction false} WithoutKeeps(s: Settings, l: seq<Node>, key: Key, now: int)
    requires IsLru(s, l, now)
    ensures IsLru(s, Without(l, key), now)
    ensures |Without(l, key)| <= |l| && (Find(l, key).Some? ==> |Without(l, key)| < |l|)
  {
    if l != [] {
      WithoutKeeps(s, l[1..], key, now);
      var r := Without(l[1..], key);
      forall i | 0 <= i < |r| ensures r[i].key != l[0].key && l[0].entry.lastUsedAt <= r[i].entry.lastUsedAt {
        WithoutMembers(l[1..], key, r[i]);
        HeadFirst(l, r[i]);
      }
      ConsKeeps(l[0], r, now);
    }
  }

  lemma WithoutHasNot(l: seq<Node>, key: Key)
    ensures !Has(Without(l, key), key)
  {
    var r := Without(l, key);
    forall i | 0 <= i < |r| ensures r[i].key != key {
      WithoutMembers(l, key, r[i]);
    }
  }

  lemma AppendKeeps(s: Settings, l: seq<Node>, n: Node, now: int)
    requires DistinctKeys(l) && ByRecency(l) && NotAfter(l, now) && !Has(l, n.key) && n.entry.lastUsedAt == now
    ensures DistinctKeys(l + [n]) && ByRecency(l + [n]) && NotAfter(l + [n], now)
  {
  }

  lemma UseKeeps(s: Settings, l: seq<Node>, key: Key, e: Entry, earlier: int, now: int)
    requires IsLru(s, l, earlier) && earlier <= now && Find(l, key).Some? && e.lastUsedAt == now
    ensures IsLru(s, Use(l, key, e), now) && Use(l, key, e)[|Use(l, key, e)| - 1] == Node(key, e)
  {
    WithoutKeeps(s, l, key, earlier);
    WithoutHasNot(l, key);
    AppendKeeps(s, Without(l, key), Node(key, e), now);
  }

  lemma InsertKeeps(s: Settings, l: seq<Node>, n: Node, earlier: int, now: int)
    requires IsLru(s, l, earlier) && earlier <= now && !Has(l, n.key) && n.entry.lastUsedAt == now
    ensures var t := Trim(l + [n], Limit(s)); IsLru(s, t, now) && t != [] && t[|t| - 1] == n
  {
    AppendKeeps(s, l, n, now);
  }

  lemma {:induction false} FindHas(l: seq<Node>, key: Key)
    ensures Find(l, key).Some? <==> Has(l, key)
    ensures Find(l, key).Some? ==> Node(key, Find(l, key).value) in l
  {
    if l != [] {
      FindHas(l[1..], key);
      if Has(l, key) && l[0].key != key {
        var i :| 0 <= i < |l| && l[i].key == key;
        assert l[1..][i - 1].key == key;
      }
      if Has(l[1..], key) {
        var i :| 0 <= i < |l[1..]| && l[1..][i].key == key;
        assert l[i + 1].key == key;
      }
    }
  }

  /** A lookup keeps the shard a shard, and its key is in it afterwards: a new entry survives the eviction it causes. */
  lemma LookupKeeps(s: Settings, l: seq<Node>, key: Key, q: Question, earlier: int, now: int)
    requires IsLru(s, l, earlier) && earlier <= now
    ensures var r := Lookup(s, l, key, q, now).0; IsLru(s, r, now) && r != [] && r[|r| - 1].key == key
  {
    FindHas(l, key);
    WithoutKeeps(s, l, key, earlier);
    WithoutHasNot(l, key);
    var created := Node(key, Entry(q, Pending, now, now, now, []));
    match Find(l, key)
    case Some(e) =>
      if Expired(s, e, now) {
        InsertKeeps(s, Without(l, key), created, earlier, now);
      } else {
        UseKeeps(s, l, key, e.(lastUsedAt := now), earlier, now);
        UseKeeps(s, l, key, e.(lastUsedAt := now, lastDispatchAt := now), earlier, now);
      }
    case None =>
      InsertKeeps(s, l, created, earlier, now);
  }

  lemma FetchKeeps(s: Settings, l: seq<Node>, key: Key, earlier: int, now: int)
    requires IsLru(s, l, earlier) && earlier <= now
    ensures IsLru(s, Fetch(s, l, key, now).0, now)
  {
    WithoutKeeps(s, l, key, earlier);
    if Find(l, key).Some? {
      UseKeeps(s, l, key, Find(l, key).value.(lastUsedAt := now), earlier, now);
    }
  }

  lemma StoreKeeps(s: Settings, l: seq<Node>, key: Key, q: Question, response: seq<byte>, earlier: int, now: int)
    requires IsLru(s, l, earlier) && earlier <= now
    ensures IsLru(s, Store1(s, l, key, q, response, now), now)
    ensures |response| >= 2 ==> Has(Store1(s, l, key, q, response, now), key)
  {
    FindHas(l, key);
    var r := Store1(s, l, key, q, response, now);
    if |response| >= 2 {
      match Find(l, key)
      case Some(e) =>
        UseKeeps(s, l, key, r[|Without(l, key)|].entry, earlier, now);
        assert r[|r| - 1].key == key;
      case None =>
        InsertKeeps(s, l, Node(key, Entry(q, Ready, now, now, 0, Normalized(response))), earlier, now);
        assert r[|r| - 1].key == key;
    }
  }

  lemma {:induction false} NoPendingMembers(l: seq<Node>, n: Node)
    ensures n in NoPending(l) <==> n in l && n.entry.status.Ready?
  {
    if l != [] { NoPendingMembers(l[1..], n); }
  }

  lemma {:induction false} ClearKeeps(s: Settings, l: seq<Node>, now: int)
    requires IsLru(s, l, now)
    ensures IsLru(s, NoPending(l), now) && |NoPending(l)| <= |l|
  {
    if l != [] {
      ClearKeeps(s, l[1..], now);
      var r := NoPending(l[1..]);
      forall i | 0 <= i < |r| ensures r[i].key != l[0].key && l[0].entry.lastUsedAt <= r[i].entry.lastUsedAt {
        NoPendingMembers(l[1..], r[i]);
        HeadFirst(l, r[i]);
      }
      ConsKeeps(l[0], r, now);
    }
  }

  lemma {:induction false} ClearLeavesNone(l: seq<Node>)
    ensures CountPending(NoPending(l)) == 0
  {
    if l != [] {
      ClearLeavesNone(l[1..]);
      var r := NoPending(l[1..]);
      assert ([l[0]] + r)[1..] == r && [] + r == r;
    }
  }
}
