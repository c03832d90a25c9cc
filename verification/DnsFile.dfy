/** The cache file: what SaveToFile writes, what LoadFromFile makes of any bytes, and the round trip between them. */
module DnsFile {
  import opened Wrappers
  import opened SeqNum
  import opened Numerals
  import opened DnsCache

  const MAGIC: nat := 0x444E5343
  const VERSION: nat := 1
  const SECOND: int := 1_000_000_000

  // ---------------------------------------------------------------------
  // Fields
  // ---------------------------------------------------------------------

  /** An unsigned big-endian field of `n` bytes, as a conversion to that width truncates it. */
  function Number(v: nat, n: nat): (s: seq<byte>)
    ensures |s| == n
  {
    Digits(256, v, n)
  }

  /** A length-prefixed byte string; the length is truncated to 16 bits. */
  function Counted(s: seq<byte>): seq<byte> {
    Number(|s| % 65536, 2) + s
  }

  const INT64: nat := 0x1_0000_0000_0000_0000

  /** Whole seconds, as a two's complement 64-bit field. */
  function Seconds(t: int): nat {
    (t / SECOND) % INT64
  }

  function FromSeconds(v: nat): int {
    (if v >= INT64 / 2 then v - INT64 else v) * SECOND
  }

  /** Reading from the front of the rest of the file: io.EOF when nothing is left, an error when too little is. */
  datatype Read<T> = Got(value: T, rest: seq<byte>) | AtEnd | Broken

  function Take(s: seq<byte>, n: nat): Read<seq<byte>> {
    if n == 0 then Got([], s) else if s == [] then AtEnd else if |s| < n then Broken else Got(s[..n], s[n..])
  }

  function TakeNumber(s: seq<byte>, n: nat): Read<nat> {
    match Take(s, n)
    case Got(d, rest) => Got(Value(256, d), rest)
    case AtEnd => AtEnd
    case Broken => Broken
  }

  function TakeCounted(s: seq<byte>): Read<seq<byte>> {
    match TakeNumber(s, 2)
    case Got(n, rest) => Take(rest, n)
    case AtEnd => AtEnd
    case Broken => Broken
  }

  lemma TakeBack(d: seq<byte>, rest: seq<byte>)
    ensures Take(d + rest, |d|) == Got(d, rest)
  {
    assert (d + rest)[..|d|] == d && (d + rest)[|d|..] == rest;
    if d == [] { assert d + rest == rest; }
  }

  lemma NumberBack(v: nat, n: nat, rest: seq<byte>)
    requires v < Pow(256, n)
    ensures TakeNumber(Number(v, n) + rest, n) == Got(v, rest)
  {
    TakeBack(Number(v, n), rest);
    ValueOfDigits(256, v, n);
  }

  lemma Widths()
    ensures Pow(256, 2) == 65536 && Pow(256, 4) == 0x1_0000_0000 && Pow(256, 8) == INT64
  {
    assert Pow(256, 0) == 1 && Pow(256, 1) == 256 && Pow(256, 2) == 65536 && Pow(256, 3) == 0x100_0000;
    assert Pow(256, 4) == 0x1_0000_0000 && Pow(256, 5) == 0x100_0000_0000 && Pow(256, 6) == 0x1_0000_0000_0000;
  }

  lemma CountedBack(s: seq<byte>, rest: seq<byte>)
    requires |s| < 65536
    ensures TakeCounted(Counted(s) + rest) == Got(s, rest)
  {
    Widths();
    assert Counted(s) + rest == Number(|s|, 2) + (s + rest);
    NumberBack(|s|, 2, s + rest);
    TakeBack(s, rest);
  }

  // ---------------------------------------------------------------------
  // Entries
  // ---------------------------------------------------------------------

  /** writeBinaryEntry. */
  function WriteEntry(n: Node): seq<byte> {
    Counted(n.key) + (Counted(n.entry.question.domain)
    + (Number(n.entry.question.qType, 2) + (Number(n.entry.question.qClass, 2)
    + (Counted(n.entry.response)
    + (Number(Seconds(n.entry.createdAt), 8) + Number(Seconds(n.entry.lastUsedAt), 8))))))
  }

  /** readBinaryEntry: an error of any field is the error of the entry. */
  function ReadEntry(s: seq<byte>): (r: Read<Node>)
    ensures r.Got? ==> r.value.entry.status.Ready?
  {
    match TakeCounted(s) case AtEnd => AtEnd case Broken => Broken case Got(key, s1) =>
    match TakeCounted(s1) case AtEnd => AtEnd case Broken => Broken case Got(domain, s2) =>
    ReadRest(key, domain, s2)
  }

  function ReadRest(key: seq<byte>, domain: seq<byte>, s: seq<byte>): Read<Node> {
    match TakeNumber(s, 2) case AtEnd => AtEnd case Broken => Broken case Got(qType, s1) =>
    match TakeNumber(s1, 2) case AtEnd => AtEnd case Broken => Broken case Got(qClass, s2) =>
    match TakeCounted(s2) case AtEnd => AtEnd case Broken => Broken case Got(response, s3) =>
    match ReadTimes(s3) case AtEnd => AtEnd case Broken => Broken case Got(times, s4) =>
    Got(Assembled(key, domain, qType, qClass, response, times.0, times.1), s4)
  }

  function Assembled(key: seq<byte>, domain: seq<byte>, qType: nat, qClass: nat, response: seq<byte>,
                     created: int, used: int): Node {
    Node(key, Entry(Question(domain, qType % 65536, qClass % 65536), Ready, created, used, 0, response))
  }

  function ReadTimes(s: seq<byte>): Read<(int, int)> {
    match TakeNumber(s, 8) case AtEnd => AtEnd case Broken => Broken case Got(created, s1) =>
    match TakeNumber(s1, 8) case AtEnd => AtEnd case Broken => Broken case Got(used, s2) =>
    Got((FromSeconds(created), FromSeconds(used)), s2)
  }

  /** The lengths and instants the format has room for. */
  predicate Encodable(n: Node) {
    && |n.key| < 65536 && |n.entry.question.domain| < 65536 && |n.entry.response| < 65536
    && -(INT64 as int) / 2 <= n.entry.createdAt / SECOND < INT64 / 2
    && -(INT64 as int) / 2 <= n.entry.lastUsedAt / SECOND < INT64 / 2
  }

  function Truncated(t: int): int {
    t / SECOND * SECOND
  }

  /** An entry as it comes back: instants in whole seconds, no dispatch. */
  function Restored(n: Node): Node {
    n.(entry := n.entry.(status := Ready, createdAt := Truncated(n.entry.createdAt),
                         lastUsedAt := Truncated(n.entry.lastUsedAt), lastDispatchAt := 0))
  }

  lemma SecondsBack(t: int)
    requires -(INT64 as int) / 2 <= t / SECOND < INT64 / 2
    ensures Seconds(t) < INT64 && FromSeconds(Seconds(t)) == Truncated(t)
  {
  }

  lemma TimesBack(created: int, used: int, rest: seq<byte>)
    requires -(INT64 as int) / 2 <= created / SECOND < INT64 / 2 && -(INT64 as int) / 2 <= used / SECOND < INT64 / 2
    ensures ReadTimes(Number(Seconds(created), 8) + Number(Seconds(used), 8) + rest)
            == Got((Truncated(created), Truncated(used)), rest)
  {
    var a, b := Number(Seconds(created), 8), Number(Seconds(used), 8);
    Widths();
    SecondsBack(created);
    SecondsBack(used);
    assert a + b + rest == a + (b + rest);
    NumberBack(Seconds(created), 8, b + rest);
    NumberBack(Seconds(used), 8, rest);
  }

  lemma HeadBack(qType: u16, qClass: u16, response: seq<byte>, times: seq<byte>)
    requires |response| < 65536
    ensures var s2 := Counted(response) + times; var s1 := Number(qClass, 2) + s2;
            && TakeNumber(Number(qType, 2) + s1, 2) == Got(qType, s1) && TakeNumber(s1, 2) == Got(qClass, s2)
            && TakeCounted(s2) == Got(response, times)
  {
    var s2 := Counted(response) + times;
    Widths();
    NumberBack(qType, 2, Number(qClass, 2) + s2);
    NumberBack(qClass, 2, s2);
    CountedBack(response, times);
  }

  lemma AssembledIsRestored(n: Node)
    ensures Assembled(n.key, n.entry.question.domain, n.entry.question.qType, n.entry.question.qClass, n.entry.response,
                      Truncated(n.entry.createdAt), Truncated(n.entry.lastUsedAt)) == Restored(n)
  {
  }

  lemma RestBack(n: Node, rest: seq<byte>)
    requires Encodable(n)
    ensures ReadRest(n.key, n.entry.question.domain,
              Number(n.entry.question.qType, 2) + (Number(n.entry.question.qClass, 2) + (Counted(n.entry.response)
              + (Number(Seconds(n.entry.createdAt), 8) + Number(Seconds(n.entry.lastUsedAt), 8) + rest))))
            == Got(Restored(n), rest)
  {
    var times := Number(Seconds(n.entry.createdAt), 8) + Number(Seconds(n.entry.lastUsedAt), 8) + rest;
    HeadBack(n.entry.question.qType, n.entry.question.qClass, n.entry.response, times);
    TimesBack(n.entry.createdAt, n.entry.lastUsedAt, rest);
    AssembledIsRestored(n);
  }

  /** An entry that was written is read back, and what follows it is untouched. */
  lemma EntryBack(n: Node, rest: seq<byte>)
    requires Encodable(n)
    ensures ReadEntry(WriteEntry(n) + rest) == Got(Restored(n), rest)
  {
    var tail := Number(n.entry.question.qType, 2) + (Number(n.entry.question.qClass, 2) + (Counted(n.entry.response)
      + (Number(Seconds(n.entry.createdAt), 8) + Number(Seconds(n.entry.lastUsedAt), 8) + rest)));
    Regroup(Counted(n.key), Counted(n.entry.question.domain), Number(n.entry.question.qType, 2),
            Number(n.entry.question.qClass, 2), Counted(n.entry.response), Number(Seconds(n.entry.createdAt), 8),
            Number(Seconds(n.entry.lastUsedAt), 8), rest);
    CountedBack(n.key, Counted(n.entry.question.domain) + tail);
    CountedBack(n.entry.question.domain, tail);
    RestBack(n, rest);
  }

  lemma Associate(a: seq<byte>, b: seq<byte>, c: seq<byte>)
    ensures (a + b) + c == a + (b + c)
  {
  }

  lemma Regroup(a: seq<byte>, b: seq<byte>, c: seq<byte>, d: seq<byte>, e: seq<byte>, f: seq<byte>, g: seq<byte>,
                r: seq<byte>)
    ensures (a + (b + (c + (d + (e + (f + g)))))) + r == a + (b + (c + (d + (e + (f + g + r)))))
  {
    Associate(a, b + (c + (d + (e + (f + g)))), r);
    Associate(b, c + (d + (e + (f + g))), r);
    Associate(c, d + (e + (f + g)), r);
    Associate(d, e + (f + g), r);
    Associate(e, f + g, r);
  }

  // ---------------------------------------------------------------------
  // Files
  // ---------------------------------------------------------------------

  /** The entries of a shard a save writes. */
  function Kept(s: Settings, l: seq<Node>, now: int): (r: seq<Node>)
    ensures |r| <= |l|
  {
    if l == [] then []
    else (if l[0].entry.status.Ready? && !Expired(s, l[0].entry, now) then [l[0]] else []) + Kept(s, l[1..], now)
  }

  function AllKept(s: Settings, lists: seq<seq<Node>>, now: int): seq<Node> {
    if lists == [] then [] else AllKept(s, lists[..|lists| - 1], now) + Kept(s, lists[|lists| - 1], now)
  }

  function WriteNodes(l: seq<Node>): seq<byte> {
    if l == [] then [] else WriteEntry(l[0]) + WriteNodes(l[1..])
  }

  function Header(count: nat): seq<byte> {
    Number(MAGIC, 4) + (Number(VERSION, 2) + Number(count, 4))
  }

  /** SaveToFile: the header counts the entries that follow, modulo 2^32. */
  function File(s: Settings, lists: seq<seq<Node>>, now: int): seq<byte> {
    Header(|AllKept(s, lists, now)|) + WriteNodes(AllKept(s, lists, now))
  }

  /** The entries read before the end of the file, and whether reading failed on one of them. */
  datatype Loaded = Loaded(nodes: seq<Node>, failed: bool)

  predicate AllReady(l: seq<Node>) {
    forall i :: 0 <= i < |l| ==> l[i].entry.status.Ready?
  }

  /** Up to `count` entries, each read by `read`. */
  function ReadAll(read: seq<byte> -> Read<Node>, s: seq<byte>, count: nat): Loaded
    decreases count
  {
    if count == 0 then Loaded([], false)
    else
      match read(s)
      case AtEnd => Loaded([], false)
      case Broken => Loaded([], true)
      case Got(n, rest) =>
        var l := ReadAll(read, rest, count - 1);
        Loaded([n] + l.nodes, l.failed)
  }

  lemma ReadsOne(read: seq<byte> -> Read<Node>, s: seq<byte>, n: Node, rest: seq<byte>, count: nat)
    requires read(s) == Got(n, rest)
    ensures var l := ReadAll(read, rest, count); ReadAll(read, s, count + 1) == Loaded([n] + l.nodes, l.failed)
  {
  }

  /** Whoever reads only ready entries reads only ready ones. */
  lemma {:induction false} ReadAllReady(read: seq<byte> -> Read<Node>, s: seq<byte>, count: nat)
    requires forall t :: read(t).Got? ==> read(t).value.entry.status.Ready?
    ensures AllReady(ReadAll(read, s, count).nodes)
    decreases count
  {
    if count > 0 && read(s).Got? { ReadAllReady(read, read(s).rest, count - 1); }
  }

  function ReadNodes(s: seq<byte>, count: nat): (l: Loaded)
    ensures AllReady(l.nodes)
  {
    ReadAllReady(ReadEntry, s, count);
    ReadAll(ReadEntry, s, count)
  }

  /** The entries of a file, or an error for a header that is not this format's. */
  function ReadFile(s: seq<byte>): Result<Loaded> {
    match TakeNumber(s, 4) case AtEnd => Err case Broken => Err case Got(magic, s1) =>
    if magic != MAGIC then Err else
    match TakeNumber(s1, 2) case AtEnd => Err case Broken => Err case Got(version, s2) =>
    if version != VERSION then Err else
    match TakeNumber(s2, 4) case AtEnd => Err case Broken => Err case Got(count, s3) =>
    Ok(ReadNodes(s3, count))
  }

  /** The entries that are not expired. */
  function Fresh(s: Settings, l: seq<Node>, now: int): seq<Node> {
    if l == [] then [] else (if Expired(s, l[0].entry, now) then [] else [l[0]]) + Fresh(s, l[1..], now)
  }

  /** The entries whose keys belong to shard `i`, in their order. */
  function OfShard(place: Key -> nat, l: seq<Node>, i: nat): seq<Node> {
    if l == [] then [] else (if place(l[0].key) == i then [l[0]] else []) + OfShard(place, l[1..], i)
  }

  function RestoredAll(l: seq<Node>): (r: seq<Node>)
    ensures |r| == |l| && forall k :: 0 <= k < |l| ==> r[k] == Restored(l[k])
  {
    seq(|l|, k requires 0 <= k < |l| => Restored(l[k]))
  }

  lemma {:induction false} NodesBack(l: seq<Node>)
    requires forall k :: 0 <= k < |l| ==> Encodable(l[k])
    ensures ReadNodes(WriteNodes(l), |l|) == Loaded(RestoredAll(l), false)
  {
    if l != [] {
      NodesBack(l[1..]);
      EntryBack(l[0], WriteNodes(l[1..]));
      ReadsOne(ReadEntry, WriteNodes(l), Restored(l[0]), WriteNodes(l[1..]), |l| - 1);
      assert RestoredAll(l) == [Restored(l[0])] + RestoredAll(l[1..]);
    } else {
      assert RestoredAll(l) == [];
    }
  }

  lemma HeaderBack(count: nat, body: seq<byte>)
    requires count < 0x1_0000_0000
    ensures ReadFile(Header(count) + body) == Ok(ReadNodes(body, count))
  {
    Widths();
    var c := Number(count, 4) + body;
    var v := Number(VERSION, 2) + c;
    assert Header(count) + body == Number(MAGIC, 4) + v by {
      Associate(Number(MAGIC, 4), Number(VERSION, 2) + Number(count, 4), body);
      Associate(Number(VERSION, 2), Number(count, 4), body);
    }
    NumberBack(MAGIC, 4, v);
    NumberBack(VERSION, 2, c);
    NumberBack(count, 4, body);
  }

  // ---------------------------------------------------------------------
  // Which shard gets what back
  // ---------------------------------------------------------------------

  /** Every entry is in the shard its key belongs to. */
  predicate Placed(place: Key -> nat, l: seq<Node>, i: nat) {
    forall k :: 0 <= k < |l| ==> place(l[k].key) == i
  }

  lemma Concatenates(a: seq<Node>, b: seq<Node>, c: seq<Node>)
    ensures a + (b + c) == (a + b) + c
  {
  }

  lemma {:induction false} OfShardAppend(place: Key -> nat, a: seq<Node>, b: seq<Node>, i: nat)
    ensures OfShard(place, a + b, i) == OfShard(place, a, i) + OfShard(place, b, i)
  {
    if a == [] {
      assert a + b == b;
    } else {
      var l := a + b;
      assert l[0] == a[0] && l[1..] == a[1..] + b;
      OfShardAppend(place, a[1..], b, i);
      Concatenates(if place(a[0].key) == i then [a[0]] else [], OfShard(place, a[1..], i), OfShard(place, b, i));
    }
  }

  lemma {:induction false} OfShardPlaced(place: Key -> nat, l: seq<Node>, j: nat, i: nat)
    requires Placed(place, l, j)
    ensures OfShard(place, l, i) == if i == j then l else []
  {
    if l != [] { OfShardPlaced(place, l[1..], j, i); }
  }

  lemma {:induction false} KeptPlaced(s: Settings, place: Key -> nat, l: seq<Node>, now: int, i: nat)
    requires Placed(place, l, i)
    ensures Placed(place, Kept(s, l, now), i)
  {
    if l != [] { KeptPlaced(s, place, l[1..], now, i); }
  }

  lemma {:induction false} AllKeptOfShard(s: Settings, place: Key -> nat, lists: seq<seq<Node>>, now: int, i: nat)
    requires forall j :: 0 <= j < |lists| ==> Placed(place, lists[j], j)
    ensures OfShard(place, AllKept(s, lists, now), i) == if i < |lists| then Kept(s, lists[i], now) else []
  {
    if lists != [] {
      var n := |lists| - 1;
      AllKeptOfShard(s, place, lists[..n], now, i);
      KeptPlaced(s, place, lists[n], now, n);
      OfShardPlaced(place, Kept(s, lists[n], now), n, i);
      OfShardAppend(place, AllKept(s, lists[..n], now), Kept(s, lists[n], now), i);
    }
  }

  lemma {:induction false} RestoredFreshOfShard(s: Settings, place: Key -> nat, l: seq<Node>, now: int, i: nat)
    ensures OfShard(place, Fresh(s, RestoredAll(l), now), i) == Fresh(s, RestoredAll(OfShard(place, l, i)), now)
  {
    if l == [] {
      assert RestoredAll(l) == [];
    } else {
      var n, more := Restored(l[0]), RestoredAll(l[1..]);
      var here := RestoredAll(OfShard(place, l[1..], i));
      assert RestoredAll(l) == [n] + more;
      RestoredFreshOfShard(s, place, l[1..], now, i);
      FreshCons(s, n, more, now);
      FreshCons(s, n, here, now);
      OfShardCons(place, n, Fresh(s, more, now), i);
      RestoredOfShard(place, l, i);
      EmptyFront(here);
      EmptyFront(Fresh(s, more, now));
      EmptyFront(Fresh(s, here, now));
    }
  }

  lemma EmptyFront(l: seq<Node>)
    ensures [] + l == l
  {
  }

  lemma RestoredOfShard(place: Key -> nat, l: seq<Node>, i: nat)
    requires l != []
    ensures RestoredAll(OfShard(place, l, i)) ==
            (if place(l[0].key) == i then [Restored(l[0])] else []) + RestoredAll(OfShard(place, l[1..], i))
  {
    var here := OfShard(place, l[1..], i);
    assert [] + here == here && [] + RestoredAll(here) == RestoredAll(here);
    assert RestoredAll([l[0]] + here) == [Restored(l[0])] + RestoredAll(here);
  }

  lemma FreshCons(s: Settings, n: Node, l: seq<Node>, now: int)
    ensures Fresh(s, [n] + l, now) == (if Expired(s, n.entry, now) then [] else [n]) + Fresh(s, l, now)
  {
    assert ([n] + l)[1..] == l;
  }

  lemma OfShardCons(place: Key -> nat, n: Node, l: seq<Node>, i: nat)
    ensures OfShard(place, [n] + l, i) == (if place(n.key) == i then [n] else []) + OfShard(place, l, i)
  {
    assert ([n] + l)[1..] == l;
  }

  /**
   * Saving and loading: the file's count is the number of entries written, and every shard gets back, in the
   * same order, its ready entries that had not expired when saved, with instants cut to seconds, except those
   * that are expired after the cut when loaded.
   */
  lemma SaveLoadRoundTrip(s: Settings, place: Key -> nat, lists: seq<seq<Node>>, savedAt: int, now: int, i: nat)
    requires (forall j :: 0 <= j < |lists| ==> Placed(place, lists[j], j)) && i < |lists|
    requires forall k :: 0 <= k < |AllKept(s, lists, savedAt)| ==> Encodable(AllKept(s, lists, savedAt)[k])
    requires |AllKept(s, lists, savedAt)| < 0x1_0000_0000
    ensures ReadFile(File(s, lists, savedAt)) == Ok(Loaded(RestoredAll(AllKept(s, lists, savedAt)), false))
    ensures OfShard(place, Fresh(s, RestoredAll(AllKept(s, lists, savedAt)), now), i)
            == Fresh(s, RestoredAll(Kept(s, lists[i], savedAt)), now)
  {
    var all := AllKept(s, lists, savedAt);
    HeaderBack(|all|, WriteNodes(all));
    NodesBack(all);
    RestoredFreshOfShard(s, place, all, now, i);
    AllKeptOfShard(s, place, lists, savedAt, i);
  }

  lemma {:induction false} FreshIsShorter(s: Settings, l: seq<Node>, now: int)
    ensures |Fresh(s, l, now)| <= |l|
  {
    if l != [] { FreshIsShorter(s, l[1..], now); }
  }

  /** With the record limit unchanged nothing that comes back is evicted again. */
  lemma NothingEvictedOnLoad(s: Settings, l: seq<Node>, savedAt: int, now: int)
    requires |l| <= Limit(s)
    ensures Trim(Fresh(s, RestoredAll(Kept(s, l, savedAt)), now), Limit(s))
        == Fresh(s, RestoredAll(Kept(s, l, savedAt)), now)
  {
    FreshIsShorter(s, RestoredAll(Kept(s, l, savedAt)), now);
  }
}
