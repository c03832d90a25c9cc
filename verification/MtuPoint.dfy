/** Choosing the session's MTU pair over the usable resolvers: the throughput-optimal point and the high-MTU one. */
module MtuPoint {

  datatype Resolver = Resolver(isValid: bool, upload: int, download: int)

  /** The pair of a usable resolver. */
  datatype Pair = Pair(upload: int, download: int)

  /** The pairs of the usable resolvers, in order. */
  function Usable(rs: seq<Resolver>): (c: seq<Pair>)
    ensures forall i :: 0 <= i < |c| ==> c[i].upload > 0 && c[i].download > 0
  {
    if rs == [] then []
    else (if rs[0].isValid && rs[0].download > 0 && rs[0].upload > 0 then [Pair(rs[0].upload, rs[0].download)] else [])
         + Usable(rs[1..])
  }

  /** The usable resolvers are the valid ones with both values measured. */
  lemma {:induction false} UsableMembers(rs: seq<Resolver>, p: Pair)
    ensures p in Usable(rs) <==>
            p.upload > 0 && p.download > 0
            && exists v :: v in rs && v.isValid && v.upload == p.upload && v.download == p.download
  {
    if rs != [] { UsableMembers(rs[1..], p); }
  }

  predicate Sustains(p: Pair, upload: int, download: int) {
    p.upload >= upload && p.download >= download
  }

  /** How many resolvers sustain both values. */
  function Pool(c: seq<Pair>, upload: int, download: int): (n: nat)
    ensures n <= |c|
  {
    if c == [] then 0
    else Pool(c[..|c| - 1], upload, download) + if Sustains(c[|c| - 1], upload, download) then 1 else 0
  }

  /** The resolvers that sustain both values, as positions. */
  function Sustaining(c: seq<Pair>, upload: int, download: int): set<nat> {
    set i | 0 <= i < |c| && c[i].upload >= upload && c[i].download >= download
  }

  /** The pool is their number. */
  lemma {:induction false} PoolCounts(c: seq<Pair>, upload: int, download: int)
    ensures Pool(c, upload, download) == |Sustaining(c, upload, download)|
  {
    if c == [] {
      assert Sustaining(c, upload, download) == {};
    } else {
      var n := |c| - 1;
      PoolCounts(c[..n], upload, download);
      var before := Sustaining(c[..n], upload, download);
      assert Sustaining(c, upload, download) == if Sustains(c[n], upload, download) then before + {n} else before;
    }
  }

  function Score(c: seq<Pair>, p: Pair): int {
    (p.upload + p.download) * Pool(c, p.upload, p.download)
  }

  // ---------------------------------------------------------------------
  // The inner loop
  // ---------------------------------------------------------------------

  /** The pool of a floor and the least values in it: those are the floor's own. */
  method Measure(c: seq<Pair>, f: nat) returns (pool: nat, minUpload: int, minDownload: int)
    requires f < |c| && forall i :: 0 <= i < |c| ==> c[i].upload > 0 && c[i].download > 0
    ensures pool == Pool(c, c[f].upload, c[f].download) && pool > 0
    ensures minUpload == c[f].upload && minDownload == c[f].download
  {
    var floor := c[f];
    pool, minUpload, minDownload := 0, 0, 0;
    for i := 0 to |c|
      invariant pool == Pool(c[..i], floor.upload, floor.download)
      invariant minUpload == 0 || floor.upload <= minUpload
      invariant minDownload == 0 || floor.download <= minDownload
      invariant f < i ==> pool > 0 && minUpload == floor.upload && minDownload == floor.download
    {
      assert c[..i + 1][..i] == c[..i];
      if !(c[i].upload < floor.upload || c[i].download < floor.download) {
        pool := pool + 1;
        if minUpload == 0 || c[i].upload < minUpload { minUpload := c[i].upload; }
        if minDownload == 0 || c[i].download < minDownload { minDownload := c[i].download; }
      }
    }
    assert c[..|c|] == c;
  }

  // ---------------------------------------------------------------------
  // The throughput-optimal point
  // ---------------------------------------------------------------------

  /** No resolver's own pair scores more, and of those that score as much none has a larger download. */
  predicate BestOf(c: seq<Pair>, n: nat, p: Pair) {
    n <= |c| && forall j :: 0 <= j < n ==>
      Score(c, c[j]) < Score(c, p) || (Score(c, c[j]) == Score(c, p) && c[j].download <= p.download)
  }

  /** The usable pairs, as the first loop of either method collects them. */
  method Collect(rs: seq<Resolver>) returns (c: seq<Pair>)
    ensures c == Usable(rs)
  {
    c := [];
    for i := 0 to |rs|
      invariant c + Usable(rs[i..]) == Usable(rs)
    {
      ghost var rest := rs[i..];
      assert rest[0] == rs[i] && rest[1..] == rs[i + 1..];
      if rs[i].isValid && rs[i].download > 0 && rs[i].upload > 0 {
        assert c + ([Pair(rs[i].upload, rs[i].download)] + Usable(rs[i + 1..]))
               == (c + [Pair(rs[i].upload, rs[i].download)]) + Usable(rs[i + 1..]);
        c := c + [Pair(rs[i].upload, rs[i].download)];
      } else {
        assert [] + Usable(rs[i + 1..]) == Usable(rs[i + 1..]);
      }
    }
    assert Usable(rs[|rs|..]) == [] && c + [] == c;
  }

  /** Bytes both ways times how many resolvers sustain them. */
  function Throughput(c: seq<Pair>, upload: int, download: int): int {
    (upload + download) * |Sustaining(c, upload, download)|
  }

  /** No resolver's own pair gives more; if one gives as much, its download is no larger. */
  predicate MostThroughput(c: seq<Pair>, upload: int, download: int) {
    forall i :: 0 <= i < |c| ==>
      Throughput(c, c[i].upload, c[i].download) < Throughput(c, upload, download)
      || (Throughput(c, c[i].upload, c[i].download) == Throughput(c, upload, download) && c[i].download <= download)
  }

  lemma ScoreIsThroughput(c: seq<Pair>, p: Pair)
    ensures Score(c, p) == Throughput(c, p.upload, p.download)
  {
    PoolCounts(c, p.upload, p.download);
  }

  lemma BestIsMostThroughput(c: seq<Pair>, p: Pair)
    requires BestOf(c, |c|, p)
    ensures MostThroughput(c, p.upload, p.download)
  {
    ScoreIsThroughput(c, p);
    forall i | 0 <= i < |c| ensures Score(c, c[i]) == Throughput(c, c[i].upload, c[i].download) {
      ScoreIsThroughput(c, c[i]);
    }
  }

  /** selectMTUOperatingPoint: some resolver's own pair, the exact pool, and the greatest score among own pairs. */
  method SelectPoint(rs: seq<Resolver>) returns (upload: int, download: int, pool: nat)
    ensures Usable(rs) == [] ==> (upload, download, pool) == (0, 0, 0)
    ensures Usable(rs) != [] ==>
              Pair(upload, download) in Usable(rs) && pool == Pool(Usable(rs), upload, download)
              && BestOf(Usable(rs), |Usable(rs)|, Pair(upload, download))
              && pool == |Sustaining(Usable(rs), upload, download)| && MostThroughput(Usable(rs), upload, download)
  {
    var c := Collect(rs);
    upload, download, pool := 0, 0, 0;
    var bestScore := -1;
    for f := 0 to |c|
      invariant f == 0 ==> bestScore == -1 && (upload, download, pool) == (0, 0, 0)
      invariant f > 0 ==> Pair(upload, download) in c && pool == Pool(c, upload, download)
                          && bestScore == Score(c, Pair(upload, download)) && BestOf(c, f, Pair(upload, download))
    {
      var p, minUpload, minDownload := Measure(c, f);
      var score := (minUpload + minDownload) * p;
      ScoreIsPositive(c, f);
      if score > bestScore || (score == bestScore && minDownload > download) {
        bestScore, upload, download, pool := score, minUpload, minDownload, p;
      }
    }
    if |c| > 0 {
      PoolCounts(c, upload, download);
      BestIsMostThroughput(c, Pair(upload, download));
    }
  }

  lemma ScoreIsPositive(c: seq<Pair>, f: nat)
    requires f < |c| && c[f].upload > 0 && c[f].download > 0
    ensures Score(c, c[f]) >= 0
    ensures Pair(c[f].upload, c[f].download) == c[f]
  {
  }

  // ---------------------------------------------------------------------
  // Optimality over all thresholds
  // ---------------------------------------------------------------------

  /** Any two pairs compare: one resolver is at least as good in both directions. */
  predicate IsChain(c: seq<Pair>) {
    forall i, j :: 0 <= i < |c| && 0 <= j < |c| ==>
      Sustains(c[i], c[j].upload, c[j].download) || Sustains(c[j], c[i].upload, c[i].download)
  }

  lemma {:induction false} PoolMonotone(c: seq<Pair>, u: int, d: int, u1: int, d1: int)
    requires forall i :: 0 <= i < |c| && Sustains(c[i], u, d) ==> Sustains(c[i], u1, d1)
    ensures Pool(c, u, d) <= Pool(c, u1, d1)
  {
    if c != [] { PoolMonotone(c[..|c| - 1], u, d, u1, d1); }
  }

  /** Among the first `n`, member `m` of the pool is below every other. */
  predicate LeastMember(c: seq<Pair>, u: int, d: int, n: nat, m: nat) {
    && m < n <= |c| && Sustains(c[m], u, d)
    && forall i :: 0 <= i < n && Sustains(c[i], u, d) ==> Sustains(c[i], c[m].upload, c[m].download)
  }

  predicate Inhabited(c: seq<Pair>, u: int, d: int, n: nat) {
    n <= |c| && exists i :: 0 <= i < n && Sustains(c[i], u, d)
  }

  /** A nonempty pool has a least member when the pairs form a chain. */
  lemma {:induction false} LeastOfPool(c: seq<Pair>, u: int, d: int, n: nat)
    requires IsChain(c) && Inhabited(c, u, d, n)
    ensures exists m: nat :: LeastMember(c, u, d, n, m)
  {
    if Inhabited(c, u, d, n - 1) {
      LeastOfPool(c, u, d, n - 1);
      var m: nat :| LeastMember(c, u, d, n - 1, m);
      LeastExtends(c, u, d, n, m);
    } else {
      assert LeastMember(c, u, d, n, n - 1);
    }
  }

  lemma LeastExtends(c: seq<Pair>, u: int, d: int, n: nat, m: nat)
    requires IsChain(c) && 0 < n <= |c| && LeastMember(c, u, d, n - 1, m)
    ensures LeastMember(c, u, d, n, m) || LeastMember(c, u, d, n, n - 1)
  {
    if Sustains(c[n - 1], u, d) && !Sustains(c[n - 1], c[m].upload, c[m].download) {
      assert Sustains(c[m], c[n - 1].upload, c[n - 1].download);
    }
  }

  lemma {:induction false} PoolIsInhabited(c: seq<Pair>, u: int, d: int)
    requires Pool(c, u, d) > 0
    ensures Inhabited(c, u, d, |c|)
  {
    var n := |c| - 1;
    if !Sustains(c[n], u, d) {
      PoolIsInhabited(c[..n], u, d);
      var i :| 0 <= i < n && Sustains(c[..n][i], u, d);
      assert Sustains(c[i], u, d);
    } else {
      assert Sustains(c[n], u, d);
    }
  }

  lemma Product(a: int, b: int, n: nat, m: nat)
    requires 0 <= a <= b && n <= m
    ensures a * n <= b * m
  {
    assert a * n <= b * n <= b * m;
  }

  /** When the pairs form a chain no thresholds at all score more than the best own pair. */
  lemma ChainIsGloballyOptimal(c: seq<Pair>, best: Pair, u: int, d: int)
    requires IsChain(c) && BestOf(c, |c|, best) && u >= 0 && d >= 0 && Pool(c, u, d) > 0
    ensures (u + d) * Pool(c, u, d) <= Score(c, best)
  {
    PoolIsInhabited(c, u, d);
    LeastOfPool(c, u, d, |c|);
    var m: nat :| LeastMember(c, u, d, |c|, m);
    PoolMonotone(c, u, d, c[m].upload, c[m].download);
    Product(u + d, c[m].upload + c[m].download, Pool(c, u, d), Pool(c, c[m].upload, c[m].download));
    assert Score(c, c[m]) <= Score(c, best);
  }

  /** Without a chain it can fail: two resolvers, each better in one direction, share a point neither has. */
  lemma NotGloballyOptimalInGeneral()
    ensures var c := [Pair(5, 6), Pair(6, 5)];
            BestOf(c, 2, c[0]) && (5 + 5) * Pool(c, 5, 5) > Score(c, c[0])
  {
    var a, b := Pair(5, 6), Pair(6, 5);
    assert [a, b][..1] == [a] && [a][..0] == [];
    assert Pool([a], 5, 6) == 1 && Pool([a], 6, 5) == 0 && Pool([a], 5, 5) == 1;
    assert Pool([a, b], 5, 6) == 1 && Pool([a, b], 6, 5) == 1 && Pool([a, b], 5, 5) == 2;
  }

  /** No thresholds score more than `best`. */
  ghost predicate BestOfAll(c: seq<Pair>, best: Pair) {
    forall u, d :: u >= 0 && d >= 0 && Pool(c, u, d) > 0 ==> (u + d) * Pool(c, u, d) <= Score(c, best)
  }

  /** No floor made of one resolver's upload and another's download scores more than `best`. */
  predicate BestOfCrossed(c: seq<Pair>, best: Pair) {
    forall i, j :: 0 <= i < |c| && 0 <= j < |c| && Pool(c, c[i].upload, c[j].download) > 0 ==>
      (c[i].upload + c[j].download) * Pool(c, c[i].upload, c[j].download) <= Score(c, best)
  }

  /** Every member of the pool of (u, d) sustains the upload of `i` and the download of `j`, which are no less. */
  predicate Covers(c: seq<Pair>, u: int, d: int, n: nat, i: nat, j: nat) {
    && i < n <= |c| && j < n && c[i].upload >= u && c[j].download >= d
    && forall k :: 0 <= k < n && Sustains(c[k], u, d) ==> Sustains(c[k], c[i].upload, c[j].download)
  }

  /**
   * The exact condition: the best own pair is best over all thresholds if and only if no floor made of one
   * resolver's upload and another's download scores more.
   */
  lemma GloballyOptimalExactly(c: seq<Pair>, best: Pair)
    requires forall i :: 0 <= i < |c| ==> c[i].upload > 0 && c[i].download > 0
    ensures BestOfAll(c, best) <==> BestOfCrossed(c, best)
  {
    if BestOfCrossed(c, best) {
      forall u, d | u >= 0 && d >= 0 && Pool(c, u, d) > 0 ensures (u + d) * Pool(c, u, d) <= Score(c, best) {
        CrossedCovers(c, best, u, d);
      }
    }
  }

  lemma CrossedCovers(c: seq<Pair>, best: Pair, u: int, d: int)
    requires BestOfCrossed(c, best) && u >= 0 && d >= 0 && Pool(c, u, d) > 0
    ensures (u + d) * Pool(c, u, d) <= Score(c, best)
  {
    PoolIsInhabited(c, u, d);
    LeastValues(c, u, d, |c|);
    var i: nat, j: nat :| Covers(c, u, d, |c|, i, j);
    CoveredScore(c, best, u, d, i, j);
  }

  lemma CoveredScore(c: seq<Pair>, best: Pair, u: int, d: int, i: nat, j: nat)
    requires BestOfCrossed(c, best) && u >= 0 && d >= 0 && Pool(c, u, d) > 0 && Covers(c, u, d, |c|, i, j)
    ensures (u + d) * Pool(c, u, d) <= Score(c, best)
  {
    var low, high := Pool(c, u, d), Pool(c, c[i].upload, c[j].download);
    assert low <= high by { PoolMonotone(c, u, d, c[i].upload, c[j].download); }
    assert (c[i].upload + c[j].download) * high <= Score(c, best);
    Product(u + d, c[i].upload + c[j].download, low, high);
  }

  /** The least upload and the least download of a pool, from two of its members. */
  lemma {:induction false} LeastValues(c: seq<Pair>, u: int, d: int, n: nat)
    requires Inhabited(c, u, d, n)
    ensures exists i: nat, j: nat :: Covers(c, u, d, n, i, j)
  {
    if Inhabited(c, u, d, n - 1) {
      LeastValues(c, u, d, n - 1);
      var i: nat, j: nat :| Covers(c, u, d, n - 1, i, j);
      var last := Sustains(c[n - 1], u, d);
      var i1 := if last && c[n - 1].upload < c[i].upload then n - 1 else i;
      var j1 := if last && c[n - 1].download < c[j].download then n - 1 else j;
      CoversExtends(c, u, d, n, i, j, i1, j1);
    } else {
      assert Covers(c, u, d, n, n - 1, n - 1);
    }
  }

  lemma CoversExtends(c: seq<Pair>, u: int, d: int, n: nat, i: nat, j: nat, i1: nat, j1: nat)
    requires 0 < n <= |c| && Covers(c, u, d, n - 1, i, j)
    requires i1 == if Sustains(c[n - 1], u, d) && c[n - 1].upload < c[i].upload then n - 1 else i
    requires j1 == if Sustains(c[n - 1], u, d) && c[n - 1].download < c[j].download then n - 1 else j
    ensures Covers(c, u, d, n, i1, j1)
  {
  }

  // ---------------------------------------------------------------------
  // The high-MTU point
  // ---------------------------------------------------------------------

  /** Larger download first, then larger upload. */
  predicate Higher(p: Pair, q: Pair) {
    p.download > q.download || (p.download == q.download && p.upload > q.upload)
  }

  /** Some of the first `n` pairs keeps at least `minPool` resolvers. */
  predicate Viable(c: seq<Pair>, n: nat, minPool: nat) {
    n <= |c| && exists j :: 0 <= j < n && Pool(c, c[j].upload, c[j].download) >= minPool
  }

  /** The highest of them. */
  predicate HighestOf(c: seq<Pair>, n: nat, minPool: nat, p: Pair) {
    && n <= |c| && p in c && Pool(c, p.upload, p.download) >= minPool
    && forall j :: 0 <= j < n && Pool(c, c[j].upload, c[j].download) >= minPool ==> !Higher(c[j], p)
  }

  /**
   * selectMTUOperatingPointPreferHigh: the highest own pair that keeps at least `minPool` resolvers; when there is
   * none, the throughput-optimal point.
   */
  method SelectHigh(rs: seq<Resolver>, wanted: int) returns (upload: int, download: int, pool: nat)
    ensures var c := Usable(rs); var minPool: nat := if wanted < 1 then 1 else wanted;
            if Viable(c, |c|, minPool) then
              HighestOf(c, |c|, minPool, Pair(upload, download)) && pool == Pool(c, upload, download)
            else if c == [] then (upload, download, pool) == (0, 0, 0)
            else
              && Pair(upload, download) in c && pool == Pool(c, upload, download)
              && BestOf(c, |c|, Pair(upload, download))
  {
    var minPool: nat := if wanted < 1 then 1 else wanted;
    var c := Collect(rs);
    upload, download, pool := 0, 0, 0;
    for f := 0 to |c|
      invariant !Viable(c, f, minPool) ==> (upload, download, pool) == (0, 0, 0)
      invariant Viable(c, f, minPool) ==>
                  HighestOf(c, f, minPool, Pair(upload, download)) && pool == Pool(c, upload, download) && download > 0
    {
      var p, minUpload, minDownload := Measure(c, f);
      assert Pair(minUpload, minDownload) == c[f];
      if p >= minPool {
        if minDownload > download || (minDownload == download && minUpload > upload)
           || (minDownload == download && minUpload == upload && p > pool) {
          upload, download, pool := minUpload, minDownload, p;
        }
      }
    }
    if download == 0 {
      upload, download, pool := SelectPoint(rs);
    }
  }
}
