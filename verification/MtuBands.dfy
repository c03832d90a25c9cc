/** Clustering resolvers into bands of similar download MTU. The gap ratio is the rational num/den. */
module MtuBands {
  import opened MtuPoint

  // ---------------------------------------------------------------------
  // Stable sorting by a key
  // ---------------------------------------------------------------------

  function InsertBy<T>(key: T -> int, x: T, s: seq<T>): seq<T> {
    if s == [] || key(x) <= key(s[0]) then [x] + s else [s[0]] + InsertBy(key, x, s[1..])
  }

  /** What a stable sort by `key` returns. */
  function SortBy<T>(key: T -> int, s: seq<T>): seq<T> {
    if s == [] then [] else InsertBy(key, s[0], SortBy(key, s[1..]))
  }

  predicate Ascending<T>(key: T -> int, s: seq<T>) {
    forall i, j :: 0 <= i < j < |s| ==> key(s[i]) <= key(s[j])
  }

  function WithKey<T>(key: T -> int, s: seq<T>, k: int): seq<T> {
    if s == [] then [] else (if key(s[0]) == k then [s[0]] else []) + WithKey(key, s[1..], k)
  }

  lemma {:induction false} InsertMembers<T>(key: T -> int, x: T, s: seq<T>)
    ensures multiset(InsertBy(key, x, s)) == multiset([x]) + multiset(s)
  {
    if s != [] && !(key(x) <= key(s[0])) {
      InsertMembers(key, x, s[1..]);
      assert s == [s[0]] + s[1..];
    }
  }

  lemma {:induction false} InsertAscending<T>(key: T -> int, x: T, s: seq<T>)
    requires Ascending(key, s)
    ensures Ascending(key, InsertBy(key, x, s))
  {
    if s != [] && !(key(x) <= key(s[0])) {
      InsertAscending(key, x, s[1..]);
      var r := InsertBy(key, x, s[1..]);
      InsertMembers(key, x, s[1..]);
      forall i | 0 <= i < |r| ensures key(s[0]) <= key(r[i]) {
        assert r[i] in multiset(r);
        assert r[i] == x || r[i] in s[1..];
      }
    }
  }

  lemma {:induction false} InsertStable<T>(key: T -> int, x: T, s: seq<T>, k: int)
    ensures WithKey(key, InsertBy(key, x, s), k) == WithKey(key, [x] + s, k)
  {
    if s != [] && !(key(x) <= key(s[0])) {
      InsertStable(key, x, s[1..], k);
      var r := InsertBy(key, x, s[1..]);
      assert ([s[0]] + r)[1..] == r;
      assert ([x] + s)[1..] == s && ([x] + s[1..])[1..] == s[1..];
    }
  }

  /** Sorting orders by the key, loses and adds nothing, and keeps the order of equal keys. */
  lemma {:induction false} SortIsStableSort<T>(key: T -> int, s: seq<T>)
    ensures Ascending(key, SortBy(key, s)) && multiset(SortBy(key, s)) == multiset(s)
    ensures forall k :: WithKey(key, SortBy(key, s), k) == WithKey(key, s, k)
  {
    if s != [] {
      var r := SortBy(key, s[1..]);
      SortIsStableSort(key, s[1..]);
      InsertAscending(key, s[0], r);
      InsertMembers(key, s[0], r);
      assert s == [s[0]] + s[1..];
      forall k ensures WithKey(key, SortBy(key, s), k) == WithKey(key, s, k) {
        InsertStable(key, s[0], r, k);
        assert ([s[0]] + r)[1..] == r;
      }
    }
  }

  // ---------------------------------------------------------------------
  // Bands
  // ---------------------------------------------------------------------

  datatype Band = Band(upload: int, download: int, members: seq<Resolver>)

  /** When the gap between two consecutive downloads starts a new band. */
  type GapTest = (Resolver, Resolver) -> bool

  /** The test for the ratio num/den; a ratio that is not positive stands for 1/4. */
  function RatioGap(num: int, den: nat): GapTest {
    if num <= 0 then (prev: Resolver, next: Resolver) => (next.download - prev.download) * 4 > next.download
    else (prev: Resolver, next: Resolver) => (next.download - prev.download) * den > num * next.download
  }

  predicate Gapless(gap: GapTest, s: seq<Resolver>) {
    forall i, j :: 0 <= i && j == i + 1 < |s| ==> !gap(s[i], s[j])
  }

  /** The least download of the members, and their least measured upload, or 0 if none was measured. */
  predicate Safe(b: Band) {
    && b.members != []
    && (forall i :: 0 <= i < |b.members| ==> b.download <= b.members[i].download)
    && (exists i :: 0 <= i < |b.members| && b.download == b.members[i].download)
    && LeastUpload(b.members, b.upload)
  }

  predicate LeastUpload(members: seq<Resolver>, upload: int) {
    && (forall i :: 0 <= i < |members| && members[i].upload > 0 ==> 0 < upload <= members[i].upload)
    && (upload == 0 || exists i :: 0 <= i < |members| && members[i].upload > 0 && upload == members[i].upload)
  }

  function Flatten(bands: seq<Band>): seq<Resolver> {
    if bands == [] then [] else Flatten(bands[..|bands| - 1]) + bands[|bands| - 1].members
  }

  function Last(b: Band): Resolver
    requires b.members != []
  {
    b.members[|b.members| - 1]
  }

  /** No gap inside a band, a gap between any two neighbours. */
  predicate WellCut(gap: GapTest, bands: seq<Band>) {
    && (forall b :: 0 <= b < |bands| ==> Safe(bands[b]) && Gapless(gap, bands[b].members))
    && (forall b, c :: 0 <= b && c == b + 1 < |bands| ==> gap(Last(bands[b]), bands[c].members[0]))
  }

  /** Bands cut from `s`: nothing lost, and cut exactly at the gaps. */
  predicate CutFrom(gap: GapTest, s: seq<Resolver>, bands: seq<Band>) {
    Flatten(bands) == s && WellCut(gap, bands)
  }

  /** The next band may start with `next`. */
  predicate MayFollow(gap: GapTest, bands: seq<Band>, next: Resolver) {
    bands != [] ==> bands[|bands| - 1].members != [] && gap(Last(bands[|bands| - 1]), next)
  }

  lemma AddBand(gap: GapTest, bands: seq<Band>, band: Band)
    requires WellCut(gap, bands) && Safe(band) && Gapless(gap, band.members)
    requires MayFollow(gap, bands, band.members[0])
    ensures WellCut(gap, bands + [band]) && Flatten(bands + [band]) == Flatten(bands) + band.members
  {
    assert (bands + [band])[..|bands|] == bands;
  }

  lemma LeastUploadStep(members: seq<Resolver>, i: nat, upload: int)
    requires i < |members| && LeastUpload(members[..i], upload) && upload >= 0
    ensures var x := members[i].upload;
            LeastUpload(members[..i + 1], if x > 0 && (upload == 0 || x < upload) then x else upload)
  {
    var x, s := members[i].upload, members[..i + 1];
    assert s[i] == members[i] && forall j :: 0 <= j < i ==> s[j] == members[..i][j];
    if upload != 0 && !(x > 0 && x < upload) {
      var j :| 0 <= j < i && members[..i][j].upload > 0 && upload == members[..i][j].upload;
      assert s[j].upload == upload;
    }
  }

  /** buildMTUGroup. */
  method BuildBand(members: seq<Resolver>) returns (b: Band)
    requires members != []
    ensures b.members == members && Safe(b)
  {
    var upload, download := 0, 0;
    ghost var least := 0;
    for i := 0 to |members|
      invariant i > 0 ==> 0 <= least < i && download == members[least].download
      invariant forall j :: 0 <= j < i ==> download <= members[j].download
      invariant upload >= 0 && LeastUpload(members[..i], upload)
    {
      if i == 0 || members[i].download < download { download := members[i].download; least := i; }
      ghost var least0 := upload;
      if members[i].upload > 0 {
        if upload == 0 || members[i].upload < upload { upload := members[i].upload; }
      }
      LeastUploadStep(members, i, least0);
    }
    assert members[..|members|] == members;
    b := Band(upload, download, members);
  }

  /** The loop of clusterConnectionsByMTU over the sorted resolvers. */
  method Cut(gap: GapTest, valid: seq<Resolver>) returns (bands: seq<Band>)
    requires valid != []
    ensures CutFrom(gap, valid, bands) && bands != []
  {
    bands := [];
    var current := [valid[0]];
    assert [] + current == valid[..1];
    for i := 1 to |valid|
      invariant Filling(gap, bands, current, valid, i)
    {
      bands, current := Extend(gap, bands, current, valid, i);
    }
    assert valid[..|valid|] == valid;
    var band := BuildBand(current);
    AddBand(gap, bands, band);
    bands := bands + [band];
  }

  /** The bands finished so far and the one being filled, after the first `i` resolvers. */
  predicate Filling(gap: GapTest, bands: seq<Band>, current: seq<Resolver>, valid: seq<Resolver>, i: nat) {
    && 0 < i <= |valid| && current != [] && current[|current| - 1] == valid[i - 1] && Gapless(gap, current)
    && Flatten(bands) + current == valid[..i]
    && WellCut(gap, bands) && MayFollow(gap, bands, current[0])
  }

  lemma JoinKeeps(gap: GapTest, bands: seq<Band>, current: seq<Resolver>, valid: seq<Resolver>, i: nat)
    requires i < |valid| && Filling(gap, bands, current, valid, i) && !gap(valid[i - 1], valid[i])
    ensures Filling(gap, bands, current + [valid[i]], valid, i + 1)
  {
    assert valid[..i + 1] == valid[..i] + [valid[i]];
    assert (Flatten(bands) + current) + [valid[i]] == Flatten(bands) + (current + [valid[i]]);
  }

  lemma StartKeeps(gap: GapTest, bands: seq<Band>, band: Band, valid: seq<Resolver>, i: nat)
    requires i < |valid| && Filling(gap, bands, band.members, valid, i) && gap(valid[i - 1], valid[i]) && Safe(band)
    ensures Filling(gap, bands + [band], [valid[i]], valid, i + 1)
  {
    AddBand(gap, bands, band);
    assert valid[..i + 1] == valid[..i] + [valid[i]];
  }

  /** One resolver: it joins the current band or, behind a gap, starts the next. */
  method Extend(gap: GapTest, bands: seq<Band>, current: seq<Resolver>, valid: seq<Resolver>, i: nat)
    returns (bands1: seq<Band>, current1: seq<Resolver>)
    requires i < |valid| && Filling(gap, bands, current, valid, i)
    ensures Filling(gap, bands1, current1, valid, i + 1)
  {
    if gap(valid[i - 1], valid[i]) {
      var band := BuildBand(current);
      StartKeeps(gap, bands, band, valid, i);
      bands1, current1 := bands + [band], [valid[i]];
    } else {
      JoinKeeps(gap, bands, current, valid, i);
      bands1, current1 := bands, current + [valid[i]];
    }
  }

  /** The resolvers that are clustered at all. */
  function Clusterable(rs: seq<Resolver>): seq<Resolver> {
    if rs == [] then []
    else (if rs[0].isValid && rs[0].download > 0 then [rs[0]] else []) + Clusterable(rs[1..])
  }

  function DownloadOf(r: Resolver): int {
    r.download
  }

  function MinusDownload(b: Band): int {
    -b.download
  }

  // ---------------------------------------------------------------------
  // The order of the bands
  // ---------------------------------------------------------------------

  function Reversed<T>(s: seq<T>): seq<T> {
    if s == [] then [] else Reversed(s[1..]) + [s[0]]
  }

  lemma {:induction false} ReversedMembers<T>(s: seq<T>)
    ensures multiset(Reversed(s)) == multiset(s)
  {
    if s != [] {
      ReversedMembers(s[1..]);
      assert s == [s[0]] + s[1..];
    }
  }

  lemma {:induction false} ReversedAt<T>(s: seq<T>, k: nat)
    requires k < |s|
    ensures |Reversed(s)| == |s| && Reversed(s)[k] == s[|s| - 1 - k]
  {
    if |s| > 1 { ReversedAt(s[1..], if k < |s| - 1 then k else 0); }
  }

  lemma ReversedTwice<T>(s: seq<T>)
    ensures Reversed(Reversed(s)) == s
  {
    if s != [] {
      ReversedAt(s, 0);
      ReversedAt(Reversed(s), 0);
    }
    forall k | 0 <= k < |s| ensures Reversed(Reversed(s))[k] == s[k] {
      ReversedAt(Reversed(s), k);
      ReversedAt(s, |s| - 1 - k);
    }
  }

  lemma {:induction false} InsertLast<T>(key: T -> int, x: T, s: seq<T>)
    requires forall y :: y in s ==> key(y) < key(x)
    ensures InsertBy(key, x, s) == s + [x]
  {
    if s != [] {
      InsertLast(key, x, s[1..]);
      assert s + [x] == [s[0]] + (s[1..] + [x]);
    }
  }

  /** What descends strictly is reversed by sorting. */
  lemma {:induction false} SortReverses<T>(key: T -> int, s: seq<T>)
    requires forall i, j :: 0 <= i < j < |s| ==> key(s[i]) > key(s[j])
    ensures SortBy(key, s) == Reversed(s)
  {
    if s != [] {
      SortReverses(key, s[1..]);
      ReversedMembers(s[1..]);
      forall y | y in Reversed(s[1..]) ensures key(y) < key(s[0]) {
        assert y in multiset(s[1..]);
        var i :| 0 <= i < |s[1..]| && s[1..][i] == y;
        assert s[i + 1] == y;
      }
      InsertLast(key, s[0], Reversed(s[1..]));
    }
  }

  /** A gap is only ever seen below a larger download. */
  predicate GapsRise(gap: GapTest, s: seq<Resolver>) {
    forall x, y :: x in s && y in s && gap(x, y) ==> x.download < y.download
  }

  lemma RatioGapsRise(num: int, den: nat, s: seq<Resolver>)
    requires den > 0 && forall x :: x in s ==> x.download > 0
    ensures GapsRise(RatioGap(num, den), s)
  {
    forall x, y | x in s && y in s && RatioGap(num, den)(x, y) ensures x.download < y.download {
      if num > 0 { ProductSign(y.download - x.download, den, num, y.download); }
    }
  }

  lemma ProductSign(d: int, den: nat, num: int, next: int)
    requires num > 0 && next > 0
    ensures d <= 0 ==> d * den <= num * next
  {
    assert num * next > 0;
    if d <= 0 { assert d * den <= 0; }
  }

  lemma BehindGap(gap: GapTest, front: seq<Resolver>, last: seq<Resolver>)
    requires front != [] && last != [] && Ascending(DownloadOf, front + last) && GapsRise(gap, front + last)
    requires gap(front[|front| - 1], last[0])
    ensures forall i :: 0 <= i < |last| ==> front[|front| - 1].download < last[i].download
  {
    var s := front + last;
    assert s[|front| - 1] == front[|front| - 1] && s[|front|] == last[0];
    forall i | 0 <= i < |last| ensures front[|front| - 1].download < last[i].download {
      assert s[|front| + i] == last[i];
      assert DownloadOf(s[|front|]) <= DownloadOf(s[|front| + i]);
    }
  }

  lemma {:induction false} LastBandIsHigher(gap: GapTest, bands: seq<Band>)
    requires |bands| > 1 && WellCut(gap, bands)
    requires Ascending(DownloadOf, Flatten(bands)) && GapsRise(gap, Flatten(bands))
    ensures bands[|bands| - 2].download < bands[|bands| - 1].download
  {
    var n := |bands| - 1;
    var prev, last := bands[n - 1], bands[n];
    assert Safe(prev) && Safe(last) && gap(Last(prev), last.members[0]);
    LastBandIsBehind(gap, bands[..n], prev, last);
    BandsApart(prev, last);
  }

  lemma {:induction false} LastBandIsBehind(gap: GapTest, front: seq<Band>, prev: Band, last: Band)
    requires front != [] && front[|front| - 1] == prev && prev.members != [] && last.members != []
    requires Ascending(DownloadOf, Flatten(front) + last.members) && GapsRise(gap, Flatten(front) + last.members)
    requires gap(Last(prev), last.members[0])
    ensures forall i :: 0 <= i < |last.members| ==> Last(prev).download < last.members[i].download
  {
    FlattenEnds(front);
    BehindGap(gap, Flatten(front), last.members);
  }

  lemma BandsApart(b: Band, c: Band)
    requires Safe(b) && Safe(c)
    requires forall i :: 0 <= i < |c.members| ==> Last(b).download < c.members[i].download
    ensures b.download < c.download
  {
  }

  lemma FlattenEnds(bands: seq<Band>)
    requires bands != [] && bands[|bands| - 1].members != []
    ensures Flatten(bands) != [] && Flatten(bands)[|Flatten(bands)| - 1] == Last(bands[|bands| - 1])
  {
  }

  /** Cut from ascending downloads, every band lies wholly above the ones before it. */
  lemma {:induction false} BandsAscend(gap: GapTest, bands: seq<Band>)
    requires WellCut(gap, bands) && Ascending(DownloadOf, Flatten(bands)) && GapsRise(gap, Flatten(bands))
    ensures forall b, c :: 0 <= b < c < |bands| ==> bands[b].download < bands[c].download
  {
    if |bands| > 1 {
      FrontKeeps(gap, bands);
      BandsAscend(gap, bands[..|bands| - 1]);
      LastBandIsHigher(gap, bands);
      AscendOneMore(bands);
    }
  }

  lemma {:induction false} FrontKeeps(gap: GapTest, bands: seq<Band>)
    requires bands != [] && WellCut(gap, bands)
    requires Ascending(DownloadOf, Flatten(bands)) && GapsRise(gap, Flatten(bands))
    ensures var front := bands[..|bands| - 1];
            WellCut(gap, front) && Ascending(DownloadOf, Flatten(front)) && GapsRise(gap, Flatten(front))
  {
    var front := Flatten(bands[..|bands| - 1]);
    assert forall i :: 0 <= i < |front| ==> front[i] == Flatten(bands)[i];
  }

  lemma {:induction false} AscendOneMore(bands: seq<Band>)
    requires |bands| > 1 && bands[|bands| - 2].download < bands[|bands| - 1].download
    requires var front := bands[..|bands| - 1];
             forall b, c :: 0 <= b < c < |front| ==> front[b].download < front[c].download
    ensures forall b, c :: 0 <= b < c < |bands| ==> bands[b].download < bands[c].download
  {
    var front := bands[..|bands| - 1];
    assert forall b :: 0 <= b < |front| ==> bands[b] == front[b];
  }

  lemma {:induction false} ClusterableMembers(rs: seq<Resolver>, x: Resolver)
    requires x in Clusterable(rs)
    ensures x.download > 0
  {
    if !(rs[0].isValid && rs[0].download > 0 && x == rs[0]) { ClusterableMembers(rs[1..], x); }
  }

  /** No two bands share a download, so the last sort reverses them. */
  lemma CutIsReversed(rs: seq<Resolver>, num: int, den: nat, cut: seq<Band>)
    requires den > 0 && CutFrom(RatioGap(num, den), SortBy(DownloadOf, Clusterable(rs)), cut)
    ensures SortBy(MinusDownload, cut) == Reversed(cut)
    ensures forall b, c :: 0 <= b < c < |cut| ==> cut[b].download < cut[c].download
  {
    var valid, sorted := Clusterable(rs), SortBy(DownloadOf, Clusterable(rs));
    SortIsStableSort(DownloadOf, valid);
    forall x | x in sorted ensures x.download > 0 {
      assert x in multiset(sorted);
      assert x in multiset(valid);
      ClusterableMembers(rs, x);
    }
    RatioGapsRise(num, den, sorted);
    BandsAscend(RatioGap(num, den), cut);
    assert forall b :: 0 <= b < |cut| ==> MinusDownload(cut[b]) == -cut[b].download;
    SortReverses(MinusDownload, cut);
  }

  lemma ReversedDescends(cut: seq<Band>)
    requires forall b, c :: 0 <= b < c < |cut| ==> cut[b].download < cut[c].download
    ensures |Reversed(cut)| == |cut|
    ensures forall b, c :: 0 <= b < c < |cut| ==> Reversed(cut)[b].download > Reversed(cut)[c].download
  {
    if cut != [] { ReversedAt(cut, 0); }
    forall b, c | 0 <= b < c < |cut| ensures Reversed(cut)[b].download > Reversed(cut)[c].download {
      ReversedAt(cut, b);
      ReversedAt(cut, c);
    }
  }

  /**
   * clusterConnectionsByMTU: read backwards, the bands are the clusterable resolvers, sorted by download, cut exactly
   * at the gaps. The largest download comes first, and no two bands share one.
   */
  method Cluster(rs: seq<Resolver>, num: int, den: nat) returns (bands: seq<Band>)
    requires den > 0
    ensures CutFrom(RatioGap(num, den), SortBy(DownloadOf, Clusterable(rs)), Reversed(bands))
    ensures forall b, c :: 0 <= b < c < |bands| ==> bands[b].download > bands[c].download
  {
    var valid := CollectClusterable(rs);
    if |valid| == 0 { return []; }
    SortIsStableSort(DownloadOf, valid);
    var sorted := SortBy(DownloadOf, valid);
    assert |multiset(sorted)| == |sorted| && |multiset(valid)| == |valid|;
    var cut := Cut(RatioGap(num, den), sorted);
    CutIsReversed(rs, num, den, cut);
    ReversedTwice(cut);
    ReversedDescends(cut);
    bands := SortBy(MinusDownload, cut);
  }

  method CollectClusterable(rs: seq<Resolver>) returns (valid: seq<Resolver>)
    ensures valid == Clusterable(rs)
  {
    valid := [];
    for i := 0 to |rs|
      invariant valid + Clusterable(rs[i..]) == Clusterable(rs)
    {
      assert rs[i..][0] == rs[i] && rs[i..][1..] == rs[i + 1..];
      if rs[i].isValid && rs[i].download > 0 {
        assert valid + ([rs[i]] + Clusterable(rs[i + 1..])) == (valid + [rs[i]]) + Clusterable(rs[i + 1..]);
        valid := valid + [rs[i]];
      } else {
        assert [] + Clusterable(rs[i + 1..]) == Clusterable(rs[i + 1..]);
      }
    }
    assert Clusterable(rs[|rs|..]) == [] && valid + [] == valid;
  }
}
