/**
 * The dispatcher's round-robin scan over the streams, and its fairness: a stream with work is served within as
 * many scans as there are streams. Entries are sorted by id, as they are without the orphan sentinel.
 */
module Dispatcher {
  /** No stream was selected. */
  const NOTHING := -2

  predicate SortedIds(ids: seq<int>) {
    (forall i :: 0 <= i < |ids| ==> ids[i] >= 0) && forall i, j :: 0 <= i < j < |ids| ==> ids[i] < ids[j]
  }

  /** Where the scan resumes: the first id not before the cursor, or the first of all. */
  ghost predicate ResumesAt(ids: seq<int>, cursor: int, start: nat) {
    || (start < |ids| && ids[start] >= cursor && forall i :: 0 <= i < start ==> ids[i] < cursor)
    || (start == 0 && forall i :: 0 <= i < |ids| ==> ids[i] < cursor)
  }

  /** The `k`th entry of a scan that starts at `start`. */
  function At(ids: seq<int>, start: nat, k: nat): int
    requires start < |ids| && k < |ids|
  {
    if start + k < |ids| then ids[start + k] else ids[start + k - |ids|]
  }

  /** How far from the start of the scan the entry at position `i` is. */
  function Distance(n: nat, start: nat, i: nat): nat
    requires start < n && i < n
  {
    if i >= start then i - start else i + n - start
  }

  /** The queues as a scan finds them: the streams with work, and whether stream 0 only offers a PING. */
  datatype Work = Work(busy: set<int>, pingFirst: bool)

  predicate OtherWork(ids: seq<int>, w: Work) {
    exists i :: 0 <= i < |ids| && ids[i] != 0 && ids[i] in w.busy
  }

  /** A PING on the control stream waits while any other stream has work. */
  predicate Deferred(ids: seq<int>, w: Work, id: int) {
    id == 0 && w.pingFirst && OtherWork(ids, w)
  }

  /** The stream a scan may serve. */
  predicate Servable(ids: seq<int>, w: Work, id: int) {
    id in w.busy && !Deferred(ids, w, id)
  }

  /** What one scan does: serve the first servable stream, and move the cursor past the first busy one. */
  ghost predicate Scan(ids: seq<int>, cursor: int, w: Work, selected: int, cursor1: int) {
    if forall i :: 0 <= i < |ids| ==> ids[i] !in w.busy then selected == NOTHING && cursor1 == cursor
    else exists start: nat, k: nat, m: nat ::
      Picks(ids, w, start, k, m) && ResumesAt(ids, cursor, start)
      && selected == At(ids, start, m) && cursor1 == At(ids, start, k) + 1
  }

  /** From `start`, the `k`th entry is the first busy one and the `m`th the first servable one. */
  ghost predicate Picks(ids: seq<int>, w: Work, start: nat, k: nat, m: nat) {
    && start < |ids| && k <= m < |ids|
    && (forall j :: 0 <= j < k ==> At(ids, start, j) !in w.busy) && At(ids, start, k) in w.busy
    && (forall j :: 0 <= j < m ==> !Servable(ids, w, At(ids, start, j))) && Servable(ids, w, At(ids, start, m))
  }

  /** sort.Search over the ids. */
  method FindStart(ids: seq<int>, cursor: int) returns (start: nat)
    requires SortedIds(ids) && ids != []
    ensures start < |ids| && ResumesAt(ids, cursor, start)
  {
    var lo, hi := 0, |ids|;
    while lo < hi
      invariant 0 <= lo <= hi <= |ids|
      invariant forall i :: 0 <= i < lo ==> ids[i] < cursor
      invariant forall i :: hi <= i < |ids| ==> ids[i] >= cursor
    {
      var mid := (lo + hi) / 2;
      if ids[mid] >= cursor { hi := mid; } else { lo := mid + 1; }
    }
    start := if lo == |ids| then 0 else lo;
  }

  method HasOtherWork(ids: seq<int>, w: Work) returns (any: bool)
    ensures any == OtherWork(ids, w)
  {
    for i := 0 to |ids|
      invariant forall j :: 0 <= j < i ==> ids[j] == 0 || ids[j] !in w.busy
    {
      if ids[i] != 0 && ids[i] in w.busy { return true; }
    }
    any := false;
  }

  /** Among the entries of a scan some one is servable as soon as any stream is busy. */
  lemma SomeServable(ids: seq<int>, w: Work, start: nat, i: nat)
    requires start < |ids| && i < |ids| && ids[i] in w.busy
    ensures exists k: nat :: k < |ids| && Servable(ids, w, At(ids, start, k))
  {
    var j := i;
    if Deferred(ids, w, ids[i]) {
      j :| 0 <= j < |ids| && ids[j] != 0 && ids[j] in w.busy;
    }
    assert Servable(ids, w, ids[j]) && At(ids, start, Distance(|ids|, start, j)) == ids[j];
  }

  /** selectNextDispatchStream over streams only. */
  method SelectNext(ids: seq<int>, cursor: int, w: Work) returns (selected: int, cursor1: int)
    requires SortedIds(ids)
    ensures Scan(ids, cursor, w, selected, cursor1) && Sensible(ids, w, selected)
  {
    selected, cursor1 := NOTHING, cursor;
    if |ids| == 0 { return; }
    var start := FindStart(ids, cursor);
    var applied := false;
    ghost var first: nat := 0;
    var k := 0;
    while k < |ids|
      invariant k <= |ids| && selected == NOTHING
      invariant !applied ==> cursor1 == cursor && forall j :: 0 <= j < k ==> At(ids, start, j) !in w.busy
      invariant applied ==> first < k && At(ids, start, first) in w.busy && cursor1 == At(ids, start, first) + 1
      invariant applied ==> forall j :: 0 <= j < first ==> At(ids, start, j) !in w.busy
      invariant forall j :: 0 <= j < k ==> !Servable(ids, w, At(ids, start, j))
    {
      var id := At(ids, start, k);
      if id in w.busy {
        if !applied {
          cursor1, applied, first := id + 1, true, k;
        }
        var hasOtherWork := false;
        if id == 0 && w.pingFirst {
          hasOtherWork := HasOtherWork(ids, w);
        }
        if !hasOtherWork {
          selected := id;
          assert Picks(ids, w, start, first, k);
          return;
        }
      }
      k := k + 1;
    }
    forall i | 0 <= i < |ids| ensures ids[i] !in w.busy {
      if ids[i] in w.busy { SomeServable(ids, w, start, i); }
    }
  }

  /**
   * What is selected has work, and something is selected whenever any stream has; a PING on the control stream only
   * when no other stream has work.
   */
  predicate Sensible(ids: seq<int>, w: Work, selected: int) {
    && (selected == NOTHING <==> forall i :: 0 <= i < |ids| ==> ids[i] !in w.busy)
    && (selected != NOTHING ==> selected in ids && selected in w.busy)
    && (selected == 0 && w.pingFirst ==> forall i :: 0 <= i < |ids| && ids[i] != 0 ==> ids[i] !in w.busy)
  }

  // ---------------------------------------------------------------------
  // Fairness
  // ---------------------------------------------------------------------

  /** Stream `ids[t]` has work other than a waiting PING. */
  predicate Backlogged(ids: seq<int>, w: Work, t: nat)
    requires t < |ids|
  {
    ids[t] in w.busy && !(ids[t] == 0 && w.pingFirst)
  }

  /** The scan resumes at most `wait` entries before stream `ids[t]`. */
  ghost predicate Within(ids: seq<int>, cursor: int, t: nat, wait: int)
    requires t < |ids|
  {
    exists start: nat :: start < |ids| && ResumesAt(ids, cursor, start) && Distance(|ids|, start, t) <= wait
  }

  lemma StartIsUnique(ids: seq<int>, cursor: int, a: nat, b: nat)
    requires SortedIds(ids) && a < |ids| && b < |ids| && ResumesAt(ids, cursor, a) && ResumesAt(ids, cursor, b)
    ensures a == b
  {
  }

  lemma StartExists(ids: seq<int>, cursor: int)
    requires SortedIds(ids) && ids != []
    ensures exists start: nat :: start < |ids| && ResumesAt(ids, cursor, start)
  {
    FirstNotBefore(ids, cursor, 0);
  }

  lemma {:induction false} FirstNotBefore(ids: seq<int>, cursor: int, i: nat)
    requires SortedIds(ids) && ids != [] && i <= |ids| && forall j :: 0 <= j < i ==> ids[j] < cursor
    ensures exists start: nat :: start < |ids| && ResumesAt(ids, cursor, start)
    decreases |ids| - i
  {
    if i == |ids| {
      assert ResumesAt(ids, cursor, 0);
    } else if ids[i] >= cursor {
      assert ResumesAt(ids, cursor, i);
    } else {
      FirstNotBefore(ids, cursor, i + 1);
    }
  }

  /** Position of the `k`th entry of a scan. */
  function Position(n: nat, start: nat, k: nat): nat
    requires start < n && k < n
  {
    if start + k < n then start + k else start + k - n
  }

  /** Just past the `k`th entry of a scan, the next scan starts at the entry after it. */
  lemma ResumesPast(ids: seq<int>, start: nat, k: nat)
    requires SortedIds(ids) && start < |ids| && k < |ids|
    ensures var p := Position(|ids|, start, k);
            ResumesAt(ids, At(ids, start, k) + 1, if p + 1 < |ids| then p + 1 else 0)
  {
  }

  lemma PastIsCloser(n: nat, start: nat, k: nat, t: nat)
    requires start < n && t < n && k < Distance(n, start, t)
    ensures var p := Position(n, start, k);
            Distance(n, if p + 1 < n then p + 1 else 0, t) == Distance(n, start, t) - k - 1
  {
  }

  lemma PicksOrPasses(ids: seq<int>, w: Work, start: nat, k: nat, m: nat, t: nat)
    requires t < |ids| && Backlogged(ids, w, t) && Picks(ids, w, start, k, m)
    ensures At(ids, start, m) == ids[t] || k < Distance(|ids|, start, t)
  {
    assert At(ids, start, Distance(|ids|, start, t)) == ids[t];
  }

  /** A scan serves a backlogged stream or brings the start of the next scan closer to it. */
  lemma ScanServesOrApproaches(ids: seq<int>, cursor: int, w: Work, selected: int, cursor1: int, t: nat, wait: nat)
    requires SortedIds(ids) && t < |ids| && Backlogged(ids, w, t)
    requires Scan(ids, cursor, w, selected, cursor1) && Within(ids, cursor, t, wait)
    ensures selected == ids[t] || (wait > 0 && Within(ids, cursor1, t, wait - 1))
  {
    var start: nat, k: nat, m: nat :|
      Picks(ids, w, start, k, m) && ResumesAt(ids, cursor, start)
      && selected == At(ids, start, m) && cursor1 == At(ids, start, k) + 1;
    var s0: nat :| s0 < |ids| && ResumesAt(ids, cursor, s0) && Distance(|ids|, s0, t) <= wait;
    StartIsUnique(ids, cursor, start, s0);
    PicksOrPasses(ids, w, start, k, m, t);
    if selected != ids[t] {
      ResumesPast(ids, start, k);
      PastIsCloser(|ids|, start, k, t);
    }
  }

  /** Consecutive scans over the same streams, with any work arriving and leaving in between. */
  ghost predicate Scans(ids: seq<int>, cursor: int, works: seq<Work>, picks: seq<int>)
    decreases |works|
  {
    |picks| == |works| &&
    (works == [] ||
     exists cursor1 :: Scan(ids, cursor, works[0], picks[0], cursor1) && Scans(ids, cursor1, works[1..], picks[1..]))
  }

  lemma {:induction false} ServedWithin(ids: seq<int>, cursor: int, works: seq<Work>, picks: seq<int>, t: nat,
                                        wait: nat)
    requires SortedIds(ids) && t < |ids| && Scans(ids, cursor, works, picks)
    requires (forall i :: 0 <= i < |works| ==> Backlogged(ids, works[i], t)) && Within(ids, cursor, t, wait)
    requires wait < |works|
    ensures exists i :: 0 <= i <= wait && picks[i] == ids[t]
    decreases |works|
  {
    var cursor1 :| Scan(ids, cursor, works[0], picks[0], cursor1) && Scans(ids, cursor1, works[1..], picks[1..]);
    ScanServesOrApproaches(ids, cursor, works[0], picks[0], cursor1, t, wait);
    if picks[0] != ids[t] {
      ServedWithin(ids, cursor1, works[1..], picks[1..], t, wait - 1);
      var i :| 0 <= i <= wait - 1 && picks[1..][i] == ids[t];
      assert picks[i + 1] == ids[t];
    }
  }

  /**
   * Fairness: over any run of as many scans as there are streams, a stream that has work throughout is served at
   * least once, whatever the cursor was and whatever the other streams do.
   */
  lemma BackloggedIsServed(ids: seq<int>, cursor: int, works: seq<Work>, picks: seq<int>, t: nat)
    requires SortedIds(ids) && t < |ids| && Scans(ids, cursor, works, picks) && |works| == |ids|
    requires forall i :: 0 <= i < |works| ==> Backlogged(ids, works[i], t)
    ensures ids[t] in picks
  {
    StartExists(ids, cursor);
    var start: nat :| start < |ids| && ResumesAt(ids, cursor, start);
    assert Within(ids, cursor, t, |ids| - 1);
    ServedWithin(ids, cursor, works, picks, t, |ids| - 1);
  }

  /** Every stream has work, and stream 0 more than a PING. */
  function AllBusy(ids: seq<int>): Work {
    Work(set i | 0 <= i < |ids| :: ids[i], false)
  }

  function Repeated<T>(x: T, n: nat): (r: seq<T>)
    ensures |r| == n && forall i :: 0 <= i < n ==> r[i] == x
  {
    if n == 0 then [] else [x] + Repeated(x, n - 1)
  }

  /** With every stream busy a scan serves the entry it resumes at. */
  lemma BusyScan(ids: seq<int>, cursor: int, start: nat)
    requires SortedIds(ids) && start < |ids| && ResumesAt(ids, cursor, start)
    ensures Scan(ids, cursor, AllBusy(ids), ids[start], ids[start] + 1)
  {
    assert forall i :: 0 <= i < |ids| ==> ids[i] in AllBusy(ids).busy;
    assert At(ids, start, 0) == ids[start];
    assert Picks(ids, AllBusy(ids), start, 0, 0);
  }

  function Next(n: nat, start: nat): nat
    requires start < n
  {
    if start + 1 < n then start + 1 else 0
  }

  lemma NextIsCloser(ids: seq<int>, start: nat, t: nat)
    requires SortedIds(ids) && start < |ids| && t < |ids|
    ensures ResumesAt(ids, ids[start] + 1, Next(|ids|, start))
    ensures Distance(|ids|, start, t) > 0 ==>
              ids[start] != ids[t] && Distance(|ids|, Next(|ids|, start), t) == Distance(|ids|, start, t) - 1
  {
    ResumesPast(ids, start, 0);
  }

  lemma ScansFirst(ids: seq<int>, cursor: int, w: Work, pick: int, cursor1: int, works: seq<Work>, picks: seq<int>)
    requires Scan(ids, cursor, w, pick, cursor1) && Scans(ids, cursor1, works, picks)
    ensures Scans(ids, cursor, [w] + works, [pick] + picks)
  {
    assert ([w] + works)[1..] == works && ([pick] + picks)[1..] == picks;
  }

  /** `picks` are what `n` scans with every stream busy serve, and `id` is not among them. */
  ghost predicate PassOver(ids: seq<int>, cursor: int, n: nat, picks: seq<int>, id: int) {
    Scans(ids, cursor, Repeated(AllBusy(ids), n), picks) && id !in picks
  }

  lemma PassOverOneMore(ids: seq<int>, cursor: int, start: nat, n: nat, rest: seq<int>, id: int)
    requires SortedIds(ids) && start < |ids| && ResumesAt(ids, cursor, start) && ids[start] != id
    requires PassOver(ids, ids[start] + 1, n, rest, id)
    ensures PassOver(ids, cursor, n + 1, [ids[start]] + rest, id)
  {
    BusyScan(ids, cursor, start);
    ScansFirst(ids, cursor, AllBusy(ids), ids[start], ids[start] + 1, Repeated(AllBusy(ids), n), rest);
  }

  /** Such scans serve the streams in turn, so none is served before the scans reach it. */
  lemma {:induction false} BusyScans(ids: seq<int>, cursor: int, start: nat, t: nat, n: nat) returns (picks: seq<int>)
    requires SortedIds(ids) && start < |ids| && t < |ids| && ResumesAt(ids, cursor, start)
    requires n <= Distance(|ids|, start, t)
    ensures PassOver(ids, cursor, n, picks, ids[t])
    decreases n
  {
    picks := [];
    if n > 0 {
      NextIsCloser(ids, start, t);
      var rest := BusyScans(ids, ids[start] + 1, Next(|ids|, start), t, n - 1);
      PassOverOneMore(ids, cursor, start, n - 1, rest, ids[t]);
      picks := [ids[start]] + rest;
    }
  }

  /**
   * The bound is exact, whatever the streams are: each of them, just served while all stay busy, is passed over by
   * one scan fewer than there are streams.
   */
  lemma BoundIsExact(ids: seq<int>, t: nat) returns (works: seq<Work>, picks: seq<int>)
    requires SortedIds(ids) && t < |ids|
    ensures Scans(ids, ids[t] + 1, works, picks) && |works| == |ids| - 1 && ids[t] !in picks
    ensures forall i :: 0 <= i < |works| ==> Backlogged(ids, works[i], t)
  {
    NextIsCloser(ids, t, t);
    works := Repeated(AllBusy(ids), |ids| - 1);
    picks := BusyScans(ids, ids[t] + 1, Next(|ids|, t), t, |ids| - 1);
    assert Backlogged(ids, AllBusy(ids), t);
  }
}
