/** Which missing chunks the receiver asks for. */
module ArqNack {
  import opened SeqNum
  import opened Extrema
  import opened ArqTerm
  import opened ArqState

  /** The sequence number `k` after `nxt`. */
  function At(nxt: u16, k: int): u16 {
    Wrap(nxt + k)
  }

  lemma AtDistance(nxt: u16, k: nat, x: u16)
    requires k < MODULUS
    ensures At(nxt, k) == x <==> Sub(x, nxt) == k
  {
  }

  /** The numbers at distances lo..hi from `nxt` that are not buffered, nearest first. */
  function MissingIn(nxt: u16, buf: map<u16, Chunk>, lo: nat, hi: nat): seq<u16>
    decreases hi - lo
  {
    if lo >= hi then []
    else (if At(nxt, lo) in buf then [] else [At(nxt, lo)]) + MissingIn(nxt, buf, lo + 1, hi)
  }

  /** The distance of the highest unbuffered number not farther than `k`, or -1. */
  function HighestMissing(nxt: u16, buf: map<u16, Chunk>, k: nat): (r: int)
    ensures -1 <= r <= k
  {
    if At(nxt, k) !in buf then k else if k == 0 then -1 else HighestMissing(nxt, buf, k - 1)
  }

  function FirstOf(s: seq<u16>, n: nat): seq<u16> {
    if |s| <= n then s else s[..n]
  }

  /** How many of the missing numbers a sample takes: one in twenty of the gap, and at least one. */
  function Quota(maxGap: nat): nat {
    Max(1, (maxGap + 19) / 20)
  }

  /** What is asked for when a chunk at distance `diff` arrived. */
  function Targets(nxt: u16, buf: map<u16, Chunk>, diff: nat, maxGap: nat): seq<u16>
    requires maxGap > 0
  {
    var span := maxGap % MODULUS;
    if diff <= span then MissingIn(nxt, buf, 0, diff)
    else
      WithTop(nxt, FirstOf(MissingIn(nxt, buf, 0, diff), Quota(maxGap)),
              HighestMissing(nxt, buf, (span - 1) % MODULUS))
  }

  function WithTop(nxt: u16, sampled: seq<u16>, top: int): seq<u16> {
    if top >= 0 && At(nxt, top) !in sampled then sampled + [At(nxt, top)] else sampled
  }

  predicate Distinct(s: seq<u16>) {
    forall i, j :: 0 <= i < j < |s| ==> s[i] != s[j]
  }

  // ---------------------------------------------------------------------
  // What the targets are
  // ---------------------------------------------------------------------

  /** The list is exactly the missing set: the numbers in range that are not buffered. */
  lemma {:induction false} MissingMembers(nxt: u16, buf: map<u16, Chunk>, lo: nat, hi: nat, x: u16)
    requires hi <= MODULUS
    ensures x in MissingIn(nxt, buf, lo, hi) <==> lo <= Sub(x, nxt) < hi && x !in buf
    decreases hi - lo
  {
    if lo < hi {
      MissingMembers(nxt, buf, lo + 1, hi, x);
      AtDistance(nxt, lo, x);
    }
  }

  lemma {:induction false} MissingDistinct(nxt: u16, buf: map<u16, Chunk>, lo: nat, hi: nat)
    requires hi <= MODULUS
    ensures Distinct(MissingIn(nxt, buf, lo, hi))
    decreases hi - lo
  {
    if lo < hi {
      MissingDistinct(nxt, buf, lo + 1, hi);
      MissingMembers(nxt, buf, lo + 1, hi, At(nxt, lo));
      AtDistance(nxt, lo, At(nxt, lo));
    }
  }

  lemma {:induction false} HighestIsHighest(nxt: u16, buf: map<u16, Chunk>, k: nat)
    ensures var r := HighestMissing(nxt, buf, k);
            (r >= 0 ==> At(nxt, r) !in buf) && (forall j :: r < j <= k ==> At(nxt, j) in buf)
  {
    if At(nxt, k) in buf && k > 0 { HighestIsHighest(nxt, buf, k - 1); }
  }

  lemma WithTopMembers(nxt: u16, sampled: seq<u16>, top: int, x: u16)
    requires x in WithTop(nxt, sampled, top)
    ensures x in sampled || (top >= 0 && x == At(nxt, top))
  {
  }

  /** Every number asked for is missing: between the next expected and the one that arrived, and not buffered. */
  lemma TargetsAreMissing(nxt: u16, buf: map<u16, Chunk>, diff: nat, maxGap: nat, x: u16)
    requires maxGap > 0 && maxGap % MODULUS > 0 && diff < HALF && x in Targets(nxt, buf, diff, maxGap)
    ensures x in MissingIn(nxt, buf, 0, diff) && x !in buf && Sub(x, nxt) < diff
  {
    var all := MissingIn(nxt, buf, 0, diff);
    MissingMembers(nxt, buf, 0, diff, x);
    if diff > maxGap % MODULUS {
      WithTopMembers(nxt, FirstOf(all, Quota(maxGap)), TopOf(nxt, buf, maxGap), x);
      FirstOfMembers(all, Quota(maxGap), x);
      TopIsMissing(nxt, buf, diff, maxGap);
    }
  }

  function TopOf(nxt: u16, buf: map<u16, Chunk>, maxGap: nat): int {
    HighestMissing(nxt, buf, (maxGap % MODULUS - 1) % MODULUS)
  }

  lemma FirstOfMembers(s: seq<u16>, n: nat, x: u16)
    ensures x in FirstOf(s, n) ==> x in s
  {
  }

  lemma TopIsMissing(nxt: u16, buf: map<u16, Chunk>, diff: nat, maxGap: nat)
    requires 0 < maxGap % MODULUS < diff < HALF
    ensures var top := TopOf(nxt, buf, maxGap);
            top >= 0 ==> At(nxt, top) !in buf && Sub(At(nxt, top), nxt) == top < diff
  {
    var top := TopOf(nxt, buf, maxGap);
    HighestIsHighest(nxt, buf, maxGap % MODULUS - 1);
    if top >= 0 { AtDistance(nxt, top, At(nxt, top)); }
  }

  lemma TargetsAreDistinct(nxt: u16, buf: map<u16, Chunk>, diff: nat, maxGap: nat)
    requires maxGap > 0 && diff < HALF
    ensures Distinct(Targets(nxt, buf, diff, maxGap))
  {
    MissingDistinct(nxt, buf, 0, diff);
  }

  /** Every number asked for is one that is missing below the arrived one. */
  predicate AsksForMissing(nxt: u16, buf: map<u16, Chunk>, diff: nat, maxGap: nat)
    requires maxGap > 0
  {
    forall x :: x in Targets(nxt, buf, diff, maxGap) ==> x !in buf && Sub(x, nxt) < diff
  }

  /** Every number from the arrived one on, all the way round to the one before `nxt`, is buffered. */
  predicate FullBeyond(nxt: u16, buf: map<u16, Chunk>, diff: nat) {
    forall j :: diff <= j < MODULUS ==> At(nxt, j) in buf
  }

  /**
   * A gap setting that is a multiple of 65536 reads as 0 and starts the second loop at the number before the next
   * expected one, which was delivered long ago. Only a buffer holding everything from the arrived number round to
   * that one would save it.
   */
  lemma SoundExactly(nxt: u16, buf: map<u16, Chunk>, diff: nat, maxGap: nat)
    requires maxGap > 0 && 0 < diff < HALF
    ensures AsksForMissing(nxt, buf, diff, maxGap) <==> maxGap % MODULUS > 0 || FullBeyond(nxt, buf, diff)
    ensures Dec(nxt) !in buf ==> (AsksForMissing(nxt, buf, diff, maxGap) <==> maxGap % MODULUS > 0)
  {
    if maxGap % MODULUS > 0 {
      forall x | x in Targets(nxt, buf, diff, maxGap) ensures x !in buf && Sub(x, nxt) < diff {
        TargetsAreMissing(nxt, buf, diff, maxGap, x);
      }
    } else {
      WrappedGapExact(nxt, buf, diff, maxGap);
    }
    assert At(nxt, MODULUS - 1) == Dec(nxt);
  }

  lemma WrappedGapExact(nxt: u16, buf: map<u16, Chunk>, diff: nat, maxGap: nat)
    requires maxGap > 0 && maxGap % MODULUS == 0 && 0 < diff < HALF
    ensures AsksForMissing(nxt, buf, diff, maxGap) <==> FullBeyond(nxt, buf, diff)
  {
    var all, n := MissingIn(nxt, buf, 0, diff), Quota(maxGap);
    var top := HighestMissing(nxt, buf, MODULUS - 1);
    HighestIsHighest(nxt, buf, MODULUS - 1);
    assert Targets(nxt, buf, diff, maxGap) == WithTop(nxt, FirstOf(all, n), top);
    if top >= 0 { AtDistance(nxt, top, At(nxt, top)); }
    if top >= diff {
      assert !FullBeyond(nxt, buf, diff);
      TopIsAsked(nxt, FirstOf(all, n), top);
    } else {
      forall x | x in Targets(nxt, buf, diff, maxGap) ensures x !in buf && Sub(x, nxt) < diff {
        WithTopMembers(nxt, FirstOf(all, n), top, x);
        FirstOfMembers(all, n, x);
        MissingMembers(nxt, buf, 0, diff, x);
      }
    }
  }

  lemma TopIsAsked(nxt: u16, sampled: seq<u16>, top: int)
    requires top >= 0
    ensures At(nxt, top) in WithTop(nxt, sampled, top)
  {
  }

  /** What the loaders make of a gap setting under a window setting they admitted. */
  function LoadedGap(window: int, setting: int): int {
    Clamp(if setting < 0 then 0 else setting, 0, window / 4)
  }

  /** No configured gap is a multiple of 65536. */
  lemma ConfiguredGapsAreSound(nxt: u16, buf: map<u16, Chunk>, diff: nat, window: int, setting: int)
    requires 1 <= window <= 20000 && LoadedGap(window, setting) > 0 && 0 < diff < HALF
    ensures AsksForMissing(nxt, buf, diff, LoadedGap(window, setting))
  {
    var gap := LoadedGap(window, setting);
    assert gap % MODULUS == gap;
    SoundExactly(nxt, buf, diff, gap);
  }

  // ---------------------------------------------------------------------
  // What has to be asked for
  // ---------------------------------------------------------------------

  /** Number `x` is missing below distance `hi`. */
  predicate Lacks(nxt: u16, buf: map<u16, Chunk>, hi: nat, x: u16) {
    x !in buf && Sub(x, nxt) < hi
  }

  predicate NearestFirst(nxt: u16, asked: seq<u16>) {
    forall i, j :: 0 <= i < j < |asked| ==> Sub(asked[i], nxt) < Sub(asked[j], nxt)
  }

  /** Everything missing is asked for and nothing else, nearest first. */
  predicate AsksAll(nxt: u16, buf: map<u16, Chunk>, diff: nat, asked: seq<u16>) {
    NearestFirst(nxt, asked) && forall x :: x in asked <==> Lacks(nxt, buf, diff, x)
  }

  /** What is asked for starts with the nearest missing numbers, nearest first: `quota` of them, or all there are. */
  predicate AsksNearest(nxt: u16, buf: map<u16, Chunk>, diff: nat, quota: nat, asked: seq<u16>) {
    var n := Min(quota, |asked|);
    NearestFirst(nxt, asked[..n])
    && forall x :: Lacks(nxt, buf, diff, x) && x !in asked[..n] ==>
         n == quota && forall i :: 0 <= i < n ==> Sub(asked[i], nxt) < Sub(x, nxt)
  }

  /** The farthest missing number within the gap is asked for. */
  predicate AsksFarthest(nxt: u16, buf: map<u16, Chunk>, span: nat, asked: seq<u16>) {
    forall x :: Lacks(nxt, buf, span, x) ==>
      exists y :: y in asked && Lacks(nxt, buf, span, y) && Sub(x, nxt) <= Sub(y, nxt)
  }

  lemma {:induction false} MissingAscends(nxt: u16, buf: map<u16, Chunk>, lo: nat, hi: nat)
    requires hi <= MODULUS
    ensures NearestFirst(nxt, MissingIn(nxt, buf, lo, hi))
    decreases hi - lo
  {
    if lo < hi {
      var rest := MissingIn(nxt, buf, lo + 1, hi);
      MissingAscends(nxt, buf, lo + 1, hi);
      AtDistance(nxt, lo, At(nxt, lo));
      forall i | 0 <= i < |rest| ensures Sub(rest[i], nxt) > lo {
        MissingMembers(nxt, buf, lo + 1, hi, rest[i]);
      }
    }
  }

  lemma MissingIsAll(nxt: u16, buf: map<u16, Chunk>, diff: nat)
    requires diff < MODULUS
    ensures AsksAll(nxt, buf, diff, MissingIn(nxt, buf, 0, diff))
  {
    MissingAscends(nxt, buf, 0, diff);
    forall x: u16 ensures x in MissingIn(nxt, buf, 0, diff) <==> Lacks(nxt, buf, diff, x) {
      MissingMembers(nxt, buf, 0, diff, x);
    }
  }

  lemma FartherLast(nxt: u16, buf: map<u16, Chunk>, diff: nat, all: seq<u16>, y: u16)
    requires AsksAll(nxt, buf, diff, all) && Sub(y, nxt) >= diff
    ensures NearestFirst(nxt, all + [y])
  {
    forall i | 0 <= i < |all| ensures Sub(all[i], nxt) < Sub(y, nxt) {
      assert all[i] in all;
    }
  }

  /** There are fewer than the quota: all of them are asked for. */
  lemma SmallSample(nxt: u16, buf: map<u16, Chunk>, diff: nat, quota: nat, all: seq<u16>, top: int)
    requires AsksAll(nxt, buf, diff, all) && |all| < quota
    requires top >= 0 ==> top < MODULUS && At(nxt, top) !in buf
    ensures AsksNearest(nxt, buf, diff, quota, WithTop(nxt, all, top))
  {
    var asked := WithTop(nxt, all, top);
    assert asked[..Min(quota, |asked|)] == asked;
    forall x | Lacks(nxt, buf, diff, x) ensures x in asked {
      assert x in all;
    }
    if top >= 0 && At(nxt, top) !in all { FartherLast(nxt, buf, diff, all, At(nxt, top)); }
  }

  /** The first `quota` of them, and after them at most the highest. */
  lemma LargeSample(nxt: u16, buf: map<u16, Chunk>, diff: nat, quota: nat, all: seq<u16>, top: int)
    requires AsksAll(nxt, buf, diff, all) && |all| >= quota
    ensures AsksNearest(nxt, buf, diff, quota, WithTop(nxt, all[..quota], top))
  {
    var asked := WithTop(nxt, all[..quota], top);
    assert asked[..quota] == all[..quota];
    forall x, i | Lacks(nxt, buf, diff, x) && x !in all[..quota] && 0 <= i < quota
      ensures Sub(asked[i], nxt) < Sub(x, nxt)
    {
      var k :| 0 <= k < |all| && all[k] == x;
      assert asked[i] == all[i];
    }
  }

  lemma TopIsFarthest(nxt: u16, buf: map<u16, Chunk>, span: nat, sampled: seq<u16>)
    requires 0 < span < MODULUS
    ensures AsksFarthest(nxt, buf, span, WithTop(nxt, sampled, HighestMissing(nxt, buf, span - 1)))
  {
    var top := HighestMissing(nxt, buf, span - 1);
    HighestIsHighest(nxt, buf, span - 1);
    forall x | Lacks(nxt, buf, span, x)
      ensures top >= Sub(x, nxt) && Lacks(nxt, buf, span, At(nxt, top)) && Sub(At(nxt, top), nxt) == top
    {
      AtDistance(nxt, Sub(x, nxt), x);
      AtDistance(nxt, top, At(nxt, top));
    }
    if top >= 0 { TopIsAsked(nxt, sampled, top); }
  }

  lemma SampleIsNearest(nxt: u16, buf: map<u16, Chunk>, diff: nat, quota: nat, all: seq<u16>, top: int)
    requires AsksAll(nxt, buf, diff, all) && (top >= 0 ==> top < MODULUS && At(nxt, top) !in buf)
    ensures AsksNearest(nxt, buf, diff, quota, WithTop(nxt, FirstOf(all, quota), top))
  {
    if |all| < quota { SmallSample(nxt, buf, diff, quota, all, top); } else {
      assert FirstOf(all, quota) == all[..quota];
      LargeSample(nxt, buf, diff, quota, all, top);
    }
  }

  /** The sample as a function of the distance the second loop starts from. */
  lemma SampleAsks(nxt: u16, buf: map<u16, Chunk>, diff: nat, quota: nat, k: nat)
    requires diff < HALF && k < MODULUS
    ensures AsksNearest(nxt, buf, diff, quota,
                        WithTop(nxt, FirstOf(MissingIn(nxt, buf, 0, diff), quota), HighestMissing(nxt, buf, k)))
  {
    MissingIsAll(nxt, buf, diff);
    HighestIsHighest(nxt, buf, k);
    SampleIsNearest(nxt, buf, diff, quota, MissingIn(nxt, buf, 0, diff), HighestMissing(nxt, buf, k));
  }

  /** The nearest missing number of all is the next expected one. */
  lemma NextIsAsked(nxt: u16, buf: map<u16, Chunk>, diff: nat, quota: nat, asked: seq<u16>)
    requires 0 < diff && quota > 0 && nxt !in buf
    requires AsksAll(nxt, buf, diff, asked) || AsksNearest(nxt, buf, diff, quota, asked)
    ensures nxt in asked
  {
    assert Sub(nxt, nxt) == 0 && Lacks(nxt, buf, diff, nxt);
    var first := asked[..Min(quota, |asked|)];
    assert !AsksAll(nxt, buf, diff, asked) && nxt !in first ==> Sub(asked[0], nxt) < Sub(nxt, nxt);
  }

  // ---------------------------------------------------------------------
  // The loops
  // ---------------------------------------------------------------------

  lemma {:induction false} MissingSplits(nxt: u16, buf: map<u16, Chunk>, lo: nat, mid: nat, hi: nat)
    requires lo <= mid <= hi
    ensures MissingIn(nxt, buf, lo, hi) == MissingIn(nxt, buf, lo, mid) + MissingIn(nxt, buf, mid, hi)
    decreases mid - lo
  {
    if lo < mid { MissingSplits(nxt, buf, lo + 1, mid, hi); }
  }

  lemma MissingOneMore(nxt: u16, buf: map<u16, Chunk>, k: nat)
    ensures MissingIn(nxt, buf, 0, k + 1) == MissingIn(nxt, buf, 0, k) + if At(nxt, k) in buf then [] else [At(nxt, k)]
  {
    MissingSplits(nxt, buf, 0, k, k + 1);
    assert MissingIn(nxt, buf, k + 1, k + 1) == [];
  }

  lemma StepOn(nxt: u16, k: nat)
    ensures Inc(At(nxt, k)) == At(nxt, k + 1)
  {
  }

  lemma StepBack(nxt: u16, k: nat)
    requires k > 0
    ensures Dec(At(nxt, k)) == At(nxt, k - 1)
  {
  }

  /** The first loop, over all numbers up to `sn`, stopping early once `limit` are found. */
  method CollectMissing(nxt: u16, buf: map<u16, Chunk>, sn: u16, limit: nat) returns (missing: seq<u16>)
    ensures missing == FirstOf(MissingIn(nxt, buf, 0, Sub(sn, nxt)), limit)
  {
    missing := [];
    var at := nxt;
    ghost var k: nat, diff: nat := 0, Sub(sn, nxt);
    while at != sn && |missing| < limit
      invariant k <= diff && at == At(nxt, k) && |missing| <= limit
      invariant missing == MissingIn(nxt, buf, 0, k)
      decreases diff - k
    {
      assert k < diff;
      MissingOneMore(nxt, buf, k);
      if at !in buf { missing := missing + [at]; }
      StepOn(nxt, k);
      at, k := Inc(at), k + 1;
    }
    if at == sn { assert k == diff; }
    MissingSplits(nxt, buf, 0, k, diff);
  }

  /** The second loop: from the frontier downwards to the first number that is not buffered. */
  method FindHighest(nxt: u16, buf: map<u16, Chunk>, frontier: u16) returns (found: bool, candidate: u16)
    ensures var top := HighestMissing(nxt, buf, Sub(frontier, nxt));
            found == (top >= 0) && (found ==> candidate == At(nxt, top))
  {
    candidate := frontier;
    ghost var k: nat := Sub(frontier, nxt);
    while candidate in buf
      invariant 0 <= k < MODULUS && candidate == At(nxt, k)
      invariant HighestMissing(nxt, buf, k) == HighestMissing(nxt, buf, Sub(frontier, nxt))
      decreases k
    {
      if candidate == nxt {
        assert k == 0;
        return false, candidate;
      }
      assert k > 0;
      StepBack(nxt, k);
      candidate, k := Dec(candidate), k - 1;
    }
    found := true;
  }

  /** Whether a chunk that arrived as `sn` makes an open stream ask for anything. */
  predicate Asks(nxt: u16, sn: u16, maxGap: int, closed: bool) {
    maxGap > 0 && !closed && 0 < Sub(sn, nxt) < HALF
  }

  /**
   * The candidates of maybeSendDataNacks, wrap-around included. Within the gap they are all that is missing; beyond
   * it the nearest missing ones, and the farthest within the gap. The next expected number, which holds up delivery,
   * is always among them.
   */
  method NackCandidates(nxt: u16, buf: map<u16, Chunk>, sn: u16, maxGap: int, closed: bool) returns (missing: seq<u16>)
    ensures missing == if maxGap <= 0 || closed || Sub(sn, nxt) >= HALF then []
        else Targets(nxt, buf, Sub(sn, nxt), maxGap)
    ensures !Asks(nxt, sn, maxGap, closed) ==> missing == []
    ensures Asks(nxt, sn, maxGap, closed) ==>
              if Sub(sn, nxt) <= maxGap % 65536 then AsksAll(nxt, buf, Sub(sn, nxt), missing)
              else AsksNearest(nxt, buf, Sub(sn, nxt), Quota(maxGap), missing)
                   && (maxGap % 65536 > 0 ==> AsksFarthest(nxt, buf, maxGap % 65536, missing))
    ensures Asks(nxt, sn, maxGap, closed) && nxt !in buf ==> nxt in missing
    ensures Asks(nxt, sn, maxGap, closed) && maxGap % 65536 > 0 ==>
              forall x :: x in missing ==> Lacks(nxt, buf, Sub(sn, nxt), x)
    ensures Distinct(missing)
  {
    var diff := Sub(sn, nxt);
    if maxGap <= 0 || closed || diff >= 32768 { return []; }
    if diff == 0 {
      return [];
    }
    TargetsAreAsked(nxt, buf, diff, maxGap);
    TargetsAreDistinct(nxt, buf, diff, maxGap);
    if maxGap % 65536 > 0 { OnlyMissingAsked(nxt, buf, diff, maxGap); }
    var span: u16 := maxGap % 65536;
    if diff <= span {
      missing := CollectMissing(nxt, buf, sn, diff);
      MissingCount(nxt, buf, 0, diff);
      return;
    }
    missing := SampleMissing(nxt, buf, sn, maxGap);
  }

  /** What the targets are is what has to be asked for: within the gap, and beyond it. */
  lemma NearTargets(nxt: u16, buf: map<u16, Chunk>, diff: nat, maxGap: nat)
    requires maxGap > 0 && diff < HALF && diff <= maxGap % MODULUS
    ensures AsksAll(nxt, buf, diff, Targets(nxt, buf, diff, maxGap))
  {
    MissingIsAll(nxt, buf, diff);
  }

  lemma FarTargets(nxt: u16, buf: map<u16, Chunk>, diff: nat, maxGap: nat)
    requires maxGap > 0 && maxGap % MODULUS < diff < HALF
    ensures AsksNearest(nxt, buf, diff, Quota(maxGap), Targets(nxt, buf, diff, maxGap))
  {
    SampleAsks(nxt, buf, diff, Quota(maxGap), (maxGap % MODULUS - 1) % MODULUS);
  }

  lemma FarthestTarget(nxt: u16, buf: map<u16, Chunk>, diff: nat, maxGap: nat)
    requires 0 < maxGap % MODULUS < diff < HALF
    ensures AsksFarthest(nxt, buf, maxGap % MODULUS, Targets(nxt, buf, diff, maxGap))
  {
    var span, sampled := maxGap % MODULUS, FirstOf(MissingIn(nxt, buf, 0, diff), Quota(maxGap));
    assert (span - 1) % MODULUS == span - 1;
    assert Targets(nxt, buf, diff, maxGap) == WithTop(nxt, sampled, HighestMissing(nxt, buf, span - 1));
    TopIsFarthest(nxt, buf, span, sampled);
  }

  lemma TargetsAreAsked(nxt: u16, buf: map<u16, Chunk>, diff: nat, maxGap: nat)
    requires maxGap > 0 && 0 < diff < HALF
    ensures var asked, span := Targets(nxt, buf, diff, maxGap), maxGap % MODULUS;
            if diff <= span then AsksAll(nxt, buf, diff, asked)
            else AsksNearest(nxt, buf, diff, Quota(maxGap), asked) && (span > 0 ==> AsksFarthest(nxt, buf, span, asked))
    ensures nxt !in buf ==> nxt in Targets(nxt, buf, diff, maxGap)
  {
    if diff <= maxGap % MODULUS { NearTargets(nxt, buf, diff, maxGap); } else {
      FarTargets(nxt, buf, diff, maxGap);
      if maxGap % MODULUS > 0 { FarthestTarget(nxt, buf, diff, maxGap); }
    }
    if nxt !in buf { NextIsAsked(nxt, buf, diff, Quota(maxGap), Targets(nxt, buf, diff, maxGap)); }
  }

  lemma OnlyMissingAsked(nxt: u16, buf: map<u16, Chunk>, diff: nat, maxGap: nat)
    requires maxGap > 0 && maxGap % MODULUS > 0 && diff < HALF
    ensures forall x :: x in Targets(nxt, buf, diff, maxGap) ==> Lacks(nxt, buf, diff, x)
  {
    forall x | x in Targets(nxt, buf, diff, maxGap) ensures Lacks(nxt, buf, diff, x) {
      TargetsAreMissing(nxt, buf, diff, maxGap, x);
    }
  }

  /** The sampled form: the first few missing numbers, and the highest one up to the frontier. */
  method SampleMissing(nxt: u16, buf: map<u16, Chunk>, sn: u16, maxGap: nat) returns (missing: seq<u16>)
    requires maxGap > 0
    ensures missing == WithTop(nxt, FirstOf(MissingIn(nxt, buf, 0, Sub(sn, nxt)), Quota(maxGap)),
                               HighestMissing(nxt, buf, (maxGap % MODULUS - 1) % MODULUS))
  {
    var count := if (maxGap + 19) / 20 > 1 then (maxGap + 19) / 20 else 1;
    missing := CollectMissing(nxt, buf, sn, count);
    var frontier: u16 := (nxt + maxGap % 65536 - 1) % 65536;
    FrontierDistance(nxt, maxGap % 65536);
    var found, candidate := FindHighest(nxt, buf, frontier);
    if found && candidate !in missing { missing := missing + [candidate]; }
  }

  lemma FrontierDistance(nxt: u16, span: nat)
    ensures Sub((nxt + span - 1) % 65536, nxt) == (span - 1) % MODULUS
  {
  }

  lemma {:induction false} MissingCount(nxt: u16, buf: map<u16, Chunk>, lo: nat, hi: nat)
    requires lo <= hi
    ensures |MissingIn(nxt, buf, lo, hi)| <= hi - lo
    decreases hi - lo
  {
    if lo < hi { MissingCount(nxt, buf, lo + 1, hi); }
  }
}
