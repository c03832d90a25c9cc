/** The balancer as the object it is: counters and a random state that every selection moves on. */
module LoadBalancer {
  import opened Extrema
  import opened Balancer

  /** Delivery statistics of one resolver. */
  datatype Stats = Stats(sent: nat, acked: nat, rttSum: nat, rttCount: nat)

  const UINT64: nat := 0x1_0000_0000_0000_0000

  function LossScore(st: Stats): nat {
    if st.sent < 5 then 500 else if st.acked >= st.sent then 0 else (st.sent - st.acked) * 1000 / st.sent
  }

  function LatencyScore(st: Stats): nat {
    if st.rttCount < 5 then 999000 else st.rttSum / st.rttCount
  }

  /** With enough samples the loss score is the share lost in thousandths, rounded down: none lost, the least score. */
  lemma LossScoreIsShare(st: Stats)
    requires st.sent >= 5
    ensures st.acked >= st.sent ==> LossScore(st) == 0
    ensures st.acked < st.sent ==>
              LossScore(st) * st.sent <= (st.sent - st.acked) * 1000 < (LossScore(st) + 1) * st.sent
  {
  }

  /** So of two that sent as much, the one that lost more does not score lower, and a thousandth more scores higher. */
  lemma MoreLossScoresHigher(a: Stats, b: Stats)
    requires a.sent == b.sent >= 5 && a.acked <= b.acked <= b.sent
    ensures LossScore(b) <= LossScore(a) <= 1000
    ensures (b.acked - a.acked) * 1000 >= a.sent ==> LossScore(b) < LossScore(a)
  {
    LossScoreIsShare(a);
    LossScoreIsShare(b);
    SmallerProduct(LossScore(b), LossScore(a) + 1, a.sent);
    SmallerProduct(LossScore(a), 1001, a.sent);
    if (b.acked - a.acked) * 1000 >= a.sent { SmallerProduct(LossScore(b) + 1, LossScore(a) + 1, a.sent); }
  }

  lemma SmallerProduct(x: int, y: int, n: int)
    requires x * n < y * n && n > 0
    ensures x < y
  {
    assert x >= y ==> (x - y) * n >= 0;
  }

  /** With enough samples the latency score is the mean round trip, rounded down. */
  lemma LatencyScoreIsMean(st: Stats)
    requires st.rttCount >= 5
    ensures LatencyScore(st) * st.rttCount <= st.rttSum < (LatencyScore(st) + 1) * st.rttCount
  {
  }

  /** normalizeRequiredCount with default 1. */
  function Normalize(valid: nat, required: int): nat {
    if valid == 0 then 0 else if required <= 0 then 1 else if required > valid then valid else required
  }

  /** The score of a connection index; without statistics it is neutral. */
  function LossOf(stats: seq<Stats>): nat -> nat {
    (i: nat) => if i < |stats| then LossScore(stats[i]) else 500
  }

  function LatencyOf(stats: seq<Stats>): nat -> nat {
    (i: nat) => if i < |stats| then LatencyScore(stats[i]) else 999000
  }

  /** Some eligible resolver has enough samples. */
  predicate LossSignal(stats: seq<Stats>, valid: seq<nat>) {
    exists k :: 0 <= k < |valid| && valid[k] < |stats| && stats[valid[k]].sent >= 5
  }

  predicate LatencySignal(stats: seq<Stats>, valid: seq<nat>) {
    exists k :: 0 <= k < |valid| && valid[k] < |stats| && stats[valid[k]].rttCount >= 5
  }

  /** Consecutive positions from the counter on, cyclically. */
  predicate InRotation(valid: seq<nat>, counter: nat, picked: seq<nat>) {
    && 0 < |picked| <= |valid|
    && forall k :: 0 <= k < |picked| ==> picked[k] == valid[Rotated(|valid|, counter % |valid|, k)]
  }

  /** The position whose stretch of the running weight totals holds the residue of the random number. */
  predicate ByWeight(w: seq<nat>, valid: seq<nat>, random: nat, best: nat) {
    && Total(w, |w|) > 0
    && exists k :: 0 <= k < |valid| && best == valid[k] && Chooses(w, random % Total(w, |w|), k)
  }

  /** Whether choosing `count` connections moves the rotation counter on: by strategy, scored or in turn. */
  predicate Counts(strategy: Strategy, count: nat) {
    strategy.RoundRobin? || strategy.LeastLoss? || strategy.LowestLatency? || (strategy.MTUWeighted? && count > 1)
  }

  function Advanced(counter: nat, strategy: Strategy, count: nat): nat {
    if Counts(strategy, count) then (counter + count) % UINT64 else counter
  }

  /** The members the shuffle yields from a random state. */
  function Drawn(valid: seq<nat>, count: nat, xorshift: nat -> nat, state: nat): seq<nat>
    requires count <= |valid|
  {
    Shuffled(valid, count, (i: nat) => Iterated(xorshift, state, i + 1))[..count]
  }

  /** What each strategy promises of the connections it picks, from the counter and the random state it finds. */
  ghost predicate Chosen(pool: ResolverPool, counter: nat, state: nat, picked: seq<nat>)
    requires pool.Valid() && 0 < |picked| <= |pool.valid|
    reads pool
  {
    match pool.strategy
    case Random =>
      if |picked| == 1 then picked[0] == pool.valid[pool.xorshift(state) % |pool.valid|]
      else picked == Drawn(pool.valid, |picked|, pool.xorshift, state)
    case MTUWeighted =>
      if |picked| == 1 then
        ByWeight(Weights(pool.connections, pool.weight, pool.valid), pool.valid, pool.xorshift(state), picked[0])
      else InRotation(pool.valid, counter, picked)
    case HighestMTU => BestFirst(pool.connections, pool.valid, picked)
    case LeastLoss =>
      if LossSignal(pool.stats, pool.valid) then LowestFirst(LossOf(pool.stats), pool.valid, picked)
      else InRotation(pool.valid, counter, picked)
    case LowestLatency =>
      if LatencySignal(pool.stats, pool.valid) then LowestFirst(LatencyOf(pool.stats), pool.valid, picked)
      else InRotation(pool.valid, counter, picked)
    case RoundRobin => InRotation(pool.valid, counter, picked)
  }

  class ResolverPool {
    const strategy: Strategy
    const xorshift: nat -> nat
    const weight: Connection -> nat
    var connections: seq<Connection>
    var stats: seq<Stats>
    var valid: seq<nat>
    var rrCounter: nat
    var rngState: nat

    ghost predicate Valid()
      reads this
    {
      && |stats| == |connections| && Increasing(valid) && rrCounter < UINT64
      && (forall k :: 0 <= k < |valid| ==> valid[k] < |connections|)
      && (forall c :: weight(c) > 0)
    }

    constructor (strategy: Strategy, mode: FamilyMode, connections: seq<Connection>, stats: seq<Stats>,
                 xorshift: nat -> nat, weight: Connection -> nat, seed: nat)
      requires |stats| == |connections| && forall c :: weight(c) > 0
      ensures Valid() && forall i: nat :: i in valid <==> Eligible(connections, mode, i)
    {
      this.strategy, this.xorshift, this.weight := strategy, xorshift, weight;
      this.connections, this.stats, rrCounter, rngState := connections, stats, 0, seed;
      var v := RebuildValid(connections, mode);
      assert forall k :: 0 <= k < |v| ==> v[k] in v;
      this.valid := v;
    }

    method NextRandom() returns (r: nat)
      modifies this`rngState
      ensures r == rngState == xorshift(old(rngState))
    {
      rngState := xorshift(rngState);
      r := rngState;
    }

    /** The start of the next rotation: the counter before it moves on by `step`. */
    method NextStart(step: nat) returns (start: nat)
      requires Valid() && |valid| > 0
      modifies this`rrCounter
      ensures Valid() && start == old(rrCounter) % |valid| && rrCounter == (old(rrCounter) + step) % UINT64
    {
      start := rrCounter % |valid|;
      rrCounter := (rrCounter + step) % UINT64;
    }

    /** rotatedValidIndices, and selectRoundRobin when `count` is less than all. */
    method Rotate(step: nat, count: nat) returns (ordered: seq<nat>)
      requires Valid() && |valid| > 0 && count <= |valid|
      modifies this`rrCounter
      ensures Valid() && Picked(valid, ordered, count)
      ensures forall k :: 0 <= k < count ==> ordered[k] == valid[Rotated(|valid|, old(rrCounter) % |valid|, k)]
      ensures rrCounter == (old(rrCounter) + step) % UINT64
    {
      var start := NextStart(step);
      ordered := RotateFrom(valid, start, count);
    }

    method HasLossSignal() returns (any: bool)
      requires Valid()
      ensures any == LossSignal(stats, valid)
    {
      for k := 0 to |valid|
        invariant forall j :: 0 <= j < k ==> !(valid[j] < |stats| && stats[valid[j]].sent >= 5)
      {
        if valid[k] < |stats| && stats[valid[k]].sent >= 5 { return true; }
      }
      any := false;
    }

    method HasLatencySignal() returns (any: bool)
      requires Valid()
      ensures any == LatencySignal(stats, valid)
    {
      for k := 0 to |valid|
        invariant forall j :: 0 <= j < k ==> !(valid[j] < |stats| && stats[valid[j]].rttCount >= 5)
      {
        if valid[k] < |stats| && stats[valid[k]].rttCount >= 5 { return true; }
      }
      any := false;
    }

    /** bestScoredConnection. */
    method BestScored(score: nat -> nat) returns (best: nat)
      requires Valid() && |valid| > 0
      modifies this`rrCounter
      ensures Valid() && best in valid && forall i: nat :: i in valid ==> score(best) <= score(i)
      ensures rrCounter == (old(rrCounter) + 1) % UINT64
    {
      var ordered := Rotate(1, |valid|);
      best := ordered[0];
      for k := 1 to |ordered|
        invariant best in ordered && forall j :: 0 <= j < k ==> score(best) <= score(ordered[j])
      {
        if score(ordered[k]) < score(best) { best := ordered[k]; }
      }
      RotationIsAll(valid, ordered);
    }

    /** selectLowestScore for more than one connection. */
    method LowestScores(score: nat -> nat, count: nat) returns (picked: seq<nat>)
      requires Valid() && |valid| > 0 && count <= |valid|
      modifies this`rrCounter
      ensures Valid() && Picked(valid, picked, count) && LowestFirst(score, valid, picked)
      ensures rrCounter == (old(rrCounter) + count) % UINT64
    {
      var ordered := Rotate(count, |valid|);
      RotationIsAll(valid, ordered);
      picked := SelectLowestScore(ordered, count, score);
    }

    /** weightedByMTUConnection. */
    method Weighted() returns (best: nat)
      requires Valid() && |valid| > 0
      modifies this`rngState
      ensures Valid() && best in valid
      ensures ByWeight(Weights(connections, weight, valid), valid, xorshift(old(rngState)), best)
    {
      var w := Weights(connections, weight, valid);
      TotalPositive(w);
      var r := NextRandom();
      var k := PickWeighted(w, r);
      best := valid[k];
    }

    /** roundRobinBestConnection. */
    method RoundRobinBest() returns (best: nat)
      requires Valid() && |valid| > 0
      modifies this`rrCounter
      ensures Valid() && best in valid && InRotation(valid, old(rrCounter), [best])
      ensures rrCounter == (old(rrCounter) + 1) % UINT64
    {
      var ordered := Rotate(1, 1);
      best := ordered[0];
    }

    /** bestHighestMTUConnection. */
    method BestHighestMTU() returns (best: nat)
      requires Valid() && |valid| > 0
      ensures best in valid && BestFirst(connections, valid, [best])
    {
      var picked := SelectHighestMTU(connections, valid, 1);
      assert picked == [picked[0]];
      best := picked[0];
    }

    /** Any valid connection, as a random number says. */
    method RandomBest() returns (best: nat)
      requires Valid() && |valid| > 0
      modifies this`rngState
      ensures Valid() && best in valid && best == valid[xorshift(old(rngState)) % |valid|]
    {
      var r := NextRandom();
      best := valid[r % |valid|];
    }

    lemma LowestAlone(score: nat -> nat, best: nat)
      requires best in valid && forall i: nat :: i in valid ==> score(best) <= score(i)
      ensures LowestFirst(score, valid, [best])
    {
    }

    /** The least lossy one, or the next in turn while there are too few samples. */
    method BestByLoss() returns (best: nat)
      requires Valid() && |valid| > 0
      modifies this`rrCounter
      ensures Valid() && best in valid && rrCounter == (old(rrCounter) + 1) % UINT64
      ensures if LossSignal(stats, valid) then LowestFirst(LossOf(stats), valid, [best])
              else InRotation(valid, old(rrCounter), [best])
    {
      var signal := HasLossSignal();
      if !signal {
        best := RoundRobinBest();
      } else {
        best := BestScored(LossOf(stats));
        LowestAlone(LossOf(stats), best);
      }
    }

    /** The fastest one, or the next in turn while there are too few samples. */
    method BestByLatency() returns (best: nat)
      requires Valid() && |valid| > 0
      modifies this`rrCounter
      ensures Valid() && best in valid && rrCounter == (old(rrCounter) + 1) % UINT64
      ensures if LatencySignal(stats, valid) then LowestFirst(LatencyOf(stats), valid, [best])
              else InRotation(valid, old(rrCounter), [best])
    {
      var signal := HasLatencySignal();
      if !signal {
        best := RoundRobinBest();
      } else {
        best := BestScored(LatencyOf(stats));
        LowestAlone(LatencyOf(stats), best);
      }
    }

    /** GetBestConnection. */
    method GetBest() returns (best: nat)
      requires Valid() && |valid| > 0
      modifies this`rrCounter, this`rngState
      ensures Valid() && best in valid && Chosen(this, old(rrCounter), old(rngState), [best])
      ensures rrCounter == Advanced(old(rrCounter), strategy, 1)
    {
      match strategy {
        case Random =>
          best := RandomBest();
        case MTUWeighted =>
          best := Weighted();
        case HighestMTU =>
          best := BestHighestMTU();
        case LeastLoss =>
          best := BestByLoss();
        case LowestLatency =>
          best := BestByLatency();
        case RoundRobin =>
          best := RoundRobinBest();
      }
    }

    /** GetUniqueConnections: exactly min(required, valid) different eligible connections, as the strategy says. */
    method GetUnique(required: int) returns (picked: seq<nat>)
      requires Valid()
      modifies this`rrCounter, this`rngState
      ensures Valid() && Picked(valid, picked, Normalize(|valid|, required))
      ensures picked != [] ==> Chosen(this, old(rrCounter), old(rngState), picked)
      ensures picked != [] ==> rrCounter == Advanced(old(rrCounter), strategy, |picked|)
    {
      var count := Normalize(|valid|, required);
      if count == 0 { return []; }
      if count == 1 {
        var best := GetBest();
        return [best];
      }
      match strategy {
        case Random =>
          picked := Shuffle(count);
          return;
        case HighestMTU =>
          picked := SelectHighestMTU(connections, valid, count);
          return;
        case LeastLoss =>
          var signal := HasLossSignal();
          if signal {
            picked := LowestScores(LossOf(stats), count);
            return;
          }
        case LowestLatency =>
          var signal := HasLatencySignal();
          if signal {
            picked := LowestScores(LatencyOf(stats), count);
            return;
          }
        case _ =>
      }
      picked := Rotate(count, count);
    }

    /** selectRandom, one random number a round. */
    method Shuffle(count: nat) returns (picked: seq<nat>)
      requires Valid() && 1 < count <= |valid|
      modifies this`rngState
      ensures Valid() && Picked(valid, picked, count) && picked == Drawn(valid, count, xorshift, old(rngState))
      ensures rngState == Iterated(xorshift, old(rngState), count)
    {
      var first := rngState;
      var draw := (i: nat) => Iterated(xorshift, first, i + 1);
      picked := SelectRandom(valid, count, draw);
      rngState := Iterated(xorshift, first, count);
    }
  }

  /** The loop of rotatedValidIndices and of selectRoundRobin. */
  method RotateFrom(valid: seq<nat>, start: nat, count: nat) returns (ordered: seq<nat>)
    requires Increasing(valid) && start < |valid| && count <= |valid|
    ensures Picked(valid, ordered, count)
    ensures forall k :: 0 <= k < count ==> ordered[k] == valid[Rotated(|valid|, start, k)]
  {
    ordered := [];
    for k := 0 to count
      invariant |ordered| == k
      invariant forall j :: 0 <= j < k ==> ordered[j] == valid[Rotated(|valid|, start, j)]
    {
      RotatedIsMod(|valid|, start, k);
      ordered := ordered + [valid[(start + k) % |valid|]];
    }
    RotationPicks(valid, start, count, ordered);
  }

  /** The random state after `n` numbers were drawn. */
  function Iterated(xorshift: nat -> nat, state: nat, n: nat): nat {
    if n == 0 then state else xorshift(Iterated(xorshift, state, n - 1))
  }

  function Weights(cs: seq<Connection>, weight: Connection -> nat, valid: seq<nat>): (w: seq<nat>)
    requires forall k :: 0 <= k < |valid| ==> valid[k] < |cs|
    ensures |w| == |valid| && forall k :: 0 <= k < |valid| ==> valid[k] < |cs| && w[k] == weight(cs[valid[k]])
  {
    if valid == [] then []
    else
      Weights(cs, weight, valid[..|valid| - 1]) + [weight(cs[valid[|valid| - 1]])]
  }

  lemma TotalPositive(w: seq<nat>)
    requires |w| > 0 && forall k :: 0 <= k < |w| ==> w[k] > 0
    ensures Total(w, |w|) > 0
  {
  }

  /** A whole rotation holds every eligible connection. */
  lemma RotationIsAll(valid: seq<nat>, ordered: seq<nat>)
    requires Increasing(valid) && Picked(valid, ordered, |valid|)
    ensures forall i: nat :: i in ordered <==> i in valid
  {
    forall i: nat | i in valid ensures i in ordered {
      if i !in ordered {
        var others := Members(valid) - {i};
        SizeOf(valid);
        SizeOf(ordered);
        SubsetCount(Members(ordered), others);
        assert false;
      }
    }
  }
}
