/** Which due chunks take the priority lane: exactly the budgeted number of them, and those farthest behind. */
module ArqPriority {
  import opened SeqNum
  import opened Extrema
  import opened ArqTerm
  import opened ArqState

  ghost function Elements(s: seq<u16>): set<u16> {
    set x | x in s
  }

  /** Chunks in the order of how far behind `nxt` they are, the farthest first. */
  predicate Ranked(nxt: u16, best: seq<u16>) {
    forall p, q :: 0 <= p < q < |best| ==> Sub(nxt, best[p]) > Sub(nxt, best[q])
  }

  /** Every chunk of `best` is due and farther behind than any due chunk that is not in it. */
  ghost predicate Leads(due: set<u16>, nxt: u16, best: seq<u16>) {
    && (forall p :: 0 <= p < |best| ==> best[p] in due)
    && (forall x, p :: x in due && x !in best && 0 <= p < |best| ==> Sub(nxt, best[p]) > Sub(nxt, x))
  }

  lemma SameDistance(nxt: u16, a: u16, b: u16)
    requires Sub(nxt, a) == Sub(nxt, b)
    ensures a == b
  {
  }

  lemma {:induction false} DistinctCount(nxt: u16, best: seq<u16>)
    requires Ranked(nxt, best)
    ensures |Elements(best)| == |best|
  {
    if best == [] {
      assert Elements(best) == {};
    } else {
      var n := |best| - 1;
      DistinctCount(nxt, best[..n]);
      assert Elements(best) == Elements(best[..n]) + {best[n]};
      assert best[n] !in best[..n];
    }
  }

  /** The rank of a chunk in such a list is its position. */
  lemma RankIsPosition(due: set<u16>, nxt: u16, best: seq<u16>, p: nat)
    requires Ranked(nxt, best) && Leads(due, nxt, best) && p < |best|
    ensures |Farther(due, nxt, best[p])| == p
  {
    forall x ensures x in Farther(due, nxt, best[p]) <==> x in Elements(best[..p]) {
      if x in best {
        var q :| 0 <= q < |best| && best[q] == x;
        if q < p { assert best[..p][q] == x; }
      }
    }
    assert Farther(due, nxt, best[p]) == Elements(best[..p]);
    DistinctCount(nxt, best[..p]);
  }

  /** Whatever order the list was built in, it holds exactly the chunks with fewer than |best| farther behind. */
  lemma LeadersAreTopRanks(due: set<u16>, nxt: u16, best: seq<u16>, x: u16)
    requires Ranked(nxt, best) && Leads(due, nxt, best) && x in due
    ensures x in best <==> |Farther(due, nxt, x)| < |best|
  {
    if x in best {
      var p :| 0 <= p < |best| && best[p] == x;
      RankIsPosition(due, nxt, best, p);
    } else {
      DistinctCount(nxt, best);
      assert Elements(best) <= Farther(due, nxt, x);
      SubsetCount(Elements(best), Farther(due, nxt, x));
    }
  }

  /** `m` is farther behind than every other member. */
  ghost predicate Farthest(s: set<u16>, nxt: u16, m: u16) {
    m in s && forall x :: x in s && x != m ==> Sub(nxt, m) > Sub(nxt, x)
  }

  lemma {:induction false} FarthestExists(s: set<u16>, nxt: u16)
    requires s != {}
    ensures exists m :: Farthest(s, nxt, m)
  {
    var x := Pick(s);
    if s == {x} {
      assert Farthest(s, nxt, x);
    } else {
      assert s == {x} + (s - {x});
      FarthestExists(s - {x}, nxt);
      var m :| Farthest(s - {x}, nxt, m);
      FartherOfTwo(s, nxt, m, x);
    }
  }

  lemma FartherOfTwo(s: set<u16>, nxt: u16, m: u16, x: u16)
    requires x in s && Farthest(s - {x}, nxt, m)
    ensures Farthest(s, nxt, if Sub(nxt, m) > Sub(nxt, x) then m else x)
  {
    if Sub(nxt, m) == Sub(nxt, x) { SameDistance(nxt, m, x); }
  }

  lemma NotAll(a: set<u16>, b: set<u16>)
    requires |b| < |a|
    ensures a - b != {}
  {
    SubsetCount(a, (a - b) + b);
    assert |(a - b) + b| == |a - b| + |b|;
  }

  lemma {:induction false} LeadersExist(due: set<u16>, nxt: u16, k: nat)
    requires k <= |due|
    ensures exists best :: Ranked(nxt, best) && Leads(due, nxt, best) && |best| == k
  {
    if k == 0 {
      assert Ranked(nxt, []) && Leads(due, nxt, []);
    } else {
      LeadersExist(due, nxt, k - 1);
      var best :| Ranked(nxt, best) && Leads(due, nxt, best) && |best| == k - 1;
      DistinctCount(nxt, best);
      NotAll(due, Elements(best));
      FarthestExists(due - Elements(best), nxt);
      var m :| Farthest(due - Elements(best), nxt, m);
      assert Ranked(nxt, best + [m]) && Leads(due, nxt, best + [m]);
    }
  }

  /** The priority lane is given to exactly the budgeted number of due chunks, and they are the farthest behind. */
  lemma PriorityIsExactTopK(window: int, due: set<u16>, nxt: u16)
    ensures |set x | x in due && LaneOf(window, due, nxt, x).Resend?| == Min(Clamp(window / 10, 1, 64), |due|)
    ensures forall x, y ::
              x in due && y in due && LaneOf(window, due, nxt, x).Resend? && LaneOf(window, due, nxt, y).Fresh? ==>
                Sub(nxt, x) > Sub(nxt, y)
  {
    var k := FrontBudget(window, |due|);
    LeadersExist(due, nxt, k);
    var best :| Ranked(nxt, best) && Leads(due, nxt, best) && |best| == k;
    forall x | x in due ensures LaneOf(window, due, nxt, x).Resend? <==> x in best {
      LeadersAreTopRanks(due, nxt, best, x);
    }
    DistinctCount(nxt, best);
    assert (set x | x in due && LaneOf(window, due, nxt, x).Resend?) == Elements(best);
  }

  // ---------------------------------------------------------------------
  // The selection as the endpoint does it: one pass over the jobs, keeping the best so far
  // ---------------------------------------------------------------------

  predicate Distinct(s: seq<u16>) {
    forall i, j :: 0 <= i < j < |s| ==> s[i] != s[j]
  }

  /** The sequence numbers the kept positions stand for. */
  function Chosen(jobs: seq<u16>, best: seq<nat>): (r: seq<u16>)
    requires forall p :: 0 <= p < |best| ==> best[p] < |jobs|
    ensures |r| == |best| && forall p :: 0 <= p < |best| ==> r[p] == jobs[best[p]]
  {
    seq(|best|, p requires 0 <= p < |best| => jobs[best[p]])
  }

  /** The best `budget` of the chunks seen so far, in order, or all of them. */
  ghost predicate BestOf(seen: set<u16>, nxt: u16, best: seq<u16>, budget: nat) {
    && |best| <= budget && Ranked(nxt, best) && Leads(seen, nxt, best)
    && (|best| == budget || forall x :: x in seen ==> x in best)
  }

  /** insertBest: where the job belongs among those kept, behind every one that is at least as far. */
  method InsertPosition(jobs: seq<u16>, nxt: u16, best: seq<nat>, idx: nat) returns (pos: nat)
    requires idx < |jobs| && Distinct(jobs) && (forall p :: 0 <= p < |best| ==> best[p] < idx)
    requires Ranked(nxt, Chosen(jobs, best))
    ensures Belongs(nxt, Chosen(jobs, best), pos, jobs[idx])
  {
    pos := |best|;
    while pos > 0
      invariant pos <= |best|
      invariant forall p :: pos <= p < |best| ==> Sub(nxt, jobs[best[p]]) < Sub(nxt, jobs[idx])
    {
      var prev := best[pos - 1];
      var prevDist, dist := Sub(nxt, jobs[prev]), Sub(nxt, jobs[idx]);
      if prevDist > dist || (prevDist == dist && jobs[prev] <= jobs[idx]) {
        break;
      }
      if prevDist == dist { SameDistance(nxt, jobs[prev], jobs[idx]); }
      pos := pos - 1;
    }
    if pos > 0 {
      if Sub(nxt, jobs[best[pos - 1]]) == Sub(nxt, jobs[idx]) { SameDistance(nxt, jobs[best[pos - 1]], jobs[idx]); }
      var chosen := Chosen(jobs, best);
      assert forall p :: 0 <= p < pos - 1 ==> Sub(nxt, chosen[p]) > Sub(nxt, chosen[pos - 1]);
    }
  }

  /** `pos` is where `x` belongs in `best`. */
  predicate Belongs(nxt: u16, best: seq<u16>, pos: nat, x: u16) {
    && pos <= |best|
    && (forall p :: 0 <= p < pos ==> Sub(nxt, best[p]) > Sub(nxt, x))
    && (forall p :: pos <= p < |best| ==> Sub(nxt, best[p]) < Sub(nxt, x))
  }

  function Inserted<T>(best: seq<T>, pos: nat, x: T): (r: seq<T>)
    requires pos <= |best|
    ensures |r| == |best| + 1
    ensures forall p :: 0 <= p < |r| ==> r[p] == if p < pos then best[p] else if p == pos then x else best[p - 1]
  {
    best[..pos] + [x] + best[pos..]
  }

  lemma InsertedHas<T>(best: seq<T>, pos: nat, x: T, y: T)
    requires pos <= |best|
    ensures y in Inserted(best, pos, x) <==> y == x || y in best
  {
    var r := Inserted(best, pos, x);
    assert r[pos] == x;
    if y in best {
      var q :| 0 <= q < |best| && best[q] == y;
      assert r[if q < pos then q else q + 1] == y;
    }
  }

  lemma LastIsLeast(nxt: u16, best: seq<u16>, p: nat)
    requires Ranked(nxt, best) && p < |best|
    ensures Sub(nxt, best[p]) >= Sub(nxt, best[|best| - 1])
  {
  }

  lemma InsertedRanked(nxt: u16, best: seq<u16>, pos: nat, x: u16)
    requires Ranked(nxt, best) && Belongs(nxt, best, pos, x)
    ensures Ranked(nxt, Inserted(best, pos, x))
  {
    var r := Inserted(best, pos, x);
    forall p, q | 0 <= p < q < |r| ensures Sub(nxt, r[p]) > Sub(nxt, r[q]) {
      var p1, q1 := if p < pos then p else p - 1, if q < pos then q else q - 1;
      if p != pos && q != pos { assert r[p] == best[p1] && r[q] == best[q1] && p1 < q1; }
    }
  }

  lemma InsertedLeads(seen: set<u16>, nxt: u16, best: seq<u16>, pos: nat, x: u16)
    requires Leads(seen, nxt, best) && Belongs(nxt, best, pos, x)
    requires pos < |best| || forall y :: y in seen ==> y in best
    ensures Leads(seen + {x}, nxt, Inserted(best, pos, x))
  {
    var r := Inserted(best, pos, x);
    forall y, p | y in seen + {x} && y !in r && 0 <= p < |r| ensures Sub(nxt, r[p]) > Sub(nxt, y) {
      InsertedHas(best, pos, x, y);
      InsertedBeats(seen, nxt, best, pos, x, y, p);
    }
  }

  lemma InsertedBeats(seen: set<u16>, nxt: u16, best: seq<u16>, pos: nat, x: u16, y: u16, p: nat)
    requires Leads(seen, nxt, best) && Belongs(nxt, best, pos, x) && y in seen && y !in best && pos < |best|
    requires p <= |best|
    ensures Sub(nxt, Inserted(best, pos, x)[p]) > Sub(nxt, y)
  {
    assert Sub(nxt, best[pos]) > Sub(nxt, y);
    if p < pos {
      assert Sub(nxt, best[p]) > Sub(nxt, y);
    } else if p > pos {
      assert Sub(nxt, best[p - 1]) > Sub(nxt, y);
    }
  }

  lemma DroppedIsLast(r: seq<u16>, budget: nat, y: u16)
    requires |r| == budget + 1 && y in r && y !in r[..budget]
    ensures y == r[budget]
  {
    assert r == r[..budget] + [r[budget]];
  }

  lemma TruncatedIsBest(seen: set<u16>, nxt: u16, r: seq<u16>, budget: nat)
    requires Ranked(nxt, r) && Leads(seen, nxt, r) && |r| == budget + 1
    ensures BestOf(seen, nxt, r[..budget], budget)
  {
    forall y | y in seen && y !in r[..budget] ensures forall p :: 0 <= p < budget ==> Sub(nxt, r[p]) > Sub(nxt, y) {
      if y in r { DroppedIsLast(r, budget, y); }
    }
  }

  /** The best with `x` put in its place, and the last let go when the budget is exceeded. */
  function Kept<T>(best: seq<T>, pos: nat, x: T, budget: nat): seq<T>
    requires pos <= |best|
  {
    if |best| + 1 > budget then Inserted(best, pos, x)[..budget] else Inserted(best, pos, x)
  }

  lemma InsertedIsBest(seen: set<u16>, nxt: u16, best: seq<u16>, budget: nat, pos: nat, x: u16)
    requires BestOf(seen, nxt, best, budget) && Belongs(nxt, best, pos, x)
    requires |best| < budget || pos < |best|
    ensures BestOf(seen + {x}, nxt, Kept(best, pos, x, budget), budget)
  {
    var r := Inserted(best, pos, x);
    InsertedRanked(nxt, best, pos, x);
    InsertedLeads(seen, nxt, best, pos, x);
    if |r| > budget {
      TruncatedIsBest(seen + {x}, nxt, r, budget);
    } else {
      forall y | y in seen + {x} && |r| < budget ensures y in r {
        InsertedHas(best, pos, x, y);
      }
    }
  }

  lemma SkippedIsBest(seen: set<u16>, nxt: u16, best: seq<u16>, budget: nat, x: u16)
    requires budget > 0 && BestOf(seen, nxt, best, budget) && |best| == budget
    requires Sub(nxt, x) < Sub(nxt, best[budget - 1])
    ensures BestOf(seen + {x}, nxt, best, budget)
  {
    forall p | 0 <= p < |best| ensures Sub(nxt, best[p]) > Sub(nxt, x) {
      LastIsLeast(nxt, best, p);
    }
  }

  lemma {:induction false} PrefixCount(jobs: seq<u16>, n: nat)
    requires n <= |jobs| && Distinct(jobs)
    ensures |Elements(jobs[..n])| == n
  {
    if n == 0 {
      assert Elements(jobs[..0]) == {};
    } else {
      PrefixCount(jobs, n - 1);
      assert jobs[..n] == jobs[..n - 1] + [jobs[n - 1]];
      assert Elements(jobs[..n]) == Elements(jobs[..n - 1]) + {jobs[n - 1]};
    }
  }

  lemma ChosenInserted(jobs: seq<u16>, best: seq<nat>, pos: nat, i: nat)
    requires pos <= |best| && i < |jobs| && forall p :: 0 <= p < |best| ==> best[p] < |jobs|
    ensures forall p :: 0 <= p < |best| + 1 ==> Inserted(best, pos, i)[p] < |jobs|
    ensures Chosen(jobs, Inserted(best, pos, i)) == Inserted(Chosen(jobs, best), pos, jobs[i])
  {
  }

  lemma NotSeen(jobs: seq<u16>, i: nat)
    requires Distinct(jobs) && i < |jobs|
    ensures jobs[i] !in Elements(jobs[..i]) && Elements(jobs[..i + 1]) == Elements(jobs[..i]) + {jobs[i]}
  {
    assert jobs[..i + 1] == jobs[..i] + [jobs[i]];
  }

  /** How many due chunks may take the priority lane. */
  method FrontBudgetOf(window: int, jobs: nat) returns (budget: nat)
    ensures budget == FrontBudget(window, jobs)
  {
    var b := window / 10;
    if b < 1 { b := 1; }
    if b > 64 { b := 64; }
    if b > jobs { b := jobs; }
    return b;
  }

  lemma ChosenKept(jobs: seq<u16>, best: seq<nat>, pos: nat, i: nat, budget: nat)
    requires pos <= |best| && i < |jobs| && forall p :: 0 <= p < |best| ==> best[p] < i
    ensures forall p :: 0 <= p < |Kept(best, pos, i, budget)| ==> Kept(best, pos, i, budget)[p] < i + 1
    ensures Chosen(jobs, Kept(best, pos, i, budget)) == Kept(Chosen(jobs, best), pos, jobs[i], budget)
  {
    ChosenInserted(jobs, best, pos, i);
    if |best| + 1 > budget { ChosenPrefix(jobs, Inserted(best, pos, i), budget); }
  }

  lemma BelongsBefore(nxt: u16, best: seq<u16>, pos: nat, x: u16)
    requires Belongs(nxt, best, pos, x) && best != [] && Sub(nxt, best[|best| - 1]) < Sub(nxt, x)
    ensures pos < |best|
  {
  }

  /** The jobs chosen once job `i` is put in its place among the best. */
  lemma InsertedJobIsBest(nxt: u16, jobs: seq<u16>, best: seq<nat>, pos: nat, i: nat, budget: nat, seen: set<u16>)
    requires pos <= |best| && i < |jobs| && forall p :: 0 <= p < |best| ==> best[p] < i
    requires BestOf(seen, nxt, Chosen(jobs, best), budget) && Belongs(nxt, Chosen(jobs, best), pos, jobs[i])
    requires |best| < budget || (best != [] && Sub(nxt, jobs[best[|best| - 1]]) < Sub(nxt, jobs[i]))
    ensures forall p :: 0 <= p < |Kept(best, pos, i, budget)| ==> Kept(best, pos, i, budget)[p] < i + 1
    ensures BestOf(seen + {jobs[i]}, nxt, Chosen(jobs, Kept(best, pos, i, budget)), budget)
  {
    var chosen := Chosen(jobs, best);
    if |best| >= budget { BelongsBefore(nxt, chosen, pos, jobs[i]); }
    InsertedIsBest(seen, nxt, chosen, budget, pos, jobs[i]);
    ChosenKept(jobs, best, pos, i, budget);
  }

  /** Put a job among the best, and let the last of them go when the budget is exceeded. */
  method InsertBest(nxt: u16, jobs: seq<u16>, best: seq<nat>, i: nat, budget: nat, ghost seen: set<u16>)
    returns (r: seq<nat>)
    requires Distinct(jobs) && i < |jobs| && forall p :: 0 <= p < |best| ==> best[p] < i
    requires BestOf(seen, nxt, Chosen(jobs, best), budget)
    requires |best| < budget || (best != [] && Sub(nxt, jobs[best[|best| - 1]]) < Sub(nxt, jobs[i]))
    ensures forall p :: 0 <= p < |r| ==> r[p] < i + 1
    ensures BestOf(seen + {jobs[i]}, nxt, Chosen(jobs, r), budget)
  {
    var pos := InsertPosition(jobs, nxt, best, i);
    InsertedJobIsBest(nxt, jobs, best, pos, i, budget, seen);
    r := Kept(best, pos, i, budget);
  }

  /** One job of the pass. */
  method Consider(nxt: u16, jobs: seq<u16>, best: seq<nat>, i: nat, budget: nat) returns (r: seq<nat>)
    requires Distinct(jobs) && i < |jobs| && budget > 0 && forall p :: 0 <= p < |best| ==> best[p] < i
    requires BestOf(Elements(jobs[..i]), nxt, Chosen(jobs, best), budget)
    ensures forall p :: 0 <= p < |r| ==> r[p] < i + 1
    ensures BestOf(Elements(jobs[..i + 1]), nxt, Chosen(jobs, r), budget)
  {
    NotSeen(jobs, i);
    if |best| < budget {
      r := InsertBest(nxt, jobs, best, i, budget, Elements(jobs[..i]));
      return;
    }
    var last := best[|best| - 1];
    var dist, lastDist := Sub(nxt, jobs[i]), Sub(nxt, jobs[last]);
    if dist > lastDist || (dist == lastDist && jobs[i] < jobs[last]) {
      if dist == lastDist { SameDistance(nxt, jobs[i], jobs[last]); }
      r := InsertBest(nxt, jobs, best, i, budget, Elements(jobs[..i]));
      return;
    }
    if dist == lastDist { SameDistance(nxt, jobs[i], jobs[last]); }
    SkippedIsBest(Elements(jobs[..i]), nxt, Chosen(jobs, best), budget, jobs[i]);
    r := best;
  }

  lemma ChosenPrefix(jobs: seq<u16>, best: seq<nat>, k: nat)
    requires k <= |best| && forall p :: 0 <= p < |best| ==> best[p] < |jobs|
    ensures Chosen(jobs, best[..k]) == Chosen(jobs, best)[..k]
  {
  }

  /**
   * retransmitPriorityKinds: one pass over the jobs, in whatever order they come, marks exactly those that
   * LaneOf sends down the priority lane.
   */
  method PriorityKinds(window: int, nxt: u16, jobs: seq<u16>) returns (kinds: seq<bool>)
    requires Distinct(jobs)
    ensures |kinds| == |jobs|
    ensures forall i :: 0 <= i < |jobs| ==> (kinds[i] <==> LaneOf(window, Elements(jobs), nxt, jobs[i]).Resend?)
  {
    if |jobs| == 0 { return []; }
    PrefixCount(jobs, |jobs|);
    assert jobs[..|jobs|] == jobs;
    var budget := FrontBudgetOf(window, |jobs|);
    var best: seq<nat> := [];
    for i := 0 to |jobs|
      invariant forall p :: 0 <= p < |best| ==> best[p] < i
      invariant BestOf(Elements(jobs[..i]), nxt, Chosen(jobs, best), budget)
    {
      best := Consider(nxt, jobs, best, i, budget);
    }
    kinds := MarkKinds(jobs, best);
    BudgetIsUsed(jobs, nxt, Chosen(jobs, best), budget);
    forall k | 0 <= k < |jobs| ensures kinds[k] <==> LaneOf(window, Elements(jobs), nxt, jobs[k]).Resend? {
      LeadersAreTopRanks(Elements(jobs), nxt, Chosen(jobs, best), jobs[k]);
    }
  }

  lemma BudgetIsUsed(jobs: seq<u16>, nxt: u16, best: seq<u16>, budget: nat)
    requires Distinct(jobs) && budget <= |jobs| && BestOf(Elements(jobs), nxt, best, budget)
    ensures |best| == budget
  {
    PrefixCount(jobs, |jobs|);
    assert jobs[..|jobs|] == jobs;
    DistinctCount(nxt, best);
    if |best| < budget { SubsetCount(Elements(jobs), Elements(best)); }
  }

  method MarkKinds(jobs: seq<u16>, best: seq<nat>) returns (kinds: seq<bool>)
    requires Distinct(jobs) && forall p :: 0 <= p < |best| ==> best[p] < |jobs|
    ensures |kinds| == |jobs| && forall k :: 0 <= k < |jobs| ==> (kinds[k] <==> jobs[k] in Chosen(jobs, best))
  {
    kinds := seq(|jobs|, _ => false);
    for p := 0 to |best|
      invariant |kinds| == |jobs|
      invariant forall k :: 0 <= k < |jobs| ==> (kinds[k] <==> jobs[k] in Chosen(jobs, best)[..p])
    {
      var chosen := Chosen(jobs, best);
      assert chosen[..p + 1] == chosen[..p] + [jobs[best[p]]];
      kinds := kinds[best[p] := true];
    }
    assert Chosen(jobs, best)[..|best|] == Chosen(jobs, best);
  }
}
