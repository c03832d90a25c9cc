/** Choosing resolvers: which are eligible, and what each strategy selects from them. */
module Balancer {
  import opened Extrema

  /** A resolver connection; its key is compared only by order. */
  datatype Connection = Connection(key: int, isValid: bool, backup: bool, isIPv6: bool,
                                   upload: int, download: int, resolveTime: int)

  datatype FamilyMode = Dual | IPv4 | IPv6 | Auto

  datatype Strategy = RoundRobin | Random | LeastLoss | LowestLatency | MTUWeighted | HighestMTU

  predicate Distinct(s: seq<nat>) {
    forall i, j :: 0 <= i < j < |s| ==> s[i] != s[j]
  }

  /** `picked` are `n` different members of `valid`. */
  predicate Picked(valid: seq<nat>, picked: seq<nat>, n: nat) {
    |picked| == n && Distinct(picked) && forall i :: 0 <= i < n ==> picked[i] in valid
  }

  // ---------------------------------------------------------------------
  // The active selection set
  // ---------------------------------------------------------------------

  predicate AnyValid(cs: seq<Connection>, isIPv6: bool) {
    exists i :: 0 <= i < |cs| && cs[i].isValid && cs[i].isIPv6 == isIPv6
  }

  /** Whether the family policy admits a connection. */
  predicate Admitted(cs: seq<Connection>, mode: FamilyMode, c: Connection) {
    c.isValid &&
    match mode
    case Dual => true
    case IPv4 => !c.isIPv6
    case IPv6 => c.isIPv6
    case Auto => c.isIPv6 == !AnyValid(cs, false)
  }

  predicate AnyPrimary(cs: seq<Connection>, mode: FamilyMode) {
    exists i :: 0 <= i < |cs| && Admitted(cs, mode, cs[i]) && !cs[i].backup
  }

  /** Backup connections are used exactly when no primary one is admitted. */
  predicate Eligible(cs: seq<Connection>, mode: FamilyMode, i: nat) {
    i < |cs| && Admitted(cs, mode, cs[i]) && cs[i].backup == !AnyPrimary(cs, mode)
  }

  /** An eligible connection is valid and of the wanted family; IPv6 or a backup is only used when there is no other. */
  lemma EligibleMeans(cs: seq<Connection>, mode: FamilyMode, i: nat)
    requires Eligible(cs, mode, i)
    ensures cs[i].isValid && (mode.IPv4? ==> !cs[i].isIPv6) && (mode.IPv6? ==> cs[i].isIPv6)
    ensures mode.Auto? && cs[i].isIPv6 ==> forall j :: 0 <= j < |cs| && cs[j].isValid ==> cs[j].isIPv6
    ensures mode.Dual? && cs[i].backup ==> forall j :: 0 <= j < |cs| && cs[j].isValid ==> cs[j].backup
  {
  }

  /** And some connection is eligible whenever one of a wanted family is valid. */
  lemma SomeEligible(cs: seq<Connection>, mode: FamilyMode, j: nat) returns (i: nat)
    requires j < |cs| && cs[j].isValid && (mode.IPv4? ==> !cs[j].isIPv6) && (mode.IPv6? ==> cs[j].isIPv6)
    ensures Eligible(cs, mode, i)
  {
    i := j;
    if mode.Auto? && AnyValid(cs, false) { i :| i < |cs| && cs[i].isValid && !cs[i].isIPv6; }
    if AnyPrimary(cs, mode) { i :| i < |cs| && Admitted(cs, mode, cs[i]) && !cs[i].backup; }
  }

  predicate ValidAt(cs: seq<Connection>, i: nat) {
    i < |cs| && cs[i].isValid
  }

  predicate SixAt(cs: seq<Connection>, i: nat) {
    i < |cs| && cs[i].isIPv6
  }

  predicate BackupAt(cs: seq<Connection>, i: nat) {
    i < |cs| && cs[i].backup
  }

  predicate Increasing(s: seq<nat>) {
    forall i, j :: 0 <= i < j < |s| ==> s[i] < s[j]
  }

  /** The valid indices, split by family. */
  method SplitFamilies(cs: seq<Connection>, all: seq<nat>) returns (v4: seq<nat>, v6: seq<nat>)
    requires Increasing(all) && forall i: nat :: i in all <==> ValidAt(cs, i)
    ensures Increasing(v4) && forall i: nat :: i in v4 <==> ValidAt(cs, i) && !SixAt(cs, i)
    ensures Increasing(v6) && forall i: nat :: i in v6 <==> ValidAt(cs, i) && SixAt(cs, i)
  {
    v4, v6 := [], [];
    for k := 0 to |all|
      invariant Increasing(v4) && forall i: nat :: i in v4 <==> i in all[..k] && !SixAt(cs, i)
      invariant Increasing(v6) && forall i: nat :: i in v6 <==> i in all[..k] && SixAt(cs, i)
    {
      OneMore(all, k);
      BelowNext(all, k);
      assert all[k] in all;
      if cs[all[k]].isIPv6 {
        AppendIncreasing(v6, all[k]);
        v6 := v6 + [all[k]];
      } else {
        AppendIncreasing(v4, all[k]);
        v4 := v4 + [all[k]];
      }
    }
    assert all[..|all|] == all;
  }

  lemma BelowNext(all: seq<nat>, k: nat)
    requires Increasing(all) && k < |all|
    ensures forall i: nat :: i in all[..k] ==> i < all[k]
  {
  }

  lemma AppendIncreasing(s: seq<nat>, x: nat)
    requires Increasing(s) && forall i: nat :: i in s ==> i < x
    ensures Increasing(s + [x]) && forall i: nat :: i in s + [x] <==> i in s || i == x
  {
    forall k | 0 <= k < |s| ensures s[k] < x {
      assert s[k] in s;
    }
  }

  lemma OneMore(all: seq<nat>, k: nat)
    requires k < |all|
    ensures forall i: nat :: i in all[..k + 1] <==> i in all[..k] || i == all[k]
  {
    assert all[..k + 1] == all[..k] + [all[k]];
  }

  /** selectResolverTier. */
  method SelectTier(cs: seq<Connection>, indices: seq<nat>) returns (tier: seq<nat>)
    requires Increasing(indices) && forall i: nat :: i in indices ==> i < |cs|
    ensures Increasing(tier)
    ensures var primary := exists i: nat :: i in indices && !BackupAt(cs, i);
            forall i: nat :: i in tier <==> i in indices && BackupAt(cs, i) == !primary
  {
    var primary: seq<nat>, backup: seq<nat> := [], [];
    for k := 0 to |indices|
      invariant Increasing(primary) && forall i: nat :: i in primary <==> i in indices[..k] && !BackupAt(cs, i)
      invariant Increasing(backup) && forall i: nat :: i in backup <==> i in indices[..k] && BackupAt(cs, i)
    {
      OneMore(indices, k);
      BelowNext(indices, k);
      assert indices[k] in indices;
      if cs[indices[k]].backup {
        AppendIncreasing(backup, indices[k]);
        backup := backup + [indices[k]];
      } else {
        AppendIncreasing(primary, indices[k]);
        primary := primary + [indices[k]];
      }
    }
    assert indices[..|indices|] == indices;
    if |primary| > 0 {
      assert primary[0] in primary;
      return primary;
    }
    return backup;
  }

  /** rebuildValidIndicesWithFamily: exactly the eligible connections, in order. */
  method RebuildValid(cs: seq<Connection>, mode: FamilyMode) returns (valid: seq<nat>)
    ensures Increasing(valid) && forall i: nat :: i in valid <==> Eligible(cs, mode, i)
  {
    var all: seq<nat> := [];
    for k := 0 to |cs|
      invariant Increasing(all) && forall i: nat :: i in all <==> i < k && ValidAt(cs, i)
    {
      if cs[k].isValid {
        AppendIncreasing(all, k);
        all := all + [k];
      }
    }
    var pool := all;
    if mode != Dual {
      var v4, v6 := SplitFamilies(cs, all);
      if |v4| > 0 { assert v4[0] in v4; }
      assert AnyValid(cs, false) <==> |v4| > 0 by { FamilyInUse(cs, v4); }
      pool := match mode case IPv4 => v4 case IPv6 => v6 case _ => if |v4| > 0 then v4 else v6;
    }
    assert forall i: nat :: i in pool <==> AdmittedAt(cs, mode, i);
    valid := SelectTier(cs, pool);
    PrimaryInUse(cs, mode, pool);
  }

  predicate AdmittedAt(cs: seq<Connection>, mode: FamilyMode, i: nat) {
    i < |cs| && Admitted(cs, mode, cs[i])
  }

  lemma FamilyInUse(cs: seq<Connection>, v4: seq<nat>)
    requires forall i: nat :: i in v4 <==> ValidAt(cs, i) && !SixAt(cs, i)
    ensures AnyValid(cs, false) <==> |v4| > 0
  {
    if |v4| > 0 {
      assert v4[0] in v4;
    }
    if AnyValid(cs, false) {
      var i: nat :| i < |cs| && cs[i].isValid && cs[i].isIPv6 == false;
      assert ValidAt(cs, i) && !SixAt(cs, i) && i in v4;
    }
  }

  lemma PrimaryInUse(cs: seq<Connection>, mode: FamilyMode, pool: seq<nat>)
    requires forall i: nat :: i in pool <==> AdmittedAt(cs, mode, i)
    ensures AnyPrimary(cs, mode) <==> exists i: nat :: i in pool && !BackupAt(cs, i)
  {
    if AnyPrimary(cs, mode) {
      var i: nat :| i < |cs| && Admitted(cs, mode, cs[i]) && !cs[i].backup;
      assert AdmittedAt(cs, mode, i) && !BackupAt(cs, i);
    }
  }

  // ---------------------------------------------------------------------
  // Rotation
  // ---------------------------------------------------------------------

  /** The `k`th of `n` positions after `start`. */
  function Rotated(n: nat, start: nat, k: nat): (p: nat)
    requires start < n && k < n
    ensures p < n
  {
    if start + k < n then start + k else start + k - n
  }

  /** `count` positions of a rotation are different, so what they hold is different. */
  lemma RotationPicks(valid: seq<nat>, start: nat, count: nat, picked: seq<nat>)
    requires Distinct(valid) && start < |valid| && count <= |valid| && |picked| == count
    requires forall k :: 0 <= k < count ==> picked[k] == valid[Rotated(|valid|, start, k)]
    ensures Picked(valid, picked, count)
  {
  }

  lemma RotatedIsMod(n: nat, start: nat, k: nat)
    requires start < n && k < n
    ensures (start + k) % n == Rotated(n, start, k)
  {
    var x, q := start + k, (start + k) / n;
    assert x == q * n + x % n;
    Multiples(q, n);
  }

  lemma Multiples(q: nat, n: nat)
    ensures q >= 1 ==> q * n >= n
    ensures q >= 2 ==> q * n >= 2 * n
  {
    if q >= 2 { assert q * n == 2 * n + (q - 2) * n; }
  }

  // ---------------------------------------------------------------------
  // Highest MTU
  // ---------------------------------------------------------------------

  /** higherMTUFirst. */
  predicate HigherFirst(a: Connection, b: Connection) {
    if a.download != b.download then a.download > b.download
    else if a.upload != b.upload then a.upload > b.upload
    else if a.resolveTime != b.resolveTime then
      if a.resolveTime <= 0 then false else if b.resolveTime <= 0 then true else a.resolveTime < b.resolveTime
    else a.key < b.key
  }

  /** Every picked connection comes before every later picked one and every one left out, or ties with it. */
  predicate BestFirst(cs: seq<Connection>, valid: seq<nat>, picked: seq<nat>) {
    && (forall i: nat :: i in valid ==> i < |cs|)
    && (forall p :: 0 <= p < |picked| ==> picked[p] in valid)
    && (forall p, q :: 0 <= p < q < |picked| ==> !HigherFirst(cs[picked[q]], cs[picked[p]]))
    && (forall p, i: nat :: 0 <= p < |picked| && i in valid && i !in picked ==> !HigherFirst(cs[i], cs[picked[p]]))
  }

  predicate NotLarger(a: Connection, b: Connection) {
    a.download < b.download || (a.download == b.download && a.upload <= b.upload)
  }

  /** No connection left out has a larger download, nor as large a one and a larger upload; so for later picks. */
  predicate LargestFirst(cs: seq<Connection>, valid: seq<nat>, picked: seq<nat>) {
    && (forall i: nat :: i in valid ==> i < |cs|) && (forall p :: 0 <= p < |picked| ==> picked[p] in valid)
    && (forall p, i: nat :: 0 <= p < |picked| && i in valid && i !in picked ==>
          NotLarger(cs[i], cs[picked[p]]))
    && (forall p, q :: 0 <= p < q < |picked| ==> NotLarger(cs[picked[q]], cs[picked[p]]))
  }

  /** The larger download comes first, then the larger upload, then the shorter resolve time, an unmeasured one last. */
  lemma HigherFirstMeans(a: Connection, b: Connection)
    ensures a.download > b.download ==> HigherFirst(a, b)
    ensures a.download == b.download && a.upload > b.upload ==> HigherFirst(a, b)
    ensures a.download == b.download && a.upload == b.upload && a.resolveTime > 0 >= b.resolveTime ==> HigherFirst(a, b)
    ensures a.download == b.download && a.upload == b.upload && 0 < a.resolveTime < b.resolveTime ==> HigherFirst(a, b)
    ensures !(HigherFirst(a, b) && HigherFirst(b, a))
  {
  }

  lemma BestIsLargest(cs: seq<Connection>, valid: seq<nat>, picked: seq<nat>)
    requires BestFirst(cs, valid, picked)
    ensures LargestFirst(cs, valid, picked)
  {
    forall p, i: nat | 0 <= p < |picked| && i in valid && i !in picked ensures NotLarger(cs[i], cs[picked[p]]) {
      assert !HigherFirst(cs[i], cs[picked[p]]);
    }
    forall p, q | 0 <= p < q < |picked| ensures NotLarger(cs[picked[q]], cs[picked[p]]) {
      assert !HigherFirst(cs[picked[q]], cs[picked[p]]);
    }
  }

  /** A connection that does not come before `b` comes before nothing that does: a scan finds a best one. */
  lemma NotLowerTransitive(a: Connection, b: Connection, c: Connection)
    requires !HigherFirst(a, b) && (HigherFirst(c, b) || c == b)
    ensures !HigherFirst(a, c)
  {
  }

  /** No unused connection of `valid` comes before `best`. */
  predicate BestAmong(cs: seq<Connection>, valid: seq<nat>, used: set<nat>, best: nat) {
    best < |cs| && forall i: nat :: i in valid && i !in used ==> i < |cs| && !HigherFirst(cs[i], cs[best])
  }

  /** One round of selectHighestMTU: a best one of those not used. */
  method BestUnused(cs: seq<Connection>, valid: seq<nat>, used: set<nat>) returns (best: int)
    requires forall i: nat :: i in valid ==> i < |cs|
    ensures best == -1 || (best >= 0 && best in valid && best !in used)
    ensures best >= 0 ==> BestAmong(cs, valid, used, best)
    ensures best == -1 ==> forall i: nat :: i in valid ==> i in used
  {
    best := -1;
    for k := 0 to |valid|
      invariant best == -1 ==> forall i: nat :: i in valid[..k] ==> i in used
      invariant best == -1 || (best >= 0 && best in valid && best !in used)
      invariant best >= 0 ==> BestAmong(cs, valid[..k], used, best)
    {
      assert valid[..k + 1] == valid[..k] + [valid[k]];
      assert valid[k] in valid;
      if valid[k] !in used {
        if best == -1 || HigherFirst(cs[valid[k]], cs[best]) {
          forall i: nat | i in valid[..k] && i !in used ensures !HigherFirst(cs[i], cs[valid[k]]) {
            NotLowerTransitive(cs[i], cs[best], cs[valid[k]]);
          }
          best := valid[k];
        }
      }
    }
    assert valid[..|valid|] == valid;
  }

  function Members(s: seq<nat>): set<nat> {
    set i | i in s
  }

  lemma SomeUnused(valid: seq<nat>, picked: seq<nat>)
    requires Distinct(valid) && |picked| < |valid|
    ensures exists i: nat :: i in valid && i !in picked
  {
    SizeOf(valid);
    AtMost(picked);
    if forall i: nat :: i in valid ==> i in picked {
      SubsetCount(Members(valid), Members(picked));
    }
  }

  lemma {:induction false} SizeOf(s: seq<nat>)
    requires Distinct(s)
    ensures |Members(s)| == |s|
  {
    if s != [] {
      var n := |s| - 1;
      SizeOf(s[..n]);
      assert Members(s) == Members(s[..n]) + {s[n]};
      assert s[n] !in s[..n];
    }
  }

  lemma {:induction false} AtMost(s: seq<nat>)
    ensures |Members(s)| <= |s|
  {
    if s != [] {
      var n := |s| - 1;
      AtMost(s[..n]);
      assert Members(s) == Members(s[..n]) + {s[n]};
    }
  }

  /** selectHighestMTU: the `count` best ones, best first. */
  method SelectHighestMTU(cs: seq<Connection>, valid: seq<nat>, count: nat) returns (picked: seq<nat>)
    requires Distinct(valid) && forall i: nat :: i in valid ==> i < |cs|
    ensures Picked(valid, picked, Min(count, |valid|)) && BestFirst(cs, valid, picked)
    ensures LargestFirst(cs, valid, picked)
  {
    var n := if count > |valid| then |valid| else count;
    picked := [];
    var used: set<nat> := {};
    while |picked| < n
      invariant Picked(valid, picked, |picked|) && |picked| <= n && BestFirst(cs, valid, picked)
      invariant forall i :: i in used <==> i in picked
    {
      var best := BestUnused(cs, valid, used);
      SomeUnused(valid, picked);
      used := used + {best};
      picked := picked + [best];
    }
    BestIsLargest(cs, valid, picked);
  }

  // ---------------------------------------------------------------------
  // Lowest score
  // ---------------------------------------------------------------------

  /** The scores of the picked ones ascend, and none left out scores less than any picked one. */
  predicate LowestFirst(score: nat -> nat, valid: seq<nat>, picked: seq<nat>) {
    && (forall p, q :: 0 <= p < q < |picked| ==> score(picked[p]) <= score(picked[q]))
    && (forall p, i: nat :: 0 <= p < |picked| && i in valid && i !in picked ==> score(picked[p]) <= score(i))
  }

  /** One index of the partial selection sort: the least score from position `i` on is swapped there. */
  method SelectLeast(a: array<nat>, i: nat, score: nat -> nat) returns (least: nat)
    requires i < a.Length
    ensures i <= least < a.Length && forall j :: i <= j < a.Length ==> score(a[least]) <= score(a[j])
  {
    least := i;
    for j := i + 1 to a.Length
      invariant i <= least < a.Length && forall k :: i <= k < j ==> score(a[least]) <= score(a[k])
    {
      if score(a[j]) < score(a[least]) { least := j; }
    }
  }

  /** The front of the list holds the lowest scores in order. */
  predicate FrontSorted(s: seq<nat>, n: nat, score: nat -> nat) {
    && n <= |s|
    && (forall p, q :: 0 <= p < q < n ==> score(s[p]) <= score(s[q]))
    && (forall p, q :: 0 <= p < n <= q < |s| ==> score(s[p]) <= score(s[q]))
  }

  function Swapped(s: seq<nat>, i: nat, j: nat): (r: seq<nat>)
    requires i < |s| && j < |s|
    ensures |r| == |s| && r[i] == s[j] && r[j] == s[i]
    ensures forall k :: 0 <= k < |s| && k != i && k != j ==> r[k] == s[k]
  {
    s[i := s[j]][j := s[i]]
  }

  lemma SwappedSame(s: seq<nat>, i: nat, j: nat)
    requires i < |s| && j < |s|
    ensures multiset(Swapped(s, i, j)) == multiset(s) && (Distinct(s) ==> Distinct(Swapped(s, i, j)))
  {
  }

  lemma SwappedSorted(s: seq<nat>, i: nat, least: nat, score: nat -> nat)
    requires FrontSorted(s, i, score) && i <= least < |s|
    requires forall j :: i <= j < |s| ==> score(s[least]) <= score(s[j])
    ensures FrontSorted(Swapped(s, i, least), i + 1, score)
  {
  }

  method Swap(a: array<nat>, i: nat, j: nat)
    requires i < a.Length && j < a.Length
    modifies a
    ensures a[..] == Swapped(old(a[..]), i, j)
  {
    a[i], a[j] := a[j], a[i];
  }

  /** The loop of selectLowestScore, in place. */
  method PartialSelectionSort(a: array<nat>, count: nat, score: nat -> nat)
    requires count <= a.Length && Distinct(a[..])
    modifies a
    ensures Distinct(a[..]) && multiset(a[..]) == multiset(old(a[..])) && FrontSorted(a[..], count, score)
  {
    for i := 0 to count
      invariant Distinct(a[..]) && FrontSorted(a[..], i, score)
      invariant multiset(a[..]) == multiset(old(a[..]))
    {
      var least := SelectLeast(a, i, score);
      assert forall j :: i <= j < a.Length ==> a[..][j] == a[j];
      SwappedSorted(a[..], i, least, score);
      SwappedSame(a[..], i, least);
      Swap(a, i, least);
    }
  }

  lemma SameMembers(s: seq<nat>, t: seq<nat>, x: nat)
    requires multiset(s) == multiset(t)
    ensures x in s <==> x in t
  {
    assert x in s <==> x in multiset(s);
    assert x in t <==> x in multiset(t);
  }

  /** selectLowestScore over the rotated indices. */
  method SelectLowestScore(ordered: seq<nat>, count: nat, score: nat -> nat) returns (picked: seq<nat>)
    requires Distinct(ordered) && count <= |ordered|
    ensures Picked(ordered, picked, count) && LowestFirst(score, ordered, picked)
  {
    var a := new nat[|ordered|](i requires 0 <= i < |ordered| => ordered[i]);
    assert a[..] == ordered;
    PartialSelectionSort(a, count, score);
    picked := a[..count];
    forall x: nat ensures x in ordered <==> x in a[..] { SameMembers(ordered, a[..], x); }
    forall p | 0 <= p < count ensures picked[p] in ordered { assert picked[p] == a[..][p]; }
    assert forall q :: 0 <= q < count ==> a[..][q] == picked[q] && picked[q] in picked;
    forall p, i: nat | 0 <= p < count && i in ordered && i !in picked ensures score(picked[p]) <= score(i) {
      var q :| 0 <= q < |a[..]| && a[..][q] == i;
    }
  }

  // ---------------------------------------------------------------------
  // Random selection
  // ---------------------------------------------------------------------

  /** The list after the first `n` rounds: round `i` brings a random one of those from `i` on to the front. */
  function Shuffled(s: seq<nat>, n: nat, draw: nat -> nat): (r: seq<nat>)
    requires n <= |s|
    ensures |r| == |s|
  {
    if n == 0 then s
    else
      var before := Shuffled(s, n - 1, draw);
      Swapped(before, n - 1, Target(|s|, n - 1, draw(n - 1)))
  }

  /** The position a random number names among those from `i` on. */
  function Target(n: nat, i: nat, random: nat): (j: nat)
    requires i < n
    ensures i <= j < n
  {
    i + random % (n - i)
  }

  /** The state of the shuffle before round `i`. */
  predicate Shuffling(valid: seq<nat>, i: nat, draw: nat -> nat, s: seq<nat>) {
    i <= |valid| && s == Shuffled(valid, i, draw) && Distinct(s) && multiset(s) == multiset(valid)
  }

  lemma ShufflingStep(valid: seq<nat>, i: nat, draw: nat -> nat, s: seq<nat>)
    requires i < |valid| && Shuffling(valid, i, draw, s)
    ensures Shuffling(valid, i + 1, draw, Swapped(s, i, Target(|valid|, i, draw(i))))
  {
    SwappedSame(s, i, Target(|valid|, i, draw(i)));
  }

  /** The partial Fisher-Yates shuffle of selectRandom; `draw(i)` is the random number of round `i`. */
  method SelectRandom(valid: seq<nat>, count: nat, draw: nat -> nat) returns (picked: seq<nat>)
    requires Distinct(valid) && count <= |valid|
    ensures Picked(valid, picked, count) && picked == Shuffled(valid, count, draw)[..count]
  {
    var a := new nat[|valid|](i requires 0 <= i < |valid| => valid[i]);
    assert a[..] == valid;
    for i := 0 to count
      invariant Shuffling(valid, i, draw, a[..])
    {
      var j := i + draw(i) % (a.Length - i);
      assert j == Target(|valid|, i, draw(i));
      ShufflingStep(valid, i, draw, a[..]);
      Swap(a, i, j);
    }
    picked := a[..count];
    forall p | 0 <= p < count ensures picked[p] in valid {
      assert picked[p] == a[..][p];
      SameMembers(a[..], valid, picked[p]);
    }
  }

  // ---------------------------------------------------------------------
  // Weighted selection
  // ---------------------------------------------------------------------

  function Total(w: seq<nat>, n: nat): nat
    requires n <= |w|
  {
    if n == 0 then 0 else Total(w, n - 1) + w[n - 1]
  }

  lemma {:induction false} TotalMonotone(w: seq<nat>, m: nat, n: nat)
    requires m <= n <= |w|
    ensures Total(w, m) <= Total(w, n)
    decreases n
  {
    if m < n { TotalMonotone(w, m, n - 1); }
  }

  /** The residues that choose position `i`. */
  predicate Chooses(w: seq<nat>, r: nat, i: nat) {
    i < |w| && Total(w, i) <= r < Total(w, i + 1)
  }

  /** A residue chooses one position only. */
  lemma ChosenOnce(w: seq<nat>, r: nat, i: nat, j: nat)
    requires Chooses(w, r, i) && Chooses(w, r, j)
    ensures i == j
  {
    if i < j { TotalMonotone(w, i + 1, j); }
    if j < i { TotalMonotone(w, j + 1, i); }
  }

  /** The loop of weightedByMTUConnection; the fallback after it is never reached. */
  method PickWeighted(w: seq<nat>, random: nat) returns (i: nat)
    requires Total(w, |w|) > 0
    ensures Chooses(w, random % Total(w, |w|), i) && w[i] > 0
    ensures forall j: nat :: Chooses(w, random % Total(w, |w|), j) ==> j == i
  {
    ghost var r0 := random % Total(w, |w|);
    var r: nat := random % Total(w, |w|);
    assert r0 < Total(w, |w|);
    i := 0;
    while i < |w|
      invariant i <= |w| && r + Total(w, i) == r0
    {
      if r < w[i] {
        forall j: nat | Chooses(w, r0, j) ensures j == i { ChosenOnce(w, r0, j, i); }
        return;
      }
      r := r - w[i];
      i := i + 1;
    }
    assert false;
  }

  /** A position is chosen by exactly as many residues as its weight. */
  lemma ChosenByWeight(w: seq<nat>, i: nat)
    requires i < |w|
    ensures |set r | 0 <= r < Total(w, |w|) && Chooses(w, r, i)| == w[i]
  {
    TotalMonotone(w, i + 1, |w|);
    var s := set r | 0 <= r < Total(w, |w|) && Chooses(w, r, i);
    forall r ensures r in s <==> r in Range(Total(w, i), Total(w, i + 1)) {
      RangeMembers(Total(w, i), Total(w, i + 1), r);
    }
    assert s == Range(Total(w, i), Total(w, i + 1));
    RangeSize(Total(w, i), Total(w, i + 1));
  }

  function Range(lo: nat, hi: nat): set<int> {
    if lo >= hi then {} else Range(lo, hi - 1) + {hi - 1}
  }

  lemma {:induction false} RangeMembers(lo: nat, hi: nat, r: int)
    ensures r in Range(lo, hi) <==> lo <= r < hi
  {
    if lo < hi { RangeMembers(lo, hi - 1, r); }
  }

  lemma {:induction false} RangeSize(lo: nat, hi: nat)
    requires lo <= hi
    ensures |Range(lo, hi)| == hi - lo
    decreases hi - lo
  {
    if lo < hi {
      RangeSize(lo, hi - 1);
      RangeMembers(lo, hi - 1, hi - 1);
    }
  }
}
