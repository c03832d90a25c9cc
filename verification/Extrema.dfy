/** Least elements of finite sets of integers. */
module Extrema {
  function Max(a: int, b: int): int {
    if a > b then a else b
  }

  function Min(a: int, b: int): int {
    if a < b then a else b
  }

  /** Some member of a nonempty set. */
  ghost function Pick<T>(s: set<T>): (x: T)
    requires s != {}
    ensures x in s
  {
    var x :| x in s;
    x
  }

  ghost predicate IsLeast(m: int, s: set<int>) {
    m in s && forall x | x in s :: m <= x
  }

  lemma {:induction false} LeastExists(s: set<int>)
    requires s != {}
    ensures exists m :: IsLeast(m, s)
  {
    var x := Pick(s);
    if s == {x} {
      assert IsLeast(x, s);
    } else {
      assert s == {x} + (s - {x});
      LeastExists(s - {x});
      var m :| IsLeast(m, s - {x});
      assert IsLeast(Min(x, m), s);
    }
  }

  lemma {:induction false} SubsetCount<T>(a: set<T>, b: set<T>)
    requires a <= b
    ensures |a| <= |b|
  {
    if a != {} {
      var x := Pick(a);
      SubsetCount(a - {x}, b - {x});
    }
  }
}
