/** Numbers written in base 36 or 256, most significant digit first. */
module Numerals {
  predicate IsBase(b: nat) {
    b == 36 || b == 256
  }

  function Pow(b: nat, n: nat): (p: nat)
    requires IsBase(b)
    ensures p > 0
  {
    if n == 0 then 1 else b * Pow(b, n - 1)
  }

  predicate AreDigits(b: nat, d: seq<nat>) {
    forall i :: 0 <= i < |d| ==> d[i] < b
  }

  function Value(b: nat, d: seq<nat>): nat
    requires IsBase(b)
  {
    if d == [] then 0 else b * Value(b, d[..|d| - 1]) + d[|d| - 1]
  }

  /** The last `n` digits of `v`. */
  function Digits(b: nat, v: nat, n: nat): (d: seq<nat>)
    requires IsBase(b)
    ensures |d| == n && AreDigits(b, d)
  {
    if n == 0 then [] else Digits(b, v / b, n - 1) + [v % b]
  }

  lemma {:induction false} ValueFits(b: nat, d: seq<nat>)
    requires IsBase(b) && AreDigits(b, d)
    ensures Value(b, d) < Pow(b, |d|)
  {
    if d != [] {
      ValueFits(b, d[..|d| - 1]);
      if b == 36 {} else {}
    }
  }

  lemma DivideOnce(b: nat, v: nat, p: nat)
    requires IsBase(b)
    ensures v < b * p ==> v / b < p
    ensures b * (v / b) + v % b == v
  {
    if b == 36 {} else {}
  }

  lemma {:induction false} ValueOfDigits(b: nat, v: nat, n: nat)
    requires IsBase(b) && v < Pow(b, n)
    ensures Value(b, Digits(b, v, n)) == v
  {
    if n > 0 {
      DivideOnce(b, v, Pow(b, n - 1));
      ValueOfDigits(b, v / b, n - 1);
      assert Digits(b, v, n)[..n - 1] == Digits(b, v / b, n - 1);
    }
  }

  lemma {:induction false} DigitsOfValue(b: nat, d: seq<nat>)
    requires IsBase(b) && AreDigits(b, d)
    ensures Digits(b, Value(b, d), |d|) == d
  {
    if d != [] {
      var front := d[..|d| - 1];
      DigitsOfValue(b, front);
      assert Value(b, d) / b == Value(b, front) && Value(b, d) % b == d[|d| - 1] by { if b == 36 {} else {} }
      assert d == front + [d[|d| - 1]];
    }
  }
}
