/** 16-bit wrapping sequence numbers, and how an unbounded index is recovered from one. */
module SeqNum {
  const MODULUS := 65536
  const HALF := 32768

  type u16 = x: int | 0 <= x < 65536

  /** The number carried on the wire for the chunk with unbounded index `i`. */
  function Wrap(i: int): u16 {
    i % MODULUS
  }

  /** `uint16` subtraction. */
  function Sub(a: u16, b: u16): u16 {
    (a - b) % MODULUS
  }

  /** `uint16` increment. */
  function Inc(a: u16): u16 {
    (a + 1) % MODULUS
  }

  /** `uint16` decrement. */
  function Dec(a: u16): u16 {
    (a - 1) % MODULUS
  }

  /** The only index in [base, base + 65536) whose wire number is `sn`. */
  function Lift(base: int, sn: u16): int {
    base + (sn - base) % MODULUS
  }

  lemma LiftSpec(base: int, sn: u16)
    ensures base <= Lift(base, sn) < base + MODULUS
    ensures Wrap(Lift(base, sn)) == sn
  {
  }

  /** Two indices less than 65536 apart with the same wire number are the same index. */
  lemma SameWire(i: int, j: int)
    requires Wrap(i) == Wrap(j)
    requires -MODULUS < i - j < MODULUS
    ensures i == j
  {
  }

  lemma LiftUnique(base: int, i: int)
    requires base <= i < base + MODULUS
    ensures Lift(base, Wrap(i)) == i
  {
    LiftSpec(base, Wrap(i));
    SameWire(Lift(base, Wrap(i)), i);
  }

  lemma WrapStep(i: int)
    ensures Wrap(i + 1) == Inc(Wrap(i))
  {
  }

  lemma SubWrap(i: int, j: int)
    requires 0 <= i - j < MODULUS
    ensures Sub(Wrap(i), Wrap(j)) == i - j
  {
  }

  lemma SubWrapBehind(i: int, j: int)
    requires -MODULUS <= i - j < 0
    ensures Sub(Wrap(i), Wrap(j)) == i - j + MODULUS || (i - j == -MODULUS && Sub(Wrap(i), Wrap(j)) == 0)
  {
  }

  /**
   * The receiver's half-window test: a copy of chunk `i`, examined when chunk `r` is the next one expected,
   * is classified old exactly when it is behind, if and only if it lies in [r - 32768, r + 32768).
   */
  lemma ClassificationExact(i: int, r: int)
    requires -MODULUS < i - r < MODULUS
    ensures (Sub(Wrap(i), Wrap(r)) >= HALF <==> i < r) <==> -HALF <= i - r < HALF
  {
    if i >= r {
      SubWrap(i, r);
    } else {
      SubWrapBehind(i, r);
    }
  }
}
