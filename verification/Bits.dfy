/** Bitwise operations on natural numbers, bit by bit. */
module Bits {
  import opened Arithmetic

  function Pow2(n: nat): (p: nat)
    ensures p > 0
  {
    if n == 0 then 1 else 2 * Pow2(n - 1)
  }

  function BitOr(a: nat, b: nat): nat {
    if a == 0 then b
    else if b == 0 then a
    else 2 * BitOr(a / 2, b / 2) + (if a % 2 == 1 || b % 2 == 1 then 1 else 0)
  }

  function BitAnd(a: nat, b: nat): nat {
    if a == 0 || b == 0 then 0
    else 2 * BitAnd(a / 2, b / 2) + (if a % 2 == 1 && b % 2 == 1 then 1 else 0)
  }

  /** Bit k of a number. */
  ghost predicate BitAt(a: nat, k: nat) {
    (a / Pow2(k)) % 2 == 1
  }

  lemma BitNext(a: nat, k: nat)
    requires k > 0
    ensures BitAt(a, k) <==> BitAt(a / 2, k - 1)
  {
    DivDiv(a, 2, Pow2(k - 1));
  }

  lemma {:induction false} Halves(a: nat, b: nat)
    ensures BitOr(a, b) / 2 == BitOr(a / 2, b / 2) && (BitOr(a, b) % 2 == 1 <==> a % 2 == 1 || b % 2 == 1)
    ensures BitAnd(a, b) / 2 == BitAnd(a / 2, b / 2) && (BitAnd(a, b) % 2 == 1 <==> a % 2 == 1 && b % 2 == 1)
  {
  }

  lemma LowestBit(a: nat)
    ensures BitAt(a, 0) <==> a % 2 == 1
  {
    assert Pow2(0) == 1;
  }

  /** Both operations work bit by bit. */
  lemma {:induction false} BitwiseAt(a: nat, b: nat, k: nat)
    ensures BitAt(BitOr(a, b), k) <==> BitAt(a, k) || BitAt(b, k)
    ensures BitAt(BitAnd(a, b), k) <==> BitAt(a, k) && BitAt(b, k)
    decreases k
  {
    var or, and := BitOr(a, b), BitAnd(a, b);
    Halves(a, b);
    if k == 0 {
      LowestBit(a);
      LowestBit(b);
      LowestBit(or);
      LowestBit(and);
    } else {
      BitNext(a, k);
      BitNext(b, k);
      BitNext(or, k);
      BitNext(and, k);
      BitwiseAt(a / 2, b / 2, k - 1);
    }
  }

  /** Or-ing with a value shifted past all bits of a adds it. */
  lemma {:induction false} OrShifted(a: nat, b: nat, shift: nat)
    requires a < Pow2(shift)
    ensures BitOr(a, b * Pow2(shift)) == a + b * Pow2(shift)
  {
    if shift > 0 && a > 0 && b > 0 {
      var c := b * Pow2(shift - 1);
      assert b * Pow2(shift) == 2 * c;
      OrShifted(a / 2, b, shift - 1);
    }
  }

  lemma {:induction false} Pow2Add(a: nat, b: nat)
    ensures Pow2(a + b) == Pow2(a) * Pow2(b)
  {
    if b > 0 {
      Pow2Add(a, b - 1);
      assert Pow2(a + b) == 2 * Pow2(a + (b - 1));
      assert Pow2(a) * (2 * Pow2(b - 1)) == 2 * (Pow2(a) * Pow2(b - 1));
    }
  }

  lemma {:induction false} Pow2Monotone(a: nat, b: nat)
    requires a <= b
    ensures Pow2(a) <= Pow2(b)
    decreases b - a
  {
    if a < b {
      Pow2Monotone(a, b - 1);
    }
  }

  /** x is a power of two. */
  ghost predicate IsPow2(x: nat) {
    exists k: nat :: x == Pow2(k)
  }

  lemma {:induction false} AndBelow(n: nat)
    requires n > 0
    ensures BitAnd(n, n - 1) == 0 <==> (n == 1 || (n % 2 == 0 && BitAnd(n / 2, n / 2 - 1) == 0))
  {
    Halves(n, n - 1);
    if n % 2 == 0 {
      assert (n - 1) / 2 == n / 2 - 1 && (n - 1) % 2 == 1;
    } else {
      assert (n - 1) / 2 == n / 2;
      AndSelf(n / 2);
    }
  }

  lemma {:induction false} AndSelf(n: nat)
    ensures BitAnd(n, n) == n
  {
    if n > 0 {
      AndSelf(n / 2);
    }
  }

  lemma {:induction false} Pow2Halves(n: nat)
    requires n > 0
    ensures IsPow2(n) <==> (n == 1 || (n % 2 == 0 && IsPow2(n / 2)))
  {
    if n == 1 {
      assert n == Pow2(0);
    } else {
      if k: nat :| n == Pow2(k) {
        assert k > 0 && n / 2 == Pow2(k - 1);
      }
      if n % 2 == 0 && IsPow2(n / 2) {
        var k: nat :| n / 2 == Pow2(k);
        assert n == Pow2(k + 1);
      }
    }
  }

  /** Clearing the lowest set bit leaves zero exactly for powers of two. */
  lemma {:induction false} AndBelowIffPow2(n: nat)
    requires n > 0
    ensures BitAnd(n, n - 1) == 0 <==> IsPow2(n)
  {
    AndBelow(n);
    Pow2Halves(n);
    if n > 1 {
      AndBelowIffPow2(n / 2);
    }
  }
}
