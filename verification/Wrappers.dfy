// Small shared vocabulary: optional values and modulo arithmetic facts.

module Wrappers {
  datatype Option<+T> = None | Some(value: T)
}

module ModuloArithmetic {
  lemma MultipleBounds(d: int, n: int)
    requires n > 0
    ensures d >= 1 ==> d * n >= n
    ensures d <= -1 ==> d * n <= -n
  {
  }

  // A quotient and an in-range remainder determine division and modulus.
  lemma DivModUnique(x: int, q: int, r: int, n: int)
    requires 0 <= r < n
    requires x == q * n + r
    ensures x / n == q && x % n == r
  {
    var d := x / n - q;
    assert d * n == r - x % n;
    MultipleBounds(d, n);
  }

  lemma AddMultiple(x: int, k: int, n: int)
    requires n > 0
    ensures (x + k * n) % n == x % n
    ensures (x + k * n) / n == x / n + k
  {
    DivModUnique(x + k * n, x / n + k, x % n, n);
  }

  // Reducing one addend first does not change the sum modulo n.
  lemma ReduceLeft(a: int, b: int, n: int)
    requires n > 0
    ensures (a % n + b) % n == (a + b) % n
  {
    AddMultiple(a % n + b, a / n, n);
    assert a % n + b + a / n * n == a + b;
  }

  lemma ReduceRight(a: int, b: int, n: int)
    requires n > 0
    ensures (a + b % n) % n == (a + b) % n
  {
    ReduceLeft(b, a, n);
  }

  // Equal residues differ by a multiple of n.
  lemma EqualResidues(a: int, b: int, n: int) returns (k: int)
    requires n > 0
    requires a % n == b % n
    ensures a == b + k * n
  {
    k := a / n - b / n;
    assert a == a / n * n + a % n;
    assert b == b / n * n + b % n;
  }

  // A nonzero difference smaller than n separates residues.
  lemma DistinctResidues(a: int, b: int, n: int)
    requires n > 0
    requires a < b < a + n
    ensures a % n != b % n
  {
    if a % n == b % n {
      var k := EqualResidues(b, a, n);
      MultipleBounds(k, n);
    }
  }

  lemma PositiveProduct(a: nat, b: nat)
    requires 0 < a && 0 < b
    ensures 0 < a * b
  {
  }

  lemma Associate(a: int, b: int, c: int)
    ensures a * b * c == a * (b * c)
  {
  }

  // A two-digit number is below the product of its radices.
  lemma MixedBound(high: nat, highRadix: nat, low: nat, lowRadix: nat)
    requires high < highRadix && low < lowRadix
    ensures high * lowRadix + low < highRadix * lowRadix
  {
    assert (high + 1) * lowRadix <= highRadix * lowRadix;
  }

  lemma QuotientBound(x: nat, n: nat, q: nat)
    requires 0 < n && x < n * q
    ensures x / n < q
  {
    MultipleBounds(x / n - q + 1, n);
    assert (x / n - q + 1) * n == x / n * n - n * q + n;
  }
}
