// Bit fields of a control word: placing one above another, reading them back, and the numbers behind the names.

module BitFields {
  import opened Tile

  // A field of n bits below everything in `tail`; bits of the value beyond n are dropped.
  function Put(value: nat, n: nat, tail: nat): nat {
    value % PowerOfTwo(n) + PowerOfTwo(n) * tail
  }

  function Low(word: nat, n: nat): nat {
    word % PowerOfTwo(n)
  }

  function High(word: nat, n: nat): nat {
    NotNegative(word, PowerOfTwo(n));
    word / PowerOfTwo(n)
  }

  lemma NotNegative(x: nat, d: nat)
    requires d > 0
    ensures x / d >= 0
  {
  }

  lemma Quotient(x: nat, d: nat)
    requires d > 0
    ensures x == d * (x / d) + x % d && x % d < d
  {
  }

  lemma Multiples(a: nat, b: nat, d: nat)
    requires a <= b
    ensures d * a <= d * b
  {
  }

  lemma Divides(r: nat, q: nat, d: nat)
    requires r < d
    ensures (r + d * q) % d == r && (r + d * q) / d == q
  {
    var x := r + d * q;
    Quotient(x, d);
    if x / d < q {
      Multiples(x / d + 1, q, d);
    } else if x / d > q {
      Multiples(q + 1, x / d, d);
    }
  }

  lemma Residue(x: nat, d: nat)
    requires d > 0
    ensures x % d < d && x % d <= x && (x % d == x <==> x < d) && x % d % d == x % d
  {
    if x < d {
      Divides(x, 0, d);
    }
    Divides(x % d, 0, d);
    Quotient(x, d);
  }

  lemma PutLow(value: nat, n: nat, tail: nat)
    ensures Low(Put(value, n, tail), n) == Low(value, n) && High(Put(value, n, tail), n) == tail
  {
    hide PowerOfTwo;
    Quotient(value, PowerOfTwo(n));
    Divides(Low(value, n), tail, PowerOfTwo(n));
  }

  lemma LowHigh(word: nat, n: nat)
    ensures Put(Low(word, n), n, High(word, n)) == word
    ensures Low(word, n) < PowerOfTwo(n)
  {
    hide PowerOfTwo;
    Quotient(word, PowerOfTwo(n));
    Residue(word, PowerOfTwo(n));
  }

  // A value that fits is not changed by placing it.
  lemma Fitting(value: nat, n: nat)
    ensures Low(value, n) == value <==> value < PowerOfTwo(n)
  {
    hide PowerOfTwo;
    Residue(value, PowerOfTwo(n));
  }

  lemma {:induction false} PowerSum(a: nat, b: nat)
    ensures PowerOfTwo(a + b) == PowerOfTwo(a) * PowerOfTwo(b)
  {
    if a > 0 {
      PowerSum(a - 1, b);
      assert a + b - 1 == a - 1 + b;
      Associates(2, PowerOfTwo(a - 1), PowerOfTwo(b));
    }
  }

  lemma Associates(a: int, b: int, c: int)
    ensures a * (b * c) == a * b * c
  {
  }

  // ----- Fields at a position -----

  function Extract(word: nat, lsb: nat, width: nat): nat {
    word / PowerOfTwo(lsb) % PowerOfTwo(width)
  }

  function Insert(word: nat, value: nat, lsb: nat, width: nat): nat {
    ReplacedBelow(word, lsb, width);
    word - Extract(word, lsb, width) * PowerOfTwo(lsb) + value % PowerOfTwo(width) * PowerOfTwo(lsb)
  }

  lemma ReplacedBelow(word: nat, lsb: nat, width: nat)
    ensures Extract(word, lsb, width) * PowerOfTwo(lsb) <= word
  {
    hide PowerOfTwo;
    Residue(word / PowerOfTwo(lsb), PowerOfTwo(width));
    Multiples(Extract(word, lsb, width), word / PowerOfTwo(lsb), PowerOfTwo(lsb));
    Quotient(word, PowerOfTwo(lsb));
  }

  lemma DivideTwice(x: nat, a: nat, b: nat)
    requires a > 0 && b > 0
    ensures a * b > 0 && x / (a * b) == x / a / b
  {
    var q, r, s := x / a / b, x / a % b, x % a;
    Quotient(x, a);
    Quotient(x / a, b);
    Distributes(a, b, q, r);
    BelowProduct(a, b, r, s);
    Divides(a * r + s, q, a * b);
  }

  // Reading a field at a position is reading the lowest field of what lies above it.
  lemma ExtractHigh(word: nat, lsb: nat, width: nat)
    ensures Extract(word, lsb, width) == Low(High(word, lsb), width)
    ensures High(word, lsb + width) == High(High(word, lsb), width)
  {
    hide PowerOfTwo;
    PowerSum(lsb, width);
    DivideTwice(word, PowerOfTwo(lsb), PowerOfTwo(width));
  }

  lemma Distributes(a: nat, b: nat, q: nat, r: nat)
    ensures a * (b * q + r) == a * b * q + a * r
  {
  }

  lemma BelowProduct(a: nat, b: nat, r: nat, s: nat)
    requires r < b && s < a
    ensures 0 <= a * r + s < a * b
  {
    Multiples(r + 1, b, a);
    Unfold(a, r);
  }

  lemma Unfold(a: nat, r: nat)
    ensures a * (r + 1) == a * r + a
  {
  }

  // Placing a field above what is there already, with `tail` still to come above it.
  lemma InsertStep(word: nat, value: nat, lsb: nat, width: nat, tail: nat)
    requires word < PowerOfTwo(lsb)
    ensures Insert(word, value, lsb, width) < PowerOfTwo(lsb + width)
    ensures Insert(word, value, lsb, width) + PowerOfTwo(lsb + width) * tail ==
            word + PowerOfTwo(lsb) * Put(value, width, tail)
  {
    hide PowerOfTwo;
    var a, b, v := PowerOfTwo(lsb), PowerOfTwo(width), value % PowerOfTwo(width);
    PowerSum(lsb, width);
    Residue(value, b);
    Divides(word, 0, a);
    Divides(0, 0, b);
    BelowProduct(a, b, v, word);
    Distributes(a, b, tail, v);
    Commutes(v, a);
    Commutes(0, a);
  }

  lemma Commutes(a: int, b: int)
    ensures a * b == b * a
  {
  }
}
