/**
 * Bit-level facts shared by the image packers and the shift-register
 * code: Python's unbounded two's-complement integers, read one bit at a
 * time, and rows of 0/1 digits read most significant first.
 */
module Bits {
  function Pow2(n: nat): (p: nat)
    ensures p >= 1
  {
    if n == 0 then 1 else 2 * Pow2(n - 1)
  }

  /**
   * Bit k of v, as Python's `(v >> k) & 1 == 1`: `>>` floors, so a
   * negative v reads as its infinite two's-complement expansion.
   */
  predicate Bit(v: int, k: nat)
    decreases k
  {
    if k == 0 then v % 2 == 1 else Bit(v / 2, k - 1)
  }

  predicate IsBinary(bits: seq<int>)
  {
    forall i :: 0 <= i < |bits| ==> bits[i] == 0 || bits[i] == 1
  }

  /** The value of the digits `bits`, most significant first. */
  function MsbValue(bits: seq<int>): int
  {
    if |bits| == 0 then 0 else 2 * MsbValue(bits[..|bits| - 1]) + bits[|bits| - 1]
  }

  /** The low n bits of v as 0/1 digits, most significant first. */
  function BitsOf(v: int, n: nat): (bits: seq<int>)
    ensures |bits| == n && IsBinary(bits)
  {
    seq(n, i requires 0 <= i < n => if Bit(v, n - 1 - i) then 1 else 0)
  }

  /** n binary digits make a value in [0, 2^n). */
  lemma {:induction false} MsbValueRange(bits: seq<int>)
    requires IsBinary(bits)
    ensures 0 <= MsbValue(bits) < Pow2(|bits|)
  {
    if |bits| > 0 {
      MsbValueRange(bits[..|bits| - 1]);
    }
  }

  /** Digit i of a row is bit |row| - 1 - i of its value: the first digit is the most significant. */
  lemma {:induction false} MsbValueBits(bits: seq<int>, i: nat)
    requires IsBinary(bits) && i < |bits|
    ensures Bit(MsbValue(bits), |bits| - 1 - i) <==> bits[i] == 1
  {
    var init := bits[..|bits| - 1];
    var v := MsbValue(bits);
    MsbValueRange(init);
    assert v / 2 == MsbValue(init) && v % 2 == bits[|bits| - 1];
    if i < |bits| - 1 {
      MsbValueBits(init, i);
    }
  }

  lemma MulAtLeast(m: int, k: int)
    requires m > 0 && k >= 1
    ensures m * k >= m
  {
  }

  /** Euclidean division is unique. */
  lemma ModOfSplit(x: int, m: int, a: int, b: int)
    requires m > 0 && x == m * a + b && 0 <= b < m
    ensures x % m == b && x / m == a
  {
    var q := x / m;
    var r := x % m;
    assert m * (q - a) == b - r;
    if q > a {
      MulAtLeast(m, q - a);
    } else if q < a {
      MulAtLeast(m, a - q);
    }
  }

  /** Reading back the low n bits of v gives v modulo 2^n. */
  lemma {:induction false} BitsOfValue(v: int, n: nat)
    ensures MsbValue(BitsOf(v, n)) == v % Pow2(n)
    decreases n
  {
    if n > 0 {
      var bits := BitsOf(v, n);
      var q := v / 2;
      var r := v % 2;
      BitsOfValue(q, n - 1);
      forall i | 0 <= i < n - 1
        ensures bits[i] == BitsOf(q, n - 1)[i]
      {
        assert Bit(v, n - 1 - i) == Bit(q, n - 2 - i);
      }
      assert bits[..n - 1] == BitsOf(q, n - 1);
      assert Bit(v, 0) == (r == 1);
      assert bits[n - 1] == r;
      var p := Pow2(n - 1);
      ModOfSplit(q, p, q / p, q % p);
      assert v == 2 * p * (q / p) + (2 * (q % p) + r);
      ModOfSplit(v, 2 * p, q / p, 2 * (q % p) + r);
    }
  }

  /** Only bit k of 2^k is set. */
  lemma {:induction false} BitOfPow2(k: nat, j: nat)
    ensures Bit(Pow2(k), j) <==> j == k
  {
    if k > 0 && j > 0 {
      BitOfPow2(k - 1, j - 1);
    } else if k > 0 {
      assert Pow2(k) % 2 == 0;
    } else if j > 0 {
      BitOfZero(j - 1);
    }
  }

  lemma {:induction false} BitOfZero(j: nat)
    ensures !Bit(0, j)
  {
    if j > 0 {
      BitOfZero(j - 1);
    }
  }

  /** Python's `~v` is -v - 1, and it flips every bit. */
  lemma {:induction false} BitOfComplement(v: int, j: nat)
    ensures Bit(-v - 1, j) <==> !Bit(v, j)
    decreases j
  {
    if j > 0 {
      assert (-v - 1) / 2 == -(v / 2) - 1;
      BitOfComplement(v / 2, j - 1);
    }
  }

  /** Python's `|` on non-negative integers. */
  function Or(a: nat, b: nat): (r: nat)
    decreases a + b
  {
    if a == 0 then b
    else if b == 0 then a
    else 2 * Or(a / 2, b / 2) + (if a % 2 == 1 || b % 2 == 1 then 1 else 0)
  }

  /** A bit of `a | b` is set iff it is set in a or in b. */
  lemma {:induction false} OrBits(a: nat, b: nat, j: nat)
    ensures Bit(Or(a, b), j) <==> Bit(a, j) || Bit(b, j)
    decreases j
  {
    if a == 0 {
      BitOfZero(j);
    } else if b == 0 {
      BitOfZero(j);
    } else if j > 0 {
      OrBits(a / 2, b / 2, j - 1);
    }
  }

  /** Or-ing in a bit above nothing set is addition. */
  lemma {:induction false} OrLowBit(a: nat, k: nat)
    requires a % Pow2(k + 1) == 0
    ensures Or(a, Pow2(k)) == a + Pow2(k)
  {
    var p := Pow2(k);
    var c := a / (2 * p);
    assert a == 2 * p * c + a % (2 * p);
    assert a == 2 * (p * c);
    ModOfSplit(a, 2, p * c, 0);
    if a > 0 {
      if k == 0 {
        assert Or(a, 1) == 2 * Or(a / 2, 0) + 1;
      } else {
        var h := Pow2(k - 1);
        assert p == 2 * h;
        assert a / 2 == 2 * h * c;
        ModOfSplit(a / 2, 2 * h, c, 0);
        OrLowBit(a / 2, k - 1);
        assert Or(a, p) == 2 * Or(a / 2, h);
      }
    }
  }

  /** Two non-negative integers with the same bits are equal. */
  lemma {:induction false} BitsDetermine(a: nat, b: nat)
    requires forall j: nat :: Bit(a, j) == Bit(b, j)
    ensures a == b
    decreases a + b
  {
    assert Bit(a, 0) == Bit(b, 0);
    if a / 2 + b / 2 < a + b {
      forall j: nat
        ensures Bit(a / 2, j) == Bit(b / 2, j)
      {
        assert Bit(a, j + 1) == Bit(b, j + 1);
      }
      BitsDetermine(a / 2, b / 2);
    }
  }

  /** A non-negative value below 2^k has no bit at k or above. */
  lemma {:induction false} SmallHasNoHighBits(v: int, k: nat, j: nat)
    requires 0 <= v < Pow2(k) && j >= k
    ensures !Bit(v, j)
    decreases k
  {
    if k == 0 {
      BitOfZero(j);
    } else if j > 0 {
      SmallHasNoHighBits(v / 2, k - 1, j - 1);
    }
  }

  /** A non-negative value with no bit at k or above is below 2^k. */
  lemma {:induction false} NoHighBitsIsSmall(v: nat, k: nat)
    requires forall j: nat :: j >= k ==> !Bit(v, j)
    ensures v < Pow2(k)
    decreases k
  {
    if k == 0 {
      forall j: nat
        ensures Bit(v, j) == Bit(0, j)
      {
        BitOfZero(j);
      }
      BitsDetermine(v, 0);
    } else {
      forall j: nat | j >= k - 1
        ensures !Bit(v / 2, j)
      {
        assert !Bit(v, j + 1);
      }
      NoHighBitsIsSmall(v / 2, k - 1);
    }
  }
}
