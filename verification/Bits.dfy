/** Powers of two, bitwise operations on naturals, and the division facts they need. */
module Bits {

  function Pow2(n: nat): (r: nat)
    ensures r > 0
  {
    if n == 0 then 1 else 2 * Pow2(n - 1)
  }

  function And(x: nat, y: nat): nat {
    if x == 0 || y == 0 then 0 else (x % 2) * (y % 2) + 2 * And(x / 2, y / 2)
  }

  function Or(x: nat, y: nat): nat {
    if x == 0 then y else if y == 0 then x
    else (if x % 2 == 1 || y % 2 == 1 then 1 else 0) + 2 * Or(x / 2, y / 2)
  }

  function Floor(x: nat, d: nat): (r: nat)
    requires d > 0
    ensures r == x / d && r * d <= x < (r + 1) * d
  {
    assert x == (x / d) * d + x % d;
    x / d
  }

  /** Shifting right drops the low bits. */
  function Shr(x: nat, n: nat): (r: nat)
    ensures r * Pow2(n) <= x < (r + 1) * Pow2(n)
  {
    Floor(x, Pow2(n))
  }

  lemma DivModUnique(x: int, d: int, q: int, r: int)
    requires 0 <= r < d && x == q * d + r
    ensures x / d == q && x % d == r
  {
    var e := q - x / d;
    assert x == (x / d) * d + x % d;
    assert e * d == x % d - r by { assert e * d == q * d - (x / d) * d; }
  }

  lemma ModDouble(x: nat, m: nat)
    requires m > 0
    ensures x % (2 * m) == x % 2 + 2 * ((x / 2) % m)
  {
    var q, r := (x / 2) / m, (x / 2) % m;
    assert x == 2 * (q * m + r) + x % 2;
    assert x == q * (2 * m) + (2 * r + x % 2);
    DivModUnique(x, 2 * m, q, 2 * r + x % 2);
  }

  lemma AndOdd(x: nat, h: nat)
    ensures And(x, 2 * h + 1) == x % 2 + 2 * And(x / 2, h)
  {
    DivModUnique(2 * h + 1, 2, h, 1);
  }

  lemma MaskStep(x: nat, h: nat)
    requires And(x / 2, h) == (x / 2) % (h + 1)
    ensures And(x, 2 * h + 1) == x % (2 * (h + 1))
  {
    calc {
      And(x, 2 * h + 1);
      { AndOdd(x, h); }
      x % 2 + 2 * ((x / 2) % (h + 1));
      { ModDouble(x, h + 1); }
      x % (2 * (h + 1));
    }
  }

  /** Masking with 2^k - 1 is the remainder modulo 2^k. */
  lemma {:induction false} AndMask(x: nat, k: nat)
    ensures And(x, Pow2(k) - 1) == x % Pow2(k)
  {
    if k > 0 {
      var h := Pow2(k - 1) - 1;
      AndMask(x / 2, k - 1);
      calc {
        And(x, Pow2(k) - 1);
        And(x, 2 * h + 1);
        { MaskStep(x, h); }
        x % (2 * (h + 1));
        x % Pow2(k);
      }
    }
  }

  /** Setting bit k above k ones. */
  lemma {:induction false} OrNextBit(k: nat)
    ensures Or(Pow2(k) - 1, Pow2(k)) == Pow2(k + 1) - 1
  {
    if k > 0 {
      var m := Pow2(k - 1);
      OrNextBit(k - 1);
      DivModUnique(Pow2(k) - 1, 2, m - 1, 1);
      DivModUnique(Pow2(k), 2, m, 0);
    }
  }

  /** The halving loop: floor of the base-two logarithm. */
  method FloorLog2(x: nat) returns (sft: nat)
    requires x >= 1
    ensures Pow2(sft) <= x < Pow2(sft + 1)
  {
    sft := 0;
    var tmp := x;
    while tmp > 1
      invariant tmp >= 1
      invariant tmp * Pow2(sft) <= x < (tmp + 1) * Pow2(sft)
    {
      Halve(x, tmp, Pow2(sft));
      tmp := tmp / 2;
      sft := sft + 1;
    }
  }

  lemma Halve(x: nat, tmp: nat, p: nat)
    requires tmp * p <= x < (tmp + 1) * p
    ensures (tmp / 2) * (2 * p) <= x < (tmp / 2 + 1) * (2 * p)
  {
    var h := tmp / 2;
    assert 2 * h <= tmp <= 2 * h + 1;
    assert h * (2 * p) == (2 * h) * p <= tmp * p by { Scale(2 * h, tmp, p); }
    assert (h + 1) * (2 * p) == (2 * h + 2) * p >= (tmp + 1) * p by { Scale(tmp + 1, 2 * h + 2, p); }
  }

  lemma Scale(a: int, b: int, p: nat)
    requires a <= b
    ensures a * p <= b * p
  {
  }

  /** The loop that ORs in one bit after another. */
  method LowMask(k: nat) returns (mask: nat)
    ensures mask == Pow2(k) - 1
  {
    mask := 0;
    for tmp := 0 to k
      invariant mask == Pow2(tmp) - 1
    {
      OrNextBit(tmp);
      mask := Or(mask, Pow2(tmp));
    }
  }
}
