/** IEEE 754 double arithmetic on the non-negative numbers the program multiplies.

    Every number here is an integer multiple of 2^-54, so a double is modelled by the integer
    it is a multiple of and rounding to 53 significant bits is done on that integer: scaling
    by a power of two commutes with it, and all values are far from overflow and underflow. */
module Doubles {

  const TWO52: nat := 0x10_0000_0000_0000
  const TWO53: nat := 0x20_0000_0000_0000
  const TWO54: nat := 0x40_0000_0000_0000

  function Abs(x: int): nat {
    if x < 0 then -x else x
  }

  /** The distance between neighbouring doubles around `n`. */
  function Ulp(n: nat): (u: nat)
    ensures u >= 1
    ensures n >= TWO52 ==> u * TWO52 <= n
    ensures n < u * TWO53
    ensures n < TWO53 ==> u == 1
  {
    if n < TWO53 then 1 else 2 * Ulp(n / 2)
  }

  /** The multiple of `u` nearest to `n`, the even one of two equally near. */
  function RoundEven(n: nat, u: nat): nat
    requires u >= 1
  {
    var q, rest := n / u, n % u;
    if 2 * rest < u || (2 * rest == u && q % 2 == 0) then q * u else (q + 1) * u
  }

  /** Round to nearest, ties to even, to 53 significant bits (IEEE 754-2019, section 4.3.1). */
  function Round53(n: nat): nat {
    RoundEven(n, Ulp(n))
  }

  /** `n` needs at most 53 significant bits. */
  predicate IsDouble(n: nat) {
    n % Ulp(n) == 0
  }

  lemma MulLe(a: int, b: int, u: nat)
    requires a <= b
    ensures a * u <= b * u
  {
  }

  lemma MulLt(a: int, b: int, u: nat)
    requires a < b
    ensures a * u + u <= b * u
  {
    MulLe(a + 1, b, u);
  }

  lemma DivMod(n: nat, u: nat)
    requires u >= 1
    ensures n == (n / u) * u + n % u
  {
  }

  lemma MultipleMod(q: nat, u: nat)
    requires u >= 1
    ensures (q * u) % u == 0
  {
    DivMod(q * u, u);
    var k := (q * u) / u;
    var rest := (q * u) % u;
    assert rest == (q - k) * u by { assert (q - k) * u == q * u - k * u; }
    if q - k >= 1 { MulLe(1, q - k, u); }
    if q - k <= -1 { MulLe(q - k, -1, u); }
  }

  /** No multiple of `u` is nearer to `n` than `RoundEven(n, u)`, and it is within half of `u`. */
  lemma RoundEvenNearest(n: nat, u: nat, k: nat)
    requires u >= 1
    ensures Abs(n - RoundEven(n, u)) <= Abs(n - k * u)
    ensures 2 * Abs(n - RoundEven(n, u)) <= u
  {
    DivMod(n, u);
    var q := n / u;
    assert (q + 1) * u == q * u + u;
    if k <= q {
      MulLe(k, q, u);
    } else {
      MulLe(q + 1, k, u);
    }
  }

  lemma MulTwice(a: int, b: int)
    ensures 2 * (a * b) == a * (2 * b)
  {
  }

  /** The spacing only grows by whole factors. */
  lemma {:induction false} UlpDivides(m: nat, n: nat) returns (c: nat)
    requires m <= n
    ensures c >= 1 && Ulp(n) == c * Ulp(m)
    decreases n
  {
    if m < TWO53 {
      c := Ulp(n);
    } else {
      c := UlpDivides(m / 2, n / 2);
      MulTwice(c, Ulp(m / 2));
    }
  }

  /** The spacing is constant between two consecutive powers of two. */
  lemma UlpInBinade(n: nat, m: nat)
    requires n >= TWO52
    requires Ulp(n) * TWO52 <= m < Ulp(n) * TWO53
    ensures Ulp(m) == Ulp(n)
  {
    var u, v := Ulp(n), Ulp(m);
    assert m >= TWO52;
    if m <= n {
      var c := UlpDivides(m, n);
      if c >= 2 { MulLe(2, c, v); }
    } else {
      var c := UlpDivides(n, m);
      if c >= 2 { MulLe(2, c, u); }
    }
  }

  /** A double at or above the binade of `n` is a multiple of the spacing around `n`;
      a smaller one lies at or below the bottom of that binade. */
  lemma DoubleAgainstSpacing(n: nat, k: nat) returns (j: nat)
    requires IsDouble(k)
    ensures k == j * Ulp(n) || (k <= TWO52 * Ulp(n) <= n)
  {
    var u, v := Ulp(n), Ulp(k);
    DivMod(k, v);
    if n <= k {
      var c := UlpDivides(n, k);
      j := k / v * c;
      MulAssociates(k / v, c, u);
    } else {
      j := k / v;
      var c := UlpDivides(k, n);
      if c >= 2 { MulLe(2, c, v); }
    }
  }

  lemma MulAssociates(a: int, b: int, c: int)
    ensures a * (b * c) == a * b * c
  {
  }

  /** Rounding gives a double. */
  lemma RoundIsDouble(n: nat)
    ensures IsDouble(Round53(n))
  {
    if n >= TWO53 {
      var u, q := Ulp(n), n / Ulp(n);
      DivMod(n, u);
      if q < TWO52 { MulLt(q, TWO52, u); assert false; }
      if TWO53 <= q { MulLe(TWO53, q, u); assert false; }
      var k := if Round53(n) == q * u then q else q + 1;
      MultipleIsDouble(n, k);
    }
  }

  lemma MultipleIsDouble(n: nat, k: nat)
    requires n >= TWO53 && TWO52 <= k <= TWO53
    ensures IsDouble(k * Ulp(n))
  {
    var u := Ulp(n);
    if k < TWO53 {
      MultipleInBinade(n, k, u);
    } else {
      TopOfBinade(n, u);
    }
  }

  lemma MultipleInBinade(n: nat, k: nat, u: nat)
    requires n >= TWO53 && TWO52 <= k < TWO53 && u == Ulp(n)
    ensures IsDouble(k * u)
  {
    hide Ulp;
    MulLe(TWO52, k, u);
    MulLt(k, TWO53, u);
    UlpInBinade(n, k * u);
    MultipleMod(k, u);
  }

  lemma TopOfBinade(n: nat, u: nat)
    requires n >= TWO53 && u == Ulp(n)
    ensures IsDouble(TWO53 * u)
  {
    hide Ulp;
    UlpInBinade(n, TWO52 * u);
    UlpOfTwice(TWO52 * u);
    MultipleMod(TWO52, 2 * u);
  }

  lemma UlpOfTwice(m: nat)
    requires m >= TWO52
    ensures Ulp(2 * m) == 2 * Ulp(m)
  {
    assert 2 * m / 2 == m;
  }

  /** No double is nearer to `n` than the one rounding picks. */
  lemma RoundNearest(n: nat, k: nat)
    requires IsDouble(k)
    ensures Abs(n - Round53(n)) <= Abs(n - k)
  {
    var j := DoubleAgainstSpacing(n, k);
    RoundEvenNearest(n, Ulp(n), if k == j * Ulp(n) then j else TWO52);
  }

  /** Of two doubles equally near, rounding picks the one whose last bit is even. */
  lemma RoundTiesToEven(n: nat, k: nat)
    ensures IsDouble(k) && k != Round53(n) && Abs(n - Round53(n)) == Abs(n - k) ==>
      exists q: nat :: Round53(n) == q * Ulp(n) && q % 2 == 0
  {
    if IsDouble(k) {
      var u := Ulp(n);
      var j := DoubleAgainstSpacing(n, k);
      RoundEvenNearest(n, u, TWO52);
      var i := if k == j * u then j else TWO52;
      TieOfMultiples(n, u, i);
    }
  }

  /** Two multiples of `u` equally near to `n` lie half of `u` to either side of it. */
  lemma TieOfMultiples(n: nat, u: nat, i: nat)
    requires u >= 1
    ensures i * u != RoundEven(n, u) && Abs(n - RoundEven(n, u)) == Abs(n - i * u) ==>
      exists q: nat :: RoundEven(n, u) == q * u && q % 2 == 0
  {
    var q := n / u;
    DivMod(n, u);
    assert (q + 1) * u == q * u + u;
    if i < q {
      MulLt(i, q, u);
    } else if i > q + 1 {
      MulLt(q + 1, i, u);
    }
    if i * u != RoundEven(n, u) && Abs(n - RoundEven(n, u)) == Abs(n - i * u) {
      var even := if q % 2 == 0 then q else q + 1;
      assert RoundEven(n, u) == even * u;
    }
  }

  /** Rounding keeps order. */
  lemma RoundMonotone(m: nat, n: nat)
    requires m <= n
    ensures Round53(m) <= Round53(n)
  {
    RoundIsDouble(m);
    RoundIsDouble(n);
    RoundNearest(m, Round53(n));
    RoundNearest(n, Round53(m));
  }

  /** The relative error of rounding is at most 2^-53. */
  lemma RoundError(n: nat)
    ensures Abs(n - Round53(n)) * TWO53 <= n
  {
    var u := Ulp(n);
    RoundEvenNearest(n, u, 0);
    if n < TWO53 {
      assert n % 1 == 0;
    }
  }

  /** Integers of at most 53 bits are exact. */
  lemma RoundExact(n: nat)
    requires n <= TWO53
    ensures Round53(n) == n
  {
    if n == TWO53 {
      assert Ulp(n / 2) == 1;
      assert Ulp(n) == 2;
    }
  }

  /** Rounding as the standard defines it: a double to which none is nearer, the even one of two equally near. */
  ghost predicate IsNearestDouble(n: nat, r: nat) {
    && IsDouble(r)
    && (forall k: nat | IsDouble(k) :: Abs(n - r) <= Abs(n - k))
    && (forall k: nat | IsDouble(k) && k != r && Abs(n - r) == Abs(n - k) :: EvenMultiple(r, Ulp(n)))
  }

  ghost predicate EvenMultiple(r: nat, u: nat) {
    exists q: nat :: r == q * u && q % 2 == 0
  }

  /** `Round53` is that rounding, and there is no other. */
  lemma RoundIsTheNearest(n: nat, r: nat)
    ensures IsNearestDouble(n, r) <==> r == Round53(n)
  {
    var x := Round53(n);
    RoundIsDouble(n);
    hide Round53, IsDouble;
    forall k: nat | IsDouble(k)
      ensures Abs(n - x) <= Abs(n - k)
      ensures k != x && Abs(n - x) == Abs(n - k) ==> EvenMultiple(x, Ulp(n))
    {
      RoundNearest(n, k);
      RoundTiesToEven(n, k);
    }
    if IsNearestDouble(n, r) && r != x {
      assert EvenMultiple(r, Ulp(n)) && EvenMultiple(x, Ulp(n));
      EvenTie(n, r, x);
    }
  }

  lemma EvenTie(n: nat, r: nat, x: nat)
    requires x == Round53(n) && Abs(n - r) == Abs(n - x)
    requires EvenMultiple(r, Ulp(n)) && EvenMultiple(x, Ulp(n))
    ensures r == x
  {
    var u := Ulp(n);
    RoundEvenNearest(n, u, 0);
    assert 2 * Abs(n - x) <= u;
    hide Round53, Ulp, RoundEven;
    var i: nat :| r == i * u && i % 2 == 0;
    var j: nat :| x == j * u && j % 2 == 0;
    EvenMultiplesApart(i, j, u);
    EvenMultiplesApart(j, i, u);
  }

  lemma EvenMultiplesApart(i: nat, j: nat, u: nat)
    requires i % 2 == 0 && j % 2 == 0
    ensures i < j ==> i * u + u + u <= j * u
  {
    if i < j {
      MulLe(i + 2, j, u);
      MulTwo(i, u);
    }
  }

  lemma MulTwo(a: int, u: nat)
    ensures (a + 2) * u == a * u + u + u
  {
  }

  /** A product of an integer and a double, as the program computes `time.Duration(float64(d) * m)` for
      d >= 0: the integer becomes a double, the product is rounded to a double, the fraction is dropped.
      `m` is given as a multiple of 2^-54. */
  function TruncatedProduct(d: nat, m: nat): nat {
    Round53(Round53(d) * m) / TWO54
  }

  function Pow(base: nat, e: nat): nat {
    if e == 0 then 1 else base * Pow(base, e - 1)
  }

  lemma {:induction false} PowSum(base: nat, a: nat, b: nat)
    ensures Pow(base, a + b) == Pow(base, a) * Pow(base, b)
  {
    if a > 0 {
      PowSum(base, a - 1, b);
      MulAssociates(base, Pow(base, a - 1), Pow(base, b));
    }
  }

  lemma {:induction false} PowMonotone(base: nat, a: nat, b: nat)
    requires base >= 1 && a <= b
    ensures 1 <= Pow(base, a) <= Pow(base, b)
  {
    if b > a {
      PowMonotone(base, a, b - 1);
      MulLe(1, base, Pow(base, b - 1));
    } else if a > 0 {
      PowMonotone(base, a - 1, a - 1);
      MulLe(1, base, Pow(base, a - 1));
    }
  }

  lemma PowersOfTwo()
    ensures Pow(2, 36) == 0x10_0000_0000 && Pow(2, 37) == 0x20_0000_0000
    ensures Pow(2, 41) == 0x200_0000_0000 && Pow(2, 54) == TWO54
    ensures Pow(2, 62) == 0x4000_0000_0000_0000 && Pow(2, 63) == 0x8000_0000_0000_0000
  {
    assert Pow(2, 4) == 16;
    PowSum(2, 4, 4);
    PowSum(2, 8, 8);
    PowSum(2, 16, 16);
    PowSum(2, 4, 32);
    PowSum(2, 4, 37);
    PowSum(2, 4, 8);
    PowSum(2, 12, 16);
    PowSum(2, 28, 32);
    PowSum(2, 4, 12);
    PowSum(2, 8, 4);
    PowSum(2, 16, 32);
    PowSum(2, 6, 48);
    PowSum(2, 2, 4);
    assert Pow(2, 3) == 8;
    PowSum(2, 2, 60);
    PowSum(2, 3, 60);
    assert Pow(2, 2) == 4;
    assert Pow(2, 37) == 2 * Pow(2, 36);
  }

  lemma {:induction false} ScaledIsDouble(n: nat, e: nat, u: nat)
    requires n <= TWO53 && u == Pow(2, e)
    ensures IsDouble(n * u)
  {
    if e == 0 {
      if n == TWO53 {
        assert Ulp(n / 2) == 1;
      }
    } else {
      ScaledIsDouble(n, e - 1, u / 2);
      MulTwice(n, u / 2);
      DoubledIsDouble(n * (u / 2));
    }
  }

  lemma DoubledIsDouble(m: nat)
    requires IsDouble(m)
    ensures IsDouble(2 * m)
  {
    if 2 * m >= TWO53 {
      assert 2 * m / 2 == m;
      DivMod(m, Ulp(m));
      MulTwice(m / Ulp(m), Ulp(m));
      MultipleMod(m / Ulp(m), 2 * Ulp(m));
    } else {
      assert Ulp(2 * m) == 1;
    }
  }

  lemma {:induction false} UlpIsPower(n: nat) returns (e: nat)
    ensures Ulp(n) == Pow(2, e)
  {
    if n < TWO53 {
      e := 0;
    } else {
      e := UlpIsPower(n / 2);
      e := e + 1;
    }
  }

  /** A number of at most 53 bits, times a power of two. */
  predicate IsScaled(n: nat, k: nat, e: nat) {
    k <= 0x20_0000_0000_0000 && n == k * Pow(2, e)
  }

  /** `IsDouble` says what it should: at most 53 bits times a power of two. */
  lemma IsDoubleMeaning(n: nat)
    ensures IsDouble(n) <==> exists k: nat, e: nat :: IsScaled(n, k, e)
  {
    if IsDouble(n) {
      var e := UlpIsPower(n);
      var k := n / Ulp(n);
      DivMod(n, Ulp(n));
      if k > TWO53 { MulLe(TWO53, k, Ulp(n)); }
      assert IsScaled(n, k, e);
    }
    if k: nat, e: nat :| IsScaled(n, k, e) {
      ScaledIsDouble(k, e, Pow(2, e));
    }
  }
}
