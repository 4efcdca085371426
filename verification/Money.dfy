/** Money through binary64 arithmetic: proration of a plan change, and product prices stored in cents.

  `Nearest(v, y)` says that y is a correctly rounded binary64 result for the exact value v: a multiple of
  the spacing of the binade of v, at most half a spacing away, with ties broken either way. `Rounded(v, y)`
  breaks them as the hardware does, to an even multiple. Overflow and subnormals do not arise for these
  values. */
module Money {
  import opened Options

  function Pow2(e: int): (p: real)
    ensures p > 0.0
    decreases if e < 0 then -e else e
  {
    if e == 0 then 1.0 else if e > 0 then 2.0 * Pow2(e - 1) else Pow2(e + 1) / 2.0
  }

  function AbsReal(x: real): real { if x < 0.0 then -x else x }
  function AbsInt(x: int): nat { if x < 0 then -x else x }

  // y = m·p is a multiple of p nearest to v, where 2^52·p <= |v| <= 2^53·p.
  predicate NearestMultipleOf(v: real, y: real, m: int, p: real) {
    && y == m as real * p
    && 4503599627370496.0 * p <= AbsReal(v) <= 9007199254740992.0 * p
    && AbsReal(v - y) <= p / 2.0
  }

  predicate NearestAt(v: real, y: real, m: int, e: int) { NearestMultipleOf(v, y, m, Pow2(e)) }

  ghost predicate Nearest(v: real, y: real) {
    if v == 0.0 then y == 0.0 else exists m, e :: NearestAt(v, y, m, e)
  }

  predicate RoundedAt(v: real, y: real, m: int, e: int) {
    NearestAt(v, y, m, e) && (AbsReal(v - y) == Pow2(e) / 2.0 ==> m % 2 == 0)
  }

  ghost predicate Rounded(v: real, y: real) {
    if v == 0.0 then y == 0.0 else exists m, e :: RoundedAt(v, y, m, e)
  }

  // Python's int(): truncation toward zero.
  function Trunc(x: real): int { if x >= 0.0 then x.Floor else -((-x).Floor) }

  // Python's round(): to a nearest whole number, to an even one on a tie.
  function RoundHalfEven(x: real): int {
    var f := x.Floor;
    var d := x - f as real;
    if d < 0.5 then f else if d > 0.5 then f + 1 else if f % 2 == 0 then f else f + 1
  }

  // Exact division by 30, truncated toward zero.
  function Div30(x: int): int { if x >= 0 then x / 30 else -((-x) / 30) }

  // ---------------------------------------------------------------------------------------------
  // Rounding

  lemma {:induction false} Pow2Monotone(d: int, e: int)
    requires d <= e
    ensures Pow2(d) <= Pow2(e)
    decreases e - d
  {
    if d < e {
      Pow2Monotone(d, e - 1);
      Pow2Double(e - 1);
    }
  }

  lemma Pow2Double(e: int)
    ensures Pow2(e + 1) == 2.0 * Pow2(e)
  {
  }

  // For e <= 0 one is a whole number of spacings.
  lemma {:induction false} OneIsMultiple(e: int) returns (k: int)
    requires e <= 0
    ensures k as real * Pow2(e) == 1.0 && k >= 1
    decreases -e
  {
    if e == 0 {
      k := 1;
    } else {
      var j := OneIsMultiple(e + 1);
      k := 2 * j;
      Pow2Double(e);
      assert k as real * Pow2(e) == j as real * (2.0 * Pow2(e));
    }
  }

  lemma ScaleUp(a: real, b: real, p: real)
    requires a <= b && 0.0 <= p
    ensures a * p <= b * p
  {
    assert (b - a) * p >= 0.0;
  }

  lemma Scaled(a: real, b: real, p: real, x: real, y: real)
    requires a <= b && 0.0 <= p && x == a * p && y == b * p
    ensures x <= y
  {
    ScaleUp(a, b, p);
  }

  lemma NextMultiple(a: int, b: int, p: real, x: real, y: real)
    requires a < b && 0.0 <= p && x == a as real * p && y == b as real * p
    ensures x + p <= y
  {
    var a1 := (a + 1) as real;
    assert a1 * p == x + p by { assert a1 * p == (a as real + 1.0) * p; }
    Scaled(a1, b as real, p, a1 * p, y);
  }

  // Two multiples of the spacing at most half a spacing apart are equal.
  lemma MultiplesApart(a: int, b: int, p: real, x: real, y: real)
    requires p > 0.0 && x == a as real * p && y == b as real * p && AbsReal(x - y) <= p / 2.0
    ensures a == b
  {
    if a < b {
      NextMultiple(a, b, p, x, y);
    } else if b < a {
      NextMultiple(b, a, p, y, x);
    }
  }

  /** The error is at most one part in 2^53. */
  lemma RelativeError(v: real, y: real)
    requires Nearest(v, y)
    ensures AbsReal(v - y) * 9007199254740992.0 <= AbsReal(v)
  {
    if v != 0.0 {
      var m, e :| NearestAt(v, y, m, e);
    }
  }

  lemma NegatedProduct(m: int, p: real)
    ensures (-m) as real * p == -(m as real * p)
  {
    assert (-m) as real == -(m as real);
  }

  lemma NearestMultipleNegates(v: real, y: real, m: int, p: real)
    requires NearestMultipleOf(v, y, m, p)
    ensures NearestMultipleOf(-v, -y, -m, p)
  {
    NegatedProduct(m, p);
  }

  lemma NearestAtNegates(v: real, y: real, m: int, e: int)
    requires NearestAt(v, y, m, e)
    ensures NearestAt(-v, -y, -m, e)
  {
    NearestMultipleNegates(v, y, m, Pow2(e));
  }

  lemma NearestNegates(v: real, y: real)
    requires Nearest(v, y)
    ensures Nearest(-v, -y)
  {
    if v != 0.0 {
      var m, e :| NearestAt(v, y, m, e);
      NearestAtNegates(v, y, m, e);
    }
  }

  lemma RoundedIsNearest(v: real, y: real)
    requires Rounded(v, y)
    ensures Nearest(v, y)
  {
    if v != 0.0 {
      var m, e :| RoundedAt(v, y, m, e);
      assert NearestAt(v, y, m, e);
    }
  }

  lemma RoundedNegates(v: real, y: real)
    requires Rounded(v, y)
    ensures Rounded(-v, -y)
  {
    if v != 0.0 {
      var m, e :| RoundedAt(v, y, m, e);
      NearestAtNegates(v, y, m, e);
      assert RoundedAt(-v, -y, -m, e);
    }
  }

  // Between two binades the value is a power of two, and exact in either.
  lemma BinadesMeet(v: real, y: real, m: int, d: int, e: int)
    requires v > 0.0 && NearestAt(v, y, m, d) && d < e && 4503599627370496.0 * Pow2(e) <= v
    ensures y == v == 4503599627370496.0 * Pow2(e) && d == e - 1
  {
    var p := Pow2(d);
    Pow2Double(d);
    Pow2Monotone(d + 1, e);
    assert v == 9007199254740992.0 * p;
    MultiplesApart(9007199254740992, m, p, v, y);
    if d + 1 < e {
      Pow2Monotone(d + 2, e);
      Pow2Double(d + 1);
    }
  }

  // Of two nearest multiples, one is odd.
  lemma TieHasOneEvenEnd(v: real, y: real, z: real, m: int, n: int, p: real)
    requires p > 0.0 && y == m as real * p && z == n as real * p
    requires AbsReal(v - y) <= p / 2.0 && AbsReal(v - z) <= p / 2.0
    requires AbsReal(v - y) == p / 2.0 ==> m % 2 == 0
    requires AbsReal(v - z) == p / 2.0 ==> n % 2 == 0
    ensures m >= n
  {
    if m < n {
      NextMultiple(m, n, p, y, z);
      if m + 1 < n {
        var w := (m + 1) as real * p;
        NextMultiple(m, m + 1, p, y, w);
        NextMultiple(m + 1, n, p, w, z);
      }
    }
  }

  lemma UniqueAcross(v: real, y: real, z: real, m: int, n: int, d: int, e: int)
    requires v > 0.0 && RoundedAt(v, y, m, d) && RoundedAt(v, z, n, e) && d < e
    ensures y == z
  {
    BinadesMeet(v, y, m, d, e);
    MultiplesApart(4503599627370496, n, Pow2(e), v, z);
  }

  lemma UniqueMultiple(v: real, y: real, z: real, m: int, n: int, p: real)
    requires p > 0.0 && NearestMultipleOf(v, y, m, p) && NearestMultipleOf(v, z, n, p)
    requires AbsReal(v - y) == p / 2.0 ==> m % 2 == 0
    requires AbsReal(v - z) == p / 2.0 ==> n % 2 == 0
    ensures y == z
  {
    assert m >= n by {
      TieHasOneEvenEnd(v, y, z, m, n, p);
    }
    assert n >= m by {
      TieHasOneEvenEnd(v, z, y, n, m, p);
    }
  }

  lemma UniqueWithin(v: real, y: real, z: real, m: int, n: int, e: int)
    requires RoundedAt(v, y, m, e) && RoundedAt(v, z, n, e)
    ensures y == z
  {
    UniqueMultiple(v, y, z, m, n, Pow2(e));
  }

  lemma PositiveRoundedIsUnique(v: real, y: real, z: real)
    requires v > 0.0 && Rounded(v, y) && Rounded(v, z)
    ensures y == z
  {
    var m, d :| RoundedAt(v, y, m, d);
    var n, e :| RoundedAt(v, z, n, e);
    if d < e {
      UniqueAcross(v, y, z, m, n, d, e);
    } else if e < d {
      UniqueAcross(v, z, y, n, m, e, d);
    } else {
      UniqueWithin(v, y, z, m, n, e);
    }
  }

  /** A value has one rounded result. */
  lemma RoundedIsUnique(v: real, y: real, z: real)
    requires Rounded(v, y) && Rounded(v, z)
    ensures y == z
  {
    if v > 0.0 {
      PositiveRoundedIsUnique(v, y, z);
    } else if v < 0.0 {
      RoundedNegates(v, y);
      RoundedNegates(v, z);
      PositiveRoundedIsUnique(-v, -y, -z);
    }
  }

  lemma HalvingInverse(v: real)
    requires 0.0 < v < 1.0
    ensures 2.0 * v < 1.0 ==> (1.0 / (2.0 * v)).Floor < (1.0 / v).Floor
  {
    var w := 1.0 / v;
    assert w * v == 1.0 && w > 1.0 by {
      if w <= 1.0 { ScaleUp(w, 1.0, v); }
    }
    assert 1.0 / (2.0 * v) == w / 2.0 by {
      assert (w / 2.0) * (2.0 * v) == 1.0;
    }
  }

  // The binade of a positive value, with powers counted from one.
  lemma {:induction false} Binade(v: real) returns (e: int)
    requires v > 0.0
    ensures Pow2(e) <= v < 2.0 * Pow2(e)
    decreases v < 1.0, if v < 1.0 then (1.0 / v).Floor else v.Floor
  {
    if v < 1.0 {
      HalvingInverse(v);
      var d := Binade(2.0 * v);
      e := d - 1;
      Pow2Double(e);
    } else if v < 2.0 {
      e := 0;
    } else {
      var d := Binade(v / 2.0);
      e := d + 1;
      Pow2Double(d);
    }
  }

  lemma Pow2Up4(e: int)
    ensures Pow2(e + 4) == 16.0 * Pow2(e)
  {
    Pow2Double(e);
    Pow2Double(e + 1);
    Pow2Double(e + 2);
    Pow2Double(e + 3);
  }

  lemma Pow2Up13(e: int)
    ensures Pow2(e + 13) == 8192.0 * Pow2(e)
  {
    Pow2Up4(e);
    Pow2Up4(e + 4);
    Pow2Up4(e + 8);
    Pow2Double(e + 12);
  }

  lemma FullMantissa(e: int)
    ensures Pow2(e + 52) == 4503599627370496.0 * Pow2(e)
  {
    Pow2Up13(e);
    Pow2Up13(e + 13);
    Pow2Up13(e + 26);
    Pow2Up13(e + 39);
  }

  lemma HalfScaled(d: real, p: real)
    requires p > 0.0 && -0.5 <= d <= 0.5
    ensures AbsReal(d * p) <= p / 2.0
    ensures AbsReal(d * p) == p / 2.0 ==> d == 0.5 || d == -0.5
  {
    ScaleUp(d, 0.5, p);
    ScaleUp(-0.5, d, p);
    if d < 0.5 { assert (0.5 - d) * p > 0.0; }
    if d > -0.5 { assert (d + 0.5) * p > 0.0; }
  }

  lemma NearestMultiple(v: real, p: real) returns (m: int, y: real)
    requires p > 0.0
    ensures y == m as real * p && AbsReal(v - y) <= p / 2.0
    ensures AbsReal(v - y) == p / 2.0 ==> m % 2 == 0
  {
    var w := v / p;
    m := RoundHalfEven(w);
    y := m as real * p;
    var d := w - m as real;
    assert v - y == d * p by {
      assert v == w * p;
      assert (w - m as real) * p == w * p - m as real * p;
    }
    HalfScaled(d, p);
  }

  /** And it has one: the two notions of rounding speak of every value. */
  lemma RoundedExists(v: real)
    ensures exists y :: Rounded(v, y)
    ensures exists y :: Nearest(v, y)
  {
    if v == 0.0 {
      assert Rounded(v, 0.0) && Nearest(v, 0.0);
    } else {
      var top := Binade(AbsReal(v));
      var e := top - 52;
      FullMantissa(e);
      var m, y := NearestMultiple(v, Pow2(e));
      assert RoundedAt(v, y, m, e);
      assert Rounded(v, y);
      RoundedIsNearest(v, y);
    }
  }

  // ---------------------------------------------------------------------------------------------
  // Proration

  // The last numerator for which the float division is exact; see `FirstWrongProration`.
  const LIMIT := 30 * 0x2_0000_0000_0000 + 28   // 30·2^49 + 28

  // A value below 2^(52+b) is rounded with a spacing below 2^b.
  lemma SpacingBelow(v: real, y: real, m: int, e: int, b: int)
    requires v > 0.0 && NearestAt(v, y, m, e) && v < 4503599627370496.0 * Pow2(b)
    ensures e < b && Pow2(e) <= Pow2(b - 1)
  {
    if e >= b {
      Pow2Monotone(b, e);
    } else {
      Pow2Monotone(e, b - 1);
    }
  }

  lemma SmallPowers()
    ensures Pow2(0) == 1.0 && Pow2(-1) == 0.5 && Pow2(-2) == 0.25 && Pow2(-3) == 0.125 && Pow2(-4) == 0.0625
  {
    assert Pow2(0) == 1.0 && Pow2(-1) == 0.5;
  }

  lemma WholeIsMultiple(q: int, k: int, p: real)
    requires k as real * p == 1.0
    ensures (q * k) as real * p == q as real
  {
    assert (q * k) as real * p == q as real * (k as real * p);
  }

  lemma MultipleKeepsFloor(v: real, y: real, m: int, k: int, p: real, q: int)
    requires p > 0.0 && k as real * p == 1.0 && y == m as real * p && AbsReal(v - y) <= p / 2.0 && q as real <= v
    ensures q as real <= y
  {
    WholeIsMultiple(q, k, p);
    if m < q * k {
      NextMultiple(m, q * k, p, y, q as real);
    } else {
      Scaled((q * k) as real, m as real, p, q as real, y);
    }
  }

  // Whole numbers are multiples of the spacing, so rounding does not cross one.
  lemma RoundingKeepsFloor(v: real, y: real, m: int, e: int, q: int)
    requires v > 0.0 && NearestAt(v, y, m, e) && e <= 0 && q as real <= v
    ensures q as real <= y
  {
    var k := OneIsMultiple(e);
    var p := Pow2(e);
    MultipleKeepsFloor(v, y, m, k, p, q);
  }

  lemma OnlyMultipleNear(n: int, k: int, m: int, p: real, y: real)
    requires p > 0.0 && k as real * p == 1.0 && y == m as real * p && AbsReal(n as real - y) <= p / 2.0
    ensures y == n as real
  {
    WholeIsMultiple(n, k, p);
    MultiplesApart(n * k, m, p, n as real, y);
  }

  lemma IntegerSpacing(n: int, y: real, m: int, e: int)
    requires 0 < n < 9007199254740992 && NearestAt(n as real, y, m, e)
    ensures e <= 0
  {
    assert Pow2(0) == 1.0 && Pow2(1) == 2.0;
    SpacingBelow(n as real, y, m, e, 1);
  }

  lemma ExactAt(n: int, y: real, m: int, e: int)
    requires e <= 0 && NearestAt(n as real, y, m, e)
    ensures y == n as real
  {
    var k := OneIsMultiple(e);
    var p := Pow2(e);
    assert y == n as real by {
      OnlyMultipleNear(n, k, m, p, y);
    }
  }

  lemma PositiveIntegersAreExact(n: int, y: real)
    requires Nearest(n as real, y) && 0 < n < 9007199254740992
    ensures y == n as real
  {
    var m, e :| NearestAt(n as real, y, m, e);
    IntegerSpacing(n, y, m, e);
    ExactAt(n, y, m, e);
  }

  /** Whole numbers below 2^53 are exact. */
  lemma IntegersAreExact(n: int, y: real)
    requires Nearest(n as real, y) && AbsInt(n) < 9007199254740992
    ensures y == n as real
  {
    if n > 0 {
      PositiveIntegersAreExact(n, y);
    } else if n < 0 {
      NearestNegates(n as real, y);
      assert -(n as real) == (-n) as real;
      PositiveIntegersAreExact(-n, -y);
    }
  }

  lemma NonnegativeProration(x: int, y: real)
    requires 0 <= x <= LIMIT && Nearest(x as real / 30.0, y)
    ensures Trunc(y) == x / 30
  {
    var v := x as real / 30.0;
    var q, r := x / 30, x % 30;
    if x > 0 {
      var m, e :| NearestAt(v, y, m, e);
      SmallPowers();
      assert v == q as real + r as real / 30.0;
      if v < 4503599627370496.0 * Pow2(-3) {
        SpacingBelow(v, y, m, e, -3);
      } else {
        SpacingBelow(v, y, m, e, -2);
        assert q == 0x2_0000_0000_0000 && r <= 28;
      }
      RoundingKeepsFloor(v, y, m, e, q);
      assert y < (q + 1) as real;
    }
  }

  /** Up to a numerator of 30·2^49 + 28 the float quotient, truncated, is the exact quotient truncated
    toward zero. */
  lemma ProrationIsExact(x: int, y: real)
    requires AbsInt(x) <= LIMIT && Nearest(x as real / 30.0, y)
    ensures Trunc(y) == Div30(x)
  {
    if x >= 0 {
      NonnegativeProration(x, y);
    } else {
      NearestNegates(x as real / 30.0, y);
      assert -(x as real / 30.0) == (-x) as real / 30.0;
      NonnegativeProration(-x, -y);
    }
  }

  // In the binade from 2^(52+b) on, the result is a multiple of 2^b.
  lemma InBinade(v: real, y: real, b: int) returns (m: int)
    requires Nearest(v, y) && 4503599627370496.0 * Pow2(b) <= v < 9007199254740992.0 * Pow2(b)
    ensures NearestAt(v, y, m, b)
    ensures Rounded(v, y) ==> RoundedAt(v, y, m, b)
  {
    var d;
    if Rounded(v, y) {
      m, d :| RoundedAt(v, y, m, d);
    } else {
      m, d :| NearestAt(v, y, m, d);
    }
    Pow2Double(b);
    if d < b {
      BinadesMeet(v, y, m, d, b);
      m := 4503599627370496;
    } else if d > b {
      Pow2Monotone(b + 1, d);
    }
  }

  // The float is the m-th of the floats `p` apart nearest to q + r/30.
  ghost predicate Near(q: int, r: int, v: real, y: real, m: int, p: real) {
    && 0 <= r < 30 && 0 <= q && v == q as real + r as real / 30.0
    && y == m as real * p && AbsReal(v - y) <= p / 2.0
  }

  // Floats are an eighth, a quarter, half or a whole cent apart.
  lemma Eighths(q: int, r: int, v: real, y: real, m: int)
    requires Near(q, r, v, y, m, 0.125)
    ensures Trunc(y) == if r >= 29 then q + 1 else q
  {
    var d := m - 8 * q;
    assert y == q as real + d as real * 0.125;
    assert -15 <= 30 * d - 8 * r <= 15;
    if r >= 29 {
      assert d == 8;
    } else {
      assert 0 <= d < 8;
    }
  }

  lemma Quarters(q: int, r: int, v: real, y: real, m: int)
    requires Near(q, r, v, y, m, 0.25)
    ensures Trunc(y) == if r >= 27 then q + 1 else q
  {
    var d := m - 4 * q;
    assert y == q as real + d as real * 0.25;
    assert -15 <= 30 * d - 4 * r <= 15;
    if r >= 27 {
      assert d == 4;
    } else {
      assert 0 <= d < 4;
    }
  }

  lemma Halves(q: int, r: int, v: real, y: real, m: int)
    requires Near(q, r, v, y, m, 0.5)
    ensures Trunc(y) == if r >= 23 then q + 1 else q
  {
    var d := m - 2 * q;
    assert y == q as real + d as real * 0.5;
    assert -15 <= 30 * d - 2 * r <= 15;
    if r >= 23 {
      assert d == 2;
    } else {
      assert 0 <= d < 2;
    }
  }

  lemma Wholes(q: int, r: int, v: real, y: real, m: int)
    requires Near(q, r, v, y, m, 1.0) && (AbsReal(v - y) == 0.5 ==> m % 2 == 0)
    ensures Trunc(y) == if r >= 16 || (r == 15 && q % 2 == 1) then q + 1 else q
  {
    assert -15 <= 30 * m - (30 * q + r) <= 15;
  }

  lemma NearBy(q: int, r: int, v: real, y: real, m: int, b: int, p: real)
    requires NearestAt(v, y, m, b) && Pow2(b) == p
    requires 0 <= r < 30 && 0 <= q && v == q as real + r as real / 30.0
    ensures Near(q, r, v, y, m, p)
  {
  }

  // The spacing, in cents, of the floats about q, where it is a cent or more.
  function Spacing(q: nat): (p: nat)
    ensures p >= 1
  {
    if q < 0x20_0000_0000_0000 then 1 else 2 * Spacing(q / 2)
  }

  /** Where the float quotient, truncated, is not the exact one: never below 2^49 cents, then for more and
    more of the residues of 30, and from 2^53 cents on wherever the exact one, truncated, is no float. */
  predicate Mischarged(x: int) {
    var q, r := AbsInt(x) / 30, AbsInt(x) % 30;
    if q < 0x2_0000_0000_0000 then false
    else if q < 0x4_0000_0000_0000 then r >= 29
    else if q < 0x8_0000_0000_0000 then r >= 27
    else if q < 0x10_0000_0000_0000 then r >= 23
    else if q < 0x20_0000_0000_0000 then r >= 16 || (r == 15 && q % 2 == 1)
    else q % Spacing(q) != 0
  }

  lemma InEighths(q: int, r: int, v: real, y: real)
    requires 0x2_0000_0000_0000 <= q < 0x4_0000_0000_0000 && 0 <= r < 30 && v == q as real + r as real / 30.0
    requires Nearest(v, y)
    ensures Trunc(y) == if r >= 29 then q + 1 else q
  {
    SmallPowers();
    var m := InBinade(v, y, -3);
    NearBy(q, r, v, y, m, -3, 0.125);
    Eighths(q, r, v, y, m);
  }

  lemma InQuarters(q: int, r: int, v: real, y: real)
    requires 0x4_0000_0000_0000 <= q < 0x8_0000_0000_0000 && 0 <= r < 30 && v == q as real + r as real / 30.0
    requires Nearest(v, y)
    ensures Trunc(y) == if r >= 27 then q + 1 else q
  {
    SmallPowers();
    var m := InBinade(v, y, -2);
    NearBy(q, r, v, y, m, -2, 0.25);
    Quarters(q, r, v, y, m);
  }

  lemma InHalves(q: int, r: int, v: real, y: real)
    requires 0x8_0000_0000_0000 <= q < 0x10_0000_0000_0000 && 0 <= r < 30 && v == q as real + r as real / 30.0
    requires Nearest(v, y)
    ensures Trunc(y) == if r >= 23 then q + 1 else q
  {
    SmallPowers();
    var m := InBinade(v, y, -1);
    NearBy(q, r, v, y, m, -1, 0.5);
    Halves(q, r, v, y, m);
  }

  lemma InWholes(q: int, r: int, v: real, y: real)
    requires 0x10_0000_0000_0000 <= q < 0x20_0000_0000_0000 && 0 <= r < 30 && v == q as real + r as real / 30.0
    requires Nearest(v, y) && Rounded(v, y)
    ensures Trunc(y) == if r >= 16 || (r == 15 && q % 2 == 1) then q + 1 else q
  {
    SmallPowers();
    var m := InBinade(v, y, 0);
    NearBy(q, r, v, y, m, 0, 1.0);
    Wholes(q, r, v, y, m);
  }

  // Below 2^53 cents.
  lemma FineQuotient(x: nat, y: real)
    requires 0x2_0000_0000_0000 <= x / 30 < 0x20_0000_0000_0000 && Rounded(x as real / 30.0, y)
    ensures Trunc(y) == x / 30 + if Mischarged(x) then 1 else 0
  {
    var q, r, v := x / 30, x % 30, x as real / 30.0;
    assert v == q as real + r as real / 30.0;
    RoundedIsNearest(v, y);
    if q < 0x4_0000_0000_0000 {
      InEighths(q, r, v, y);
    } else if q < 0x8_0000_0000_0000 {
      InQuarters(q, r, v, y);
    } else if q < 0x10_0000_0000_0000 {
      InHalves(q, r, v, y);
    } else {
      InWholes(q, r, v, y);
    }
  }

  lemma {:induction false} SpacingIsPower(q: nat) returns (b: int)
    requires q >= 0x20_0000_0000_0000
    ensures b >= 1 && Pow2(b) == Spacing(q) as real && Spacing(q) >= 2
    ensures 0x10_0000_0000_0000 * Spacing(q) <= q < 0x20_0000_0000_0000 * Spacing(q)
  {
    if q / 2 < 0x20_0000_0000_0000 {
      b := 1;
      assert Pow2(1) == 2.0;
    } else {
      var c := SpacingIsPower(q / 2);
      b := c + 1;
      Pow2Double(c);
    }
  }

  lemma {:induction false} MultiplesDiffer(i: int, j: int, p: int)
    requires p > 0 && i < j
    ensures i * p + p <= j * p
    decreases j - i
  {
    if i + 1 < j {
      MultiplesDiffer(i, j - 1, p);
      assert (j - 1) * p + p == j * p;
    } else {
      assert j * p == (i + 1) * p == i * p + p;
    }
  }

  // Of multiples of a whole spacing, the nearest is the quotient itself exactly if that is a multiple.
  lemma CoarseMultiple(q: int, r: int, p: int, m: int, n: int)
    requires p >= 2 && 0 <= r < 30 && n == m * p && -15 * p <= 30 * (q - n) + r <= 15 * p
    ensures n == q <==> q % p == 0
  {
    var k := q / p;
    assert q == k * p + q % p;
    if m < k {
      MultiplesDiffer(m, k, p);
    } else if k < m {
      MultiplesDiffer(k, m, p);
    }
  }

  lemma RealProduct(m: int, p: int)
    ensures (m * p) as real == m as real * p as real
  {
  }

  // The value is within a whole spacing of the multiple, in thirtieths.
  lemma WithinThirtieths(q: int, r: int, p: int, n: int, v: real, y: real)
    requires y == n as real && v == q as real + r as real / 30.0 && AbsReal(v - y) <= p as real / 2.0
    ensures -15 * p <= 30 * (q - n) + r <= 15 * p
  {
  }

  lemma CoarseBinade(q: int, p: int, b: int, v: real)
    requires Pow2(b) == p as real && 0x10_0000_0000_0000 * p <= q < 0x20_0000_0000_0000 * p
    requires q as real <= v < q as real + 1.0
    ensures 4503599627370496.0 * Pow2(b) <= v < 9007199254740992.0 * Pow2(b)
  {
    assert (0x20_0000_0000_0000 * p - 1) as real >= q as real;
  }

  lemma CoarseEnd(q: int, r: int, p: int, v: real, y: real, m: int, w: real)
    requires p >= 2 && 0 <= r < 30 && 0 <= q && v == q as real + r as real / 30.0
    requires w == p as real && y == m as real * w && AbsReal(v - y) <= w / 2.0
    ensures Trunc(y) == q <==> q % p == 0
    ensures AbsInt(Trunc(y) - q) <= (p + 1) / 2
  {
    RealProduct(m, p);
    var n := m * p;
    WithinThirtieths(q, r, p, n, v, y);
    CoarseMultiple(q, r, p, m, n);
  }

  lemma CoarseMultipleAt(q: int, r: int, p: int, v: real, y: real, m: int, w: real)
    requires p >= 2 && 0 <= r < 30 && 0 <= q && v == q as real + r as real / 30.0
    requires w == p as real && NearestMultipleOf(v, y, m, w)
    ensures Trunc(y) == q <==> q % p == 0
    ensures AbsInt(Trunc(y) - q) <= (p + 1) / 2
  {
    CoarseEnd(q, r, p, v, y, m, w);
  }

  lemma CoarseAt(q: int, r: int, v: real, y: real, b: int, p: int)
    requires 0 <= r < 30 && v == q as real + r as real / 30.0 && Nearest(v, y)
    requires Pow2(b) == p as real && p >= 2 && 0x10_0000_0000_0000 * p <= q < 0x20_0000_0000_0000 * p
    ensures Trunc(y) == q <==> q % p == 0
    ensures AbsInt(Trunc(y) - q) <= (p + 1) / 2
  {
    CoarseBinade(q, p, b, v);
    var m := InBinade(v, y, b);
    CoarseMultipleAt(q, r, p, v, y, m, Pow2(b));
  }

  // From 2^53 cents on.
  lemma CoarseQuotient(q: int, r: int, v: real, y: real)
    requires q >= 0x20_0000_0000_0000 && 0 <= r < 30 && v == q as real + r as real / 30.0
    requires Nearest(v, y)
    ensures Trunc(y) == q <==> q % Spacing(q) == 0
    ensures AbsInt(Trunc(y) - q) <= Spacing(q) / 2
  {
    var b := SpacingIsPower(q);
    CoarseAt(q, r, v, y, b, Spacing(q));
  }

  /** How far a charge can be off, in cents. */
  function Slack(x: int): nat {
    var q := AbsInt(x) / 30;
    if !Mischarged(x) then 0 else if q < 0x20_0000_0000_0000 then 1 else Spacing(q) / 2
  }

  lemma NonnegativeMischarge(x: nat, y: real)
    requires Rounded(x as real / 30.0, y)
    ensures Trunc(y) == x / 30 <==> !Mischarged(x)
    ensures Mischarged(x) && x / 30 < 0x20_0000_0000_0000 ==> Trunc(y) == x / 30 + 1
    ensures AbsInt(Trunc(y) - x / 30) <= Slack(x)
  {
    RoundedIsNearest(x as real / 30.0, y);
    var q := x / 30;
    if q < 0x2_0000_0000_0000 {
      NonnegativeProration(x, y);
    } else if q < 0x20_0000_0000_0000 {
      FineQuotient(x, y);
    } else {
      assert x as real / 30.0 == q as real + (x % 30) as real / 30.0;
      CoarseQuotient(q, x % 30, x as real / 30.0, y);
    }
  }

  /** For every numerator: the charge is wrong exactly where `Mischarged` says, below 2^53 cents then by one
    cent, away from zero, and beyond by half the spacing of the floats at most. */
  lemma MischargedIff(x: int, y: real)
    requires Rounded(x as real / 30.0, y)
    ensures Trunc(y) != Div30(x) <==> Mischarged(x)
    ensures Mischarged(x) && AbsInt(x) / 30 < 0x20_0000_0000_0000 ==>
      Trunc(y) == Div30(x) + if x >= 0 then 1 else -1
    ensures AbsInt(Trunc(y) - Div30(x)) <= Slack(x)
  {
    if x >= 0 {
      NonnegativeMischarge(x, y);
    } else {
      RoundedNegates(x as real / 30.0, y);
      assert -(x as real / 30.0) == (-x) as real / 30.0;
      NonnegativeMischarge(-x, -y);
    }
  }

  /** The numerator after the limit is charged one cent too much, however ties are broken: the bound of
    `ProrationIsExact` is sharp. */
  lemma FirstWrongProration(y: real)
    requires Nearest((LIMIT + 1) as real / 30.0, y)
    ensures Trunc(y) == Div30(LIMIT + 1) + 1
  {
    InEighths(0x2_0000_0000_0000, 29, (LIMIT + 1) as real / 30.0, y);
  }

  // `change_plan`: prices in cents, days as requested; `quotient` is the float the division yields.
  function Numerator(oldPrice: int, newPrice: int, days: int): int {
    (newPrice - oldPrice) * (if days < 1 then 1 else days)
  }

  datatype Subscription = Subscription(planId: int, status: string)
  datatype Plan = Plan(id: int, priceCents: int)
  // A plan that is gone counts as free.
  function PriceOf(current: Option<Plan>): int { if current.Some? then current.value.priceCents else 0 }

  datatype Change = SubscriptionNotFound | PlanNotFound | Prorated(cents: int)

  lemma ChargeMeans(x: int, quotient: real)
    requires Nearest(x as real / 30.0, quotient)
    ensures AbsInt(x) <= LIMIT ==> Trunc(quotient) == Div30(x)
    ensures Rounded(x as real / 30.0, quotient) ==> (Trunc(quotient) == Div30(x) <==> !Mischarged(x))
  {
    if AbsInt(x) <= LIMIT {
      ProrationIsExact(x, quotient);
    }
    if Rounded(x as real / 30.0, quotient) {
      MischargedIff(x, quotient);
    }
  }

  class Billing {
    var subscription: Option<Subscription>   // the user's latest
    var invoices: seq<nat>

    constructor (s: Option<Subscription>)
      ensures subscription == s && invoices == []
    {
      subscription, invoices := s, [];
    }

    /** Charges the float quotient truncated, which is the exact proration up to the limit, and beyond it where
      it is not mischarged; bills its absolute value. */
    method ChangePlan(current: Option<Plan>, target: Option<Plan>, days: int, quotient: real) returns (r: Change)
      requires target.Some? ==>
        Nearest(Numerator(PriceOf(current), target.value.priceCents, days) as real / 30.0, quotient)
      modifies this
      ensures old(subscription).None? ==> r == SubscriptionNotFound
      ensures old(subscription).Some? && target.None? ==> r == PlanNotFound
      ensures old(subscription).None? || target.None? ==> subscription == old(subscription) && invoices == old(invoices)
      ensures old(subscription).Some? && target.Some? ==>
        var x := (target.value.priceCents - if current.Some? then current.value.priceCents else 0)
                 * (if days < 1 then 1 else days);
        && r == Prorated(Trunc(quotient))
        && (AbsInt(x) <= LIMIT ==> r == Prorated(Div30(x)))
        && (Rounded(x as real / 30.0, quotient) ==> (r == Prorated(Div30(x)) <==> !Mischarged(x)))
        && subscription == Some(Subscription(target.value.id, "active"))
        && invoices == old(invoices) + [AbsInt(r.cents)]
    {
      if subscription.None? { return SubscriptionNotFound; }
      if target.None? { return PlanNotFound; }
      ChargeMeans(Numerator(PriceOf(current), target.value.priceCents, days), quotient);
      var cents := if quotient >= 0.0 then quotient.Floor else -((-quotient).Floor);
      subscription := Some(Subscription(target.value.id, "active"));
      invoices := invoices + [if cents < 0 then -cents else cents];
      return Prorated(cents);
    }
  }

  /** A change and its reverse cancel, whatever the amount: the charges of both are opposite. */
  lemma ReverseCancels(a: int, b: int, days: int, there: real, back: real)
    requires Rounded(Numerator(a, b, days) as real / 30.0, there)
    requires Rounded(Numerator(b, a, days) as real / 30.0, back)
    ensures Trunc(back) == -Trunc(there)
  {
    var d := if days < 1 then 1 else days;
    assert (b - a) * d == -((a - b) * d);
    assert Numerator(b, a, days) as real / 30.0 == -(Numerator(a, b, days) as real / 30.0);
    RoundedNegates(Numerator(a, b, days) as real / 30.0, there);
    RoundedIsUnique(Numerator(b, a, days) as real / 30.0, back, -there);
  }

  // A chain of plan changes: the exact amounts of its steps, summed.
  function ChainAmount(prices: seq<int>, days: int): int {
    if |prices| < 2 then 0
    else ChainAmount(prices[..|prices| - 1], days) + Div30(Numerator(prices[|prices| - 2], prices[|prices| - 1], days))
  }

  // What truncation dropped from the steps, in thirtieths; at most 29 from each.
  function ChainRest(prices: seq<int>, days: int): int {
    if |prices| < 2 then 0
    else
      var x := Numerator(prices[|prices| - 2], prices[|prices| - 1], days);
      ChainRest(prices[..|prices| - 1], days) + (x - 30 * Div30(x))
  }

  lemma {:induction false} ChainSplits(prices: seq<int>, days: int)
    requires |prices| >= 1
    ensures Numerator(prices[0], prices[|prices| - 1], days) == 30 * ChainAmount(prices, days) + ChainRest(prices, days)
  {
    if |prices| >= 2 {
      var init := prices[..|prices| - 1];
      ChainSplits(init, days);
      var d := if days < 1 then 1 else days;
      var a, b, c := prices[0], prices[|prices| - 2], prices[|prices| - 1];
      assert (c - a) * d == (b - a) * d + (c - b) * d;
    }
  }

  lemma NumeratorSign(a: int, b: int, days: int)
    ensures a <= b <==> 0 <= Numerator(a, b, days)
    ensures a >= b <==> 0 >= Numerator(a, b, days)
  {
    var d := if days < 1 then 1 else days;
    if b - a > 0 { assert (b - a) * d > 0; }
    if b - a < 0 { assert (b - a) * d < 0; }
  }

  // Some step goes up or stays level unless all go down, and then the whole chain goes down.
  lemma {:induction false} RestBounds(prices: seq<int>, days: int)
    requires |prices| >= 1
    ensures -29 * (|prices| - 1) <= ChainRest(prices, days) <= 29 * (|prices| - 1)
    ensures prices[0] <= prices[|prices| - 1] && |prices| >= 2 ==> -29 * (|prices| - 2) <= ChainRest(prices, days)
    ensures prices[0] >= prices[|prices| - 1] && |prices| >= 2 ==> ChainRest(prices, days) <= 29 * (|prices| - 2)
  {
    if |prices| >= 2 {
      var init := prices[..|prices| - 1];
      RestBounds(init, days);
      var x := Numerator(prices[|prices| - 2], prices[|prices| - 1], days);
      var r := x - 30 * Div30(x);
      NumeratorSign(prices[|prices| - 2], prices[|prices| - 1], days);
      assert (x >= 0 ==> 0 <= r <= 29) && (x <= 0 ==> -29 <= r <= 0);
    }
  }

  lemma ExactChainNearDirect(prices: seq<int>, days: int)
    requires |prices| >= 2
    ensures AbsInt(ChainAmount(prices, days) - Div30(Numerator(prices[0], prices[|prices| - 1], days))) <= |prices| - 2
  {
    ChainSplits(prices, days);
    RestBounds(prices, days);
    NumeratorSign(prices[0], prices[|prices| - 1], days);
  }

  // What the steps are charged, summed.
  function Charged(quotients: seq<real>): int {
    if quotients == [] then 0 else Charged(quotients[..|quotients| - 1]) + Trunc(quotients[|quotients| - 1])
  }

  // The amounts, in thirtieths of a cent, of the steps of a chain.
  function StepNumerator(prices: seq<int>, days: int, i: nat): int
    requires i + 1 < |prices|
  {
    Numerator(prices[i], prices[i + 1], days)
  }

  // How far the charges of a chain can be off together.
  function ChainSlack(prices: seq<int>, days: int): nat {
    if |prices| < 2 then 0
    else ChainSlack(prices[..|prices| - 1], days) + Slack(StepNumerator(prices, days, |prices| - 2))
  }

  ghost predicate Quotients(prices: seq<int>, days: int, quotients: seq<real>) {
    && |prices| == |quotients| + 1
    && forall i :: 0 <= i < |quotients| ==> Rounded(StepNumerator(prices, days, i) as real / 30.0, quotients[i])
  }

  lemma {:induction false} ChargedWithinSlack(prices: seq<int>, days: int, quotients: seq<real>)
    requires Quotients(prices, days, quotients)
    ensures AbsInt(Charged(quotients) - ChainAmount(prices, days)) <= ChainSlack(prices, days)
  {
    if quotients != [] {
      var n := |quotients| - 1;
      forall i | 0 <= i < n
        ensures Rounded(StepNumerator(prices[..n + 1], days, i) as real / 30.0, quotients[..n][i])
      {
        assert StepNumerator(prices[..n + 1], days, i) == StepNumerator(prices, days, i);
      }
      ChargedWithinSlack(prices[..n + 1], days, quotients[..n]);
      MischargedIff(StepNumerator(prices, days, n), quotients[n]);
    }
  }

  lemma {:induction false} SlackOfSmallSteps(prices: seq<int>, days: int, most: nat)
    requires most <= 1
    requires forall i :: 0 <= i < |prices| - 1 ==> Slack(StepNumerator(prices, days, i)) <= most
    ensures |prices| >= 1 ==> ChainSlack(prices, days) <= most * (|prices| - 1)
  {
    if |prices| >= 2 {
      var init := prices[..|prices| - 1];
      forall i | 0 <= i < |init| - 1 ensures Slack(StepNumerator(init, days, i)) <= most {
        assert StepNumerator(init, days, i) == StepNumerator(prices, days, i);
      }
      SlackOfSmallSteps(init, days, most);
    }
  }

  /** With the days fixed, a chain of n plan changes charges within n − 1 cents of the direct change, plus what
    its charges and the direct one can be off: for amounts below 2^53 cents that is one cent for each that is
    mischarged. */
  lemma ChainNearDirect(prices: seq<int>, days: int, quotients: seq<real>, direct: real)
    requires Quotients(prices, days, quotients) && quotients != []
    requires Rounded(Numerator(prices[0], prices[|prices| - 1], days) as real / 30.0, direct)
    ensures AbsInt(Charged(quotients) - Trunc(direct)) <=
      |quotients| - 1 + ChainSlack(prices, days) + Slack(Numerator(prices[0], prices[|prices| - 1], days))
  {
    var x := Numerator(prices[0], prices[|prices| - 1], days);
    assert AbsInt(Charged(quotients) - ChainAmount(prices, days)) <= ChainSlack(prices, days) by {
      ChargedWithinSlack(prices, days, quotients);
    }
    assert AbsInt(Trunc(direct) - Div30(x)) <= Slack(x) by {
      MischargedIff(x, direct);
    }
    assert AbsInt(ChainAmount(prices, days) - Div30(x)) <= |prices| - 2 by {
      ExactChainNearDirect(prices, days);
    }
  }

  // Below 2^53 cents.
  predicate Small(x: int) { AbsInt(x) / 30 < 0x20_0000_0000_0000 }

  /** So n − 1 cents if nothing is mischarged, and 2n cents if all amounts are below 2^53 cents. */
  lemma PlainChainNearDirect(prices: seq<int>, days: int, quotients: seq<real>, direct: real)
    requires Quotients(prices, days, quotients) && quotients != []
    requires Rounded(Numerator(prices[0], prices[|prices| - 1], days) as real / 30.0, direct)
    ensures !Mischarged(Numerator(prices[0], prices[|prices| - 1], days))
      && (forall i :: 0 <= i < |quotients| ==> !Mischarged(StepNumerator(prices, days, i)))
      ==> AbsInt(Charged(quotients) - Trunc(direct)) <= |quotients| - 1
    ensures Small(Numerator(prices[0], prices[|prices| - 1], days))
      && (forall i :: 0 <= i < |quotients| ==> Small(StepNumerator(prices, days, i)))
      ==> AbsInt(Charged(quotients) - Trunc(direct)) <= 2 * |quotients|
  {
    ChainNearDirect(prices, days, quotients, direct);
    if forall i :: 0 <= i < |quotients| ==> !Mischarged(StepNumerator(prices, days, i)) {
      SlackOfSmallSteps(prices, days, 0);
    }
    if forall i :: 0 <= i < |quotients| ==> Small(StepNumerator(prices, days, i)) {
      SlackOfSmallSteps(prices, days, 1);
    }
  }

  // ---------------------------------------------------------------------------------------------
  // Product prices

  /** Storing the float price read from c cents gives back c, for every 32-bit amount and far beyond
    (up to 2^50). */
  lemma PriceRoundTrip(c: int, price: real, scaled: real)
    requires AbsInt(c) <= 0x4_0000_0000_0000
    requires Nearest(c as real / 100.0, price) && Nearest(price * 100.0, scaled)
    ensures RoundHalfEven(scaled) == c
  {
    RelativeError(c as real / 100.0, price);
    RelativeError(price * 100.0, scaled);
  }

  class Product {
    var priceCents: int

    constructor (cents: int)
      ensures priceCents == cents
    {
      priceCents := cents;
    }

    // The setter; `scaled` is the float that `value * 100` yields.
    method SetPrice(ghost value: real, scaled: real)
      requires Nearest(value * 100.0, scaled)
      modifies this
      ensures AbsReal(scaled - priceCents as real) <= 0.5
      ensures AbsReal(scaled - priceCents as real) == 0.5 ==> priceCents % 2 == 0
      ensures forall c: int :: AbsInt(c) <= 0x4_0000_0000_0000 && Nearest(c as real / 100.0, value) ==> priceCents == c
    {
      forall c: int | AbsInt(c) <= 0x4_0000_0000_0000 && Nearest(c as real / 100.0, value)
        ensures RoundHalfEven(scaled) == c
      {
        PriceRoundTrip(c, value, scaled);
      }
      priceCents := RoundHalfEven(scaled);
    }
  }
}
