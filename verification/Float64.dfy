// Division of whole numbers in binary floating point, as far as it decides a ceiling (section 4.3.1 of
// IEEE 754-2008). Exponents are unbounded: quotients of the numbers used here stay in the normal range.
module Float64 {

  /** Significands have 53 bits. */
  const LIMIT: nat := 0x20_0000_0000_0000

  function Pow2(k: nat): (r: nat)
    ensures r >= 1
  {
    if k == 0 then 1 else 2 * Pow2(k - 1)
  }

  /** `x` is the significand `m` scaled down, or up, by a power of two. */
  predicate ScaledDown(x: real, m: int, e: nat) { x * Pow2(e) as real == m as real }

  predicate ScaledUp(x: real, m: int, e: nat) { x == m as real * Pow2(e) as real }

  predicate Significand(m: int) { 0 - LIMIT < m < LIMIT }

  ghost predicate Representable(x: real) {
    exists m: int, e: nat :: Significand(m) && (ScaledDown(x, m, e) || ScaledUp(x, m, e))
  }

  function Gap(x: real, y: real): real { if x <= y then y - x else x - y }

  /** `f` is a result of rounding `x` to nearest, whatever the choice between two equally near numbers. */
  ghost predicate Nearest(f: real, x: real) {
    Representable(f) && forall g: real :: Representable(g) ==> Gap(f, x) <= Gap(g, x)
  }

  function Ceil(x: real): int { -((-x).Floor) }

  /** The ceiling of a quotient of whole numbers. */
  function CeilDiv(a: nat, b: nat): nat
    requires b >= 1
  {
    (a + b - 1) / b
  }

  lemma {:induction false} Pow2Grows(k: nat)
    ensures Pow2(k) > k
  {
    if k > 0 { Pow2Grows(k - 1); }
  }

  lemma WholeIsRepresentable(n: nat)
    requires n < LIMIT
    ensures Representable(n as real)
  {
    assert ScaledUp(n as real, n, 0);
    assert Significand(n);
  }

  /** A whole number below the precision is rounded to itself. */
  lemma WholeIsExact(f: real, n: nat)
    requires n < LIMIT && Nearest(f, n as real)
    ensures f == n as real
  {
    WholeIsRepresentable(n);
    assert Gap(f, n as real) <= Gap(n as real, n as real);
  }

  /** The largest scale at which `n`, and one unit more, still fit the significand. */
  lemma {:induction false} FindScale(n: nat, k: nat) returns (scale: nat)
    requires n >= 1 && n * Pow2(k) < LIMIT
    ensures scale >= k && n * Pow2(scale) < LIMIT <= n * Pow2(scale + 1)
    decreases LIMIT - n * Pow2(k)
  {
    Double(n, k);
    if n * Pow2(k + 1) < LIMIT {
      scale := FindScale(n, k + 1);
    } else {
      scale := k;
    }
  }

  lemma Double(n: nat, k: nat)
    ensures n * Pow2(k + 1) == 2 * (n * Pow2(k))
    ensures n >= 1 ==> n * Pow2(k + 1) > n * Pow2(k)
  {
    assert n * (2 * Pow2(k)) == 2 * (n * Pow2(k));
    if n >= 1 { assert n * Pow2(k) >= Pow2(k) by { Grows(n, Pow2(k)); } }
  }

  lemma Grows(n: nat, p: nat)
    requires n >= 1
    ensures n * p >= p
  {
    assert (n - 1) * p >= 0;
    assert n * p == (n - 1) * p + p;
  }

  lemma Monotone(n: nat, b: nat, c: nat)
    requires b <= c
    ensures n * b <= n * c
  {
    assert n * (c - b) >= 0;
    assert n * (c - b) == n * c - n * b;
  }

  lemma CancelLess(n: nat, b: nat, c: nat)
    requires n * b < n * c
    ensures b < c
  {
    if c <= b { Monotone(n, c, b); }
  }

  /** A scale at which `n` and one unit fit the significand, the unit being finer than two parts in `b`. */
  lemma FineScale(n: nat, b: nat) returns (scale: nat)
    requires b >= 1 && n * b < LIMIT && 2 * n < LIMIT
    ensures n * Pow2(scale) + 1 < LIMIT && b < Pow2(scale + 1)
  {
    if n == 0 {
      scale := b;
      Pow2Grows(b + 1);
    } else {
      assert Pow2(0) == 1 && Pow2(1) == 2;
      scale := FindScale(n, 1);
      CancelLess(n, b, Pow2(scale + 1));
      Double(n, scale - 1);
    }
  }

  /** Just above the whole number `n` lies a representable one, closer than two parts in `b`. */
  lemma NextAbove(n: nat, b: nat) returns (scale: nat, g: real)
    requires b >= 1 && n * b < LIMIT && 2 * n < LIMIT
    ensures Representable(g) && g == n as real + 1.0 / Pow2(scale) as real && b < Pow2(scale + 1)
  {
    scale := FineScale(n, b);
    g := n as real + 1.0 / Pow2(scale) as real;
    var m := n * Pow2(scale) + 1;
    OneUnitUp(n, scale);
    assert Significand(m) && ScaledDown(g, m, scale);
  }

  lemma OneUnitUp(n: nat, k: nat)
    ensures (n as real + 1.0 / Pow2(k) as real) * Pow2(k) as real == (n * Pow2(k) + 1) as real
  {
    Distribute(n as real, Pow2(k) as real);
  }

  lemma Distribute(x: real, p: real)
    requires p > 0.0
    ensures (x + 1.0 / p) * p == x * p + 1.0
  {
    assert (1.0 / p) * p == 1.0;
  }

  lemma Reciprocals(p: real, q: real)
    requires 0.0 < p < 2.0 * q
    ensures 1.0 / q < 2.0 / p
  {
    assert (1.0 / q) * q == 1.0 && (2.0 / p) * p == 2.0;
    if 1.0 / q >= 2.0 / p {
      Scale(2.0 / p, 1.0 / q, q);
      Scale(p, 2.0 * q, 2.0 / p);
    }
  }

  lemma Scale(x: real, y: real, z: real)
    requires x <= y && z >= 0.0
    ensures x * z <= y * z
  {
    assert (y - x) * z >= 0.0;
  }

  lemma Ratio(q: real, r: real, d: real)
    requires d > 0.0 && 0.0 <= r <= d - 1.0
    ensures (q * d + r) / d == q + r / d
    ensures 0.0 <= r / d < 1.0 && (r >= 1.0 ==> r / d >= 1.0 / d)
  {
    assert (r / d) * d == r && (1.0 / d) * d == 1.0;
    assert (q * d) / d == q;
    if r >= 1.0 { assert r / d - 1.0 / d == (r - 1.0) / d; }
  }

  /** Where a quotient lies between two whole numbers. */
  lemma Split(a: nat, b: nat)
    requires b >= 1
    ensures a as real / b as real == (a / b) as real + (a % b) as real / b as real
    ensures 0.0 <= (a % b) as real / b as real < 1.0
    ensures a % b >= 1 ==> (a % b) as real / b as real >= 1.0 / b as real
  {
    var q, r := a / b, a % b;
    assert a == q * b + r;
    assert a as real == q as real * b as real + r as real;
    Ratio(q as real, r as real, b as real);
  }

  lemma CeilDivMeaning(a: nat, b: nat)
    requires b >= 1
    ensures CeilDiv(a, b) == if a % b == 0 then a / b else a / b + 1
  {
    var q, r := a / b, a % b;
    assert a + b - 1 == q * b + (r + b - 1);
    if r == 0 {
      DivUnique(a + b - 1, b, q, b - 1);
    } else {
      assert q * b + b == (q + 1) * b;
      DivUnique(a + b - 1, b, q + 1, r - 1);
    }
  }

  lemma Product(d: int, b: nat)
    ensures (d >= 1 ==> d * b >= b) && (d <= -1 ==> d * b <= 0 - b)
  {
    if d >= 1 { Grows(d, b); }
    if d <= -1 { Grows(-d, b); assert (-d) * b == -(d * b); }
  }

  lemma DivUnique(x: nat, b: nat, q: nat, r: nat)
    requires b >= 1 && x == q * b + r && r < b
    ensures x / b == q
  {
    var d := x / b - q;
    assert x == (x / b) * b + x % b;
    assert d * b == r - x % b;
    Product(d, b);
  }

  lemma QuotientBound(a: nat, b: nat)
    requires b >= 1 && a < LIMIT && a % b != 0
    ensures 2 * (a / b) < LIMIT && (a / b) * b < LIMIT && a / b + 1 < LIMIT
  {
    var n := a / b;
    assert n * b + a % b == a;
    Monotone(n, 2, b);
  }

  lemma Inside(n: real, w: real, unit: real, half: real, f: real)
    requires half <= w < 1.0 && 0.0 < unit < 2.0 * half
    requires Gap(f, n + w) <= Gap(n + unit, n + w) && Gap(f, n + w) <= Gap(n + 1.0, n + w)
    ensures n < f <= n + 1.0
  {
  }

  /** Rounding any number above the whole number `n` has a competitor this little above `n`. */
  lemma Competitor(n: nat, b: nat, x: real, f: real) returns (unit: real)
    requires b >= 1 && n * b < LIMIT && 2 * n < LIMIT && Nearest(f, x)
    ensures 0.0 < unit < 2.0 * (1.0 / b as real) && Gap(f, x) <= Gap(n as real + unit, x)
  {
    var scale, g := NextAbove(n, b);
    unit := 1.0 / Pow2(scale) as real;
    assert Pow2(scale + 1) == 2 * Pow2(scale);
    Reciprocals(b as real, Pow2(scale) as real);
    assert 2.0 / b as real == 2.0 * (1.0 / b as real);
  }

  /** A number between two whole ones is rounded to something above the lower and at most the upper. */
  lemma RoundedInside(n: nat, w: real, b: nat, f: real)
    requires b >= 1 && n * b < LIMIT && 2 * n < LIMIT && n + 1 < LIMIT
    requires 1.0 / b as real <= w < 1.0 && Nearest(f, n as real + w)
    ensures n as real < f <= n as real + 1.0
  {
    WholeIsRepresentable(n + 1);
    var unit := Competitor(n, b, n as real + w, f);
    assert (n + 1) as real == n as real + 1.0;
    Inside(n as real, w, unit, 1.0 / b as real, f);
  }

  lemma CeilWhole(f: real, n: int)
    requires f == n as real
    ensures Ceil(f) == n
  {
    assert -f == (-n) as real;
  }

  lemma CeilInside(f: real, n: int)
    requires n as real < f <= n as real + 1.0
    ensures Ceil(f) == n + 1
  {
    var z := (-f).Floor;
    assert z as real <= -f < z as real + 1.0;
    assert (-n) as real == -(n as real) && (-n - 1) as real == -(n as real) - 1.0;
    assert -n - 1 <= z < -n;
  }

  lemma ExactQuotient(a: nat, b: nat, f: real)
    requires b >= 1 && a < LIMIT && a % b == 0 && Nearest(f, a as real / b as real)
    ensures f == (a / b) as real
  {
    Split(a, b);
    DivBelow(a, b, LIMIT) by { Monotone(LIMIT, 1, b); }
    WholeIsExact(f, a / b);
  }

  lemma InexactQuotient(a: nat, b: nat, f: real)
    requires b >= 1 && a < LIMIT && a % b != 0 && Nearest(f, a as real / b as real)
    ensures (a / b) as real < f <= (a / b) as real + 1.0
  {
    Split(a, b);
    QuotientBound(a, b);
    RoundedInside(a / b, (a % b) as real / b as real, b, f);
  }

  /** For totals and page sizes below 2^53 the floating-point ceiling is the whole-number ceiling. */
  lemma CeilingIsExact(a: nat, b: nat, f: real)
    requires b >= 1 && a < LIMIT && b < LIMIT
    requires Nearest(f, a as real / b as real)
    ensures Ceil(f) == CeilDiv(a, b)
  {
    CeilDivMeaning(a, b);
    if a % b == 0 {
      ExactQuotient(a, b, f);
      CeilWhole(f, a / b);
    } else {
      InexactQuotient(a, b, f);
      CeilInside(f, a / b);
    }
  }

  // ---- Every quotient can be rounded ----

  const HALF: nat := 0x10_0000_0000_0000

  lemma {:induction false} Pow2Sum(a: nat, b: nat)
    ensures Pow2(a + b) == Pow2(a) * Pow2(b)
    decreases b
  {
    if b > 0 {
      Pow2Sum(a, b - 1);
      assert Pow2(a) * (2 * Pow2(b - 1)) == 2 * (Pow2(a) * Pow2(b - 1));
    }
  }

  /** The scale at which the quotient needs exactly the bits of a significand. */
  lemma {:induction false} FindUnit(a: nat, b: nat, k: nat) returns (scale: nat)
    requires a >= 1 && a * Pow2(k) < LIMIT * b
    ensures HALF * b <= a * Pow2(scale) < LIMIT * b
    decreases LIMIT * b - a * Pow2(k)
  {
    if HALF * b <= a * Pow2(k) {
      scale := k;
    } else {
      Double(a, k);
      scale := FindUnit(a, b, k + 1);
    }
  }

  lemma WholeNotBetween(z: int, m: int)
    ensures z <= m ==> z as real <= m as real
    ensures z > m ==> z as real >= m as real + 1.0
  {
    if z > m { assert z as real - m as real == (z - m) as real; }
  }

  lemma RealProduct(x: int, y: int)
    ensures (x * y) as real == x as real * y as real
  {
  }

  lemma Reassociate(x: real, y: real, z: real)
    ensures x * (y * z) == (x * y) * z
  {
  }

  predicate NotBetween(y: real, m: nat) { y <= m as real || y >= m as real + 1.0 }

  lemma WholeFits(y: real, z: int, m: nat)
    requires y == z as real
    ensures NotBetween(y, m)
  {
    WholeNotBetween(z, m);
  }

  lemma UpIsWhole(g: real, q: int, pe: nat, pk: nat, m: nat)
    requires g == q as real * pe as real
    ensures NotBetween(g * pk as real, m)
  {
    RealProduct(q, pe);
    RealProduct(q * pe, pk);
    WholeFits(g * pk as real, q * pe * pk, m);
  }

  lemma DownReal(g: real, q: real, p: real, r: real, w: real)
    requires g * p == q && w == p * r
    ensures g * w == q * r
  {
    Reassociate(g, p, r);
  }

  lemma DownIsWhole(g: real, q: int, pe: nat, r: nat, w: nat, m: nat)
    requires g * pe as real == q as real && w == pe * r
    ensures NotBetween(g * w as real, m)
  {
    RealProduct(pe, r);
    RealProduct(q, r);
    DownReal(g, q as real, pe as real, r as real, w as real);
    WholeFits(g * w as real, q * r, m);
  }

  lemma BigProduct(y: real, r: real)
    requires y >= HALF as real && r >= 2.0
    ensures y * r >= LIMIT as real
  {
    Scale(HALF as real, y, r);
    Scale(2.0, r, HALF as real);
  }

  lemma FinerIsTooLong(g: real, q: int, pk: nat, r: nat, w: nat)
    requires g * w as real == q as real && w == pk * r && g * pk as real >= HALF as real && r >= 2
    ensures q >= LIMIT
  {
    RealProduct(pk, r);
    Reassociate(g, pk as real, r as real);
    BigProduct(g * pk as real, r as real);
    WholeNotBetween(LIMIT, q);
  }

  lemma FinerIsBelow(g: real, q: int, pk: nat, r: nat, w: nat, m: nat)
    requires q < LIMIT && g * w as real == q as real && w == pk * r && r >= 2 && m >= HALF
    ensures NotBetween(g * pk as real, m)
  {
    if g * pk as real >= HALF as real {
      FinerIsTooLong(g, q, pk, r, w);
    } else {
      WholeNotBetween(HALF, m);
    }
  }

  /** One power of two divides the other. */
  ghost predicate Comparable(p: nat, q: nat) { exists r: nat :: Quotient(p, q, r) || (r >= 2 && Quotient(q, p, r)) }

  predicate Quotient(p: nat, q: nat, r: nat) { q == p * r }

  lemma PowersCompare(e: nat, k: nat)
    ensures Comparable(Pow2(e), Pow2(k))
  {
    if e <= k {
      Pow2Sum(e, k - e);
      assert Quotient(Pow2(e), Pow2(k), Pow2(k - e));
    } else {
      Pow2Sum(k, e - k);
      assert Pow2(e - k) == 2 * Pow2(e - k - 1);
      assert Quotient(Pow2(k), Pow2(e), Pow2(e - k));
    }
  }

  lemma DownFits(g: real, q: int, pe: nat, pk: nat, m: nat)
    requires q < LIMIT && m >= HALF && g * pe as real == q as real && Comparable(pe, pk)
    ensures NotBetween(g * pk as real, m)
  {
    var r: nat :| Quotient(pe, pk, r) || (r >= 2 && Quotient(pk, pe, r));
    if Quotient(pe, pk, r) {
      DownIsWhole(g, q, pe, r, pk, m);
    } else {
      FinerIsBelow(g, q, pk, r, pe, m);
    }
  }

  lemma UpCase(g: real, q: int, e: nat, k: nat, m: nat)
    requires ScaledUp(g, q, e)
    ensures NotBetween(g * Pow2(k) as real, m)
  {
    UpIsWhole(g, q, Pow2(e), Pow2(k), m);
  }

  lemma DownCase(g: real, q: int, e: nat, k: nat, m: nat)
    requires ScaledDown(g, q, e) && q < LIMIT && m >= HALF
    ensures NotBetween(g * Pow2(k) as real, m)
  {
    PowersCompare(e, k);
    DownFits(g, q, Pow2(e), Pow2(k), m);
  }

  /** Between neighbours that use all the bits there is no representable number. */
  lemma NoneBetween(g: real, k: nat, m: nat)
    requires Representable(g) && m >= HALF
    ensures NotBetween(g * Pow2(k) as real, m)
  {
    var q: int, e: nat :| Significand(q) && (ScaledDown(g, q, e) || ScaledUp(g, q, e));
    if ScaledUp(g, q, e) {
      UpCase(g, q, e, k, m);
    } else {
      DownCase(g, q, e, k, m);
    }
  }

  lemma Neighbour(m: nat, k: nat) returns (x: real)
    requires HALF <= m <= LIMIT
    ensures Representable(x) && x * Pow2(k) as real == m as real
  {
    x := m as real / Pow2(k) as real;
    if m < LIMIT {
      assert Significand(m) && ScaledDown(x, m, k);
    } else if k == 0 {
      assert Pow2(0) == 1 && Pow2(1) == 2;
      assert Significand(HALF) && ScaledUp(x, HALF, 1);
    } else {
      assert Pow2(k) == 2 * Pow2(k - 1);
      Halve(x, Pow2(k - 1) as real);
      assert Significand(HALF) && ScaledDown(x, HALF, k - 1);
    }
  }

  lemma Halve(x: real, p: real)
    requires x * (2.0 * p) == LIMIT as real
    ensures x * p == HALF as real
  {
    assert x * (2.0 * p) == 2.0 * (x * p);
  }

  lemma Closest(f: real, lo: real, hi: real, x: real, g: real)
    requires lo <= x <= hi && (f == lo || f == hi) && Gap(f, x) <= Gap(lo, x) && Gap(f, x) <= Gap(hi, x)
    requires g <= lo || hi <= g
    ensures Gap(f, x) <= Gap(g, x)
  {
  }

  lemma ScaleStrictly(x: real, y: real, p: real)
    requires x < y && p > 0.0
    ensures x * p < y * p
  {
    assert (y - x) * p > 0.0;
  }

  lemma Ordered(x: real, y: real, p: real, xp: real, yp: real)
    requires p > 0.0 && x * p == xp && y * p == yp
    ensures x <= y <==> xp <= yp
  {
    if x <= y { Scale(x, y, p); } else { ScaleStrictly(y, x, p); }
  }

  lemma QuotientReal(x: real, a: real, b: real, p: real, q: real, r: real)
    requires b > 0.0 && x == a * p && x == q * b + r && 0.0 <= r < b
    ensures q <= (a / b) * p < q + 1.0
  {
    Swap(a, b, p);
    var y := x / b;
    assert y * b == x;
    assert (q + 1.0) * b == q * b + b;
    Ordered(q, y, b, q * b, x);
    Ordered(q + 1.0, y, b, q * b + b, x);
  }

  lemma QuotientScaled(a: nat, b: nat, p: nat, x: nat, q: nat, r: nat)
    requires b >= 1 && x == a * p && x == q * b + r && r < b
    ensures q as real <= (a as real / b as real) * p as real < q as real + 1.0
  {
    RealProduct(a, p);
    RealProduct(q, b);
    QuotientReal(x as real, a as real, b as real, p as real, q as real, r as real);
  }

  lemma Swap(a: real, b: real, p: real)
    requires b > 0.0
    ensures a * p / b == (a / b) * p
  {
    assert (a / b) * b == a;
    assert ((a / b) * p) * b == a * p;
  }

  lemma DivAtLeast(x: nat, b: nat, q: nat)
    requires b >= 1 && q * b <= x
    ensures q <= x / b
  {
    var d := x / b;
    assert x == d * b + x % b && b * (d + 1) == d * b + b;
    if q > d { Monotone(b, d + 1, q); }
  }

  lemma DivBelow(x: nat, b: nat, q: nat)
    requires b >= 1 && x < q * b
    ensures x / b < q
  {
    var d := x / b;
    assert x == d * b + x % b;
    if q <= d { Monotone(b, q, d); }
  }

  /** A quotient of whole numbers below 2^53 has a nearest representable number. */
  lemma NearestExists(a: nat, b: nat) returns (f: real)
    requires b >= 1 && a < LIMIT
    ensures Nearest(f, a as real / b as real)
  {
    var x := a as real / b as real;
    if a == 0 {
      f := 0.0;
      WholeIsRepresentable(0);
    } else {
      assert Pow2(0) == 1;
      Monotone(LIMIT, 1, b);
      var k := FindUnit(a, b, 0);
      DivAtLeast(a * Pow2(k), b, HALF);
      DivBelow(a * Pow2(k), b, LIMIT);
      var y := a * Pow2(k);
      assert y == (y / b) * b + y % b;
      QuotientScaled(a, b, Pow2(k), y, y / b, y % b);
      f := Round(x, y / b, k);
    }
  }

  function Closer(lo: real, hi: real, x: real): real { if Gap(lo, x) <= Gap(hi, x) then lo else hi }

  lemma Outside(lo: real, hi: real, x: real, g: real, m: real, p: real)
    requires p > 0.0 && lo * p == m && hi * p == m + 1.0 && m <= x * p < m + 1.0
    requires g * p <= m || g * p >= m + 1.0
    ensures Gap(Closer(lo, hi, x), x) <= Gap(g, x)
  {
    Ordered(lo, x, p, m, x * p);
    Ordered(x, hi, p, x * p, m + 1.0);
    if g * p <= m {
      Ordered(g, lo, p, g * p, m);
    } else {
      Ordered(hi, g, p, m + 1.0, g * p);
    }
    Closest(Closer(lo, hi, x), lo, hi, x, g);
  }

  /** `lo` and `hi` are the two numbers at scale `k` around `x`. */
  predicate Around(x: real, m: nat, p: real, lo: real, hi: real) {
    p > 0.0 && lo * p == m as real && hi * p == m as real + 1.0 && m as real <= x * p < m as real + 1.0
  }

  lemma Beats(x: real, m: nat, k: nat, lo: real, hi: real, g: real)
    requires m >= HALF && Around(x, m, Pow2(k) as real, lo, hi) && NotBetween(g * Pow2(k) as real, m)
    ensures Gap(Closer(lo, hi, x), x) <= Gap(g, x)
  {
    Outside(lo, hi, x, g, m as real, Pow2(k) as real);
  }

  lemma BeatsAll(x: real, m: nat, k: nat, lo: real, hi: real)
    requires m >= HALF && Around(x, m, Pow2(k) as real, lo, hi)
    ensures forall g: real :: Representable(g) ==> Gap(Closer(lo, hi, x), x) <= Gap(g, x)
  {
    forall g: real | Representable(g) ensures Gap(Closer(lo, hi, x), x) <= Gap(g, x) {
      NoneBetween(g, k, m);
      Beats(x, m, k, lo, hi, g);
    }
  }

  lemma Neighbours(x: real, m: nat, k: nat) returns (lo: real, hi: real)
    requires HALF <= m < LIMIT && m as real <= x * Pow2(k) as real < m as real + 1.0
    ensures Representable(lo) && Representable(hi) && Around(x, m, Pow2(k) as real, lo, hi)
  {
    lo := Neighbour(m, k);
    hi := Neighbour(m + 1, k);
    RealSum(m);
  }

  lemma Round(x: real, m: nat, k: nat) returns (f: real)
    requires HALF <= m < LIMIT && m as real <= x * Pow2(k) as real < m as real + 1.0
    ensures Nearest(f, x)
  {
    var lo, hi := Neighbours(x, m, k);
    f := Closer(lo, hi, x);
    BeatsAll(x, m, k, lo, hi);
  }

  lemma RealSum(m: int)
    ensures (m + 1) as real == m as real + 1.0
  {
  }
}
