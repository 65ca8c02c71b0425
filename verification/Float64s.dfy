/**
 Integers as Go's float64 holds them and encoding/json writes them: decoding rounds to 53
 significant bits, encoding picks the shortest decimal that decodes to the same float64.
 */
module Float64s {
  import opened GoInt
  import opened Options

  const TWO52: int := 0x10_0000_0000_0000
  const TWO53: int := 0x20_0000_0000_0000

  /** The distance between neighbouring float64s at n. */
  function Ulp(n: nat): (u: nat)
    ensures u > 0
  {
    if n < TWO53 then 1 else 2 * Ulp(n / 2)
  }

  /** The multiple of u nearest to n, ties to the even one. */
  function Nearest(n: nat, u: nat): nat
    requires u > 0
  {
    var r := n % u;
    if 2 * r < u || (2 * r == u && n / u % 2 == 0) then n - r else n - r + u
  }

  function Float64(n: int): int {
    if n >= 0 then Nearest(n, Ulp(n)) else 0 - Nearest(-n, Ulp(-n))
  }

  predicate FloatExact(n: int) {
    if n >= 0 then n % Ulp(n) == 0 else (-n) % Ulp(-n) == 0
  }

  /** Nearest gives a multiple of u, at most half of u away, and an even one if there are two such. */
  lemma NearestIsNear(n: nat, u: nat) returns (k: nat)
    requires u > 0
    ensures Nearest(n, u) == k * u && 2 * n - u <= 2 * Nearest(n, u) <= 2 * n + u
    ensures n / u <= k <= n / u + 1
    ensures 2 * Nearest(n, u) == 2 * n - u || 2 * Nearest(n, u) == 2 * n + u ==> k % 2 == 0
  {
    var q := n / u;
    assert n - n % u == q * u;
    k := if Nearest(n, u) == n - n % u then q else q + 1;
    assert (q + 1) * u == q * u + u;
  }

  /** An integer survives the trip through float64 exactly when it is a multiple of the spacing there. */
  lemma Float64Exact(n: int)
    ensures Float64(n) == n <==> FloatExact(n)
    ensures -TWO53 <= n <= TWO53 ==> FloatExact(n)
  {
    assert Ulp(TWO53) == 2 * Ulp(TWO53 / 2) == 2;
  }

  lemma FirstInexact()
    ensures !FloatExact(TWO53 + 1) && Float64(TWO53 + 1) == TWO53
  {
    assert Ulp(TWO53 + 1) == 2 * Ulp((TWO53 + 1) / 2) == 2;
  }

  // ---------------------------------------------------------------- rounding

  /** n has at most 53 significant bits above the spacing. */
  lemma {:induction false} UlpRange(n: nat)
    ensures n < TWO53 * Ulp(n)
    ensures n >= TWO53 ==> TWO52 * Ulp(n) <= n
  {
    if n >= TWO53 {
      UlpRange(n / 2);
      if n / 2 < TWO53 {
        assert Ulp(n / 2) == 1;
      }
    }
  }

  lemma {:induction false} SameUlp(n: nat, r: nat)
    requires r < TWO53 * Ulp(n) && (n >= TWO53 ==> TWO52 * Ulp(n) <= r)
    ensures Ulp(r) == Ulp(n)
  {
    if n >= TWO53 {
      var h := Ulp(n / 2);
      assert TWO52 * Ulp(n) == TWO53 * h && TWO53 * Ulp(n) == 2 * (TWO53 * h);
      assert TWO53 * h == 2 * (TWO52 * h);
      SameUlp(n / 2, r / 2);
    }
  }

  lemma {:induction false} UlpSteps(n: nat, m: nat)
    requires n <= m
    ensures Ulp(n) == Ulp(m) || 2 * Ulp(n) <= Ulp(m)
  {
    if n >= TWO53 {
      UlpSteps(n / 2, m / 2);
    }
  }

  lemma MulLess(a: int, b: int, u: nat)
    requires a < b
    ensures a * u + u <= b * u
  {
    var d: nat := b - a - 1;
    assert b * u == (a + 1 + d) * u == a * u + u + d * u;
  }

  /** The nearest multiple of u does not pass a multiple of u that n does not pass. */
  lemma NearestWithin(n: nat, u: nat, low: int, high: int)
    requires u > 0 && low * u <= n <= high * u
    ensures low * u <= Nearest(n, u) <= high * u
  {
    var k := NearestIsNear(n, u);
    if k < low {
      MulLess(k, low, u);
    }
    if high < k {
      MulLess(high, k, u);
    }
  }

  lemma Float64Range(n: nat)
    ensures Float64(n) <= TWO53 * Ulp(n) && (n >= TWO53 ==> TWO52 * Ulp(n) <= Float64(n))
  {
    UlpRange(n);
    NearestWithin(n, Ulp(n), if n >= TWO53 then TWO52 else 0, TWO53);
  }

  lemma MultipleMod(k: nat, u: nat)
    requires u > 0
    ensures k * u % u == 0
  {
    var q, m := k * u / u, k * u % u;
    assert k * u == q * u + m;
    if q < k {
      MulLess(q, k, u);
    } else if k < q {
      MulLess(k, q, u);
    }
  }

  /** What rounding leaves is a float64. */
  lemma Float64Twice(n: int)
    ensures Float64(Float64(n)) == Float64(n) && FloatExact(Float64(n))
  {
    if n < 0 {
      NatTwice(-n);
    } else {
      NatTwice(n);
    }
  }

  lemma NatTwice(n: nat)
    ensures Float64(Float64(n)) == Float64(n) && FloatExact(Float64(n))
  {
    var u, r := Ulp(n), Float64(n);
    Float64Exact(n);
    Float64Exact(r);
    if n >= TWO53 {
      var k := NearestIsNear(n, u);
      Float64Range(n);
      if r < TWO53 * u {
        SameUlp(n, r);
        MultipleMod(k, u);
      } else {
        UlpOfTop(n);
        MultipleMod(TWO52, 2 * u);
      }
    }
  }

  /** The top end of a range is the bottom of the next. */
  lemma UlpOfTop(n: nat)
    requires n >= TWO53
    ensures Ulp(TWO53 * Ulp(n)) == 2 * Ulp(n) && TWO53 * Ulp(n) == TWO52 * (2 * Ulp(n))
  {
    var u := Ulp(n);
    assert TWO53 == 2 * TWO52;
    assert TWO53 * u == 2 * (TWO52 * u);
    MulLess(TWO52, TWO53, u);
    SameUlp(n, TWO52 * u);
    MulLess(0, u, TWO53);
    assert TWO53 * u / 2 == TWO52 * u;
  }

  lemma NearestMonotone(a: nat, b: nat, u: nat)
    requires u > 0 && a <= b
    ensures Nearest(a, u) <= Nearest(b, u)
  {
    var j := NearestIsNear(a, u);
    var k := NearestIsNear(b, u);
    if j < k {
      MulLess(j, k, u);
    } else if k < j {
      MulLess(k, j, u);
      NoGap(a, b, u, j * u, k * u);
    }
  }

  lemma NoGap(a: nat, b: nat, u: nat, x: int, y: int)
    requires a <= b && y + u <= x && 2 * x <= 2 * a + u && 2 * b - u <= 2 * y
    ensures a == b
  {}

  lemma Float64Monotone(n: nat, m: nat)
    requires n <= m
    ensures Float64(n) <= Float64(m)
  {
    UlpSteps(n, m);
    if Ulp(n) == Ulp(m) {
      NearestMonotone(n, m, Ulp(n));
    } else {
      Float64Range(n);
      Float64Range(m);
      assert TWO53 * Ulp(n) == TWO52 * (2 * Ulp(n)) <= TWO52 * Ulp(m);
    }
  }

  // ---------------------------------------------------------------- the shortest decimal

  function Floor(v: nat, p: nat): (low: nat)
    requires p > 0
    ensures low <= v < low + p && low % p == 0 && (low + p) % p == 0
  {
    AroundAreMultiples(v, p);
    v / p * p
  }

  /** The multiple of p nearest to v among the two around v that decode to v. */
  function Rounded(v: nat, p: nat): Option<nat>
    requires p > 0
  {
    var low := Floor(v, p);
    if low == v then Some(v)
    else if Float64(low) == v && (Float64(low + p) != v || 2 * (v - low) < p) then Some(low)
    else if Float64(low + p) == v then Some(low + p)
    else None
  }

  /** The first power of ten, from the k-th down, that has a multiple to stand for v. */
  function Shortest(v: nat, k: nat): nat {
    if k == 0 then v
    else
      match Rounded(v, Power10(k))
      case Some(w) => w
      case None => Shortest(v, k - 1)
  }

  /** The number encoding/json writes for the float64 v: the fewest digits that decode to v, then zeros. */
  function Written(v: int): int {
    if v >= 0 then Shortest(v, |DecimalNat(v)|) else 0 - Shortest(-v, |DecimalNat(-v)|)
  }

  predicate Near(v: nat, p: nat, w: nat)
    requires p > 0
  {
    w % p == 0 && Float64(w) == v
  }

  function Distance(a: int, b: int): nat {
    if a < b then b - a else a - b
  }

  /** If any multiple of p decodes to v, Rounded finds the nearest of them. */
  lemma RoundedIsNearest(v: nat, p: nat)
    requires p > 0 && FloatExact(v)
    ensures Rounded(v, p).None? ==> forall m: nat :: !Near(v, p, m)
    ensures Rounded(v, p).Some? ==>
              && Near(v, p, Rounded(v, p).value)
              && forall m: nat | Near(v, p, m) :: Distance(Rounded(v, p).value, v) <= Distance(m, v)
  {
    var low := Floor(v, p);
    Float64Exact(v);
    forall m: nat | Near(v, p, m)
      ensures (m <= low && Float64(low) == v) || (low + p <= m && Float64(low + p) == v)
    {
      BetweenNear(v, p, m);
    }
  }

  /** With m, the multiple of p between it and v decodes to v too. */
  lemma BetweenNear(v: nat, p: nat, m: nat)
    requires p > 0 && FloatExact(v) && Near(v, p, m)
    ensures var low := Floor(v, p);
            (m <= low && Float64(low) == v) || (low + p <= m && Float64(low + p) == v)
  {
    var low := Floor(v, p);
    Float64Exact(v);
    MultiplesAround(v, p, m);
    if m <= low {
      Float64Monotone(m, low);
      Float64Monotone(low, v);
    } else {
      Float64Monotone(v, low + p);
      Float64Monotone(low + p, m);
    }
  }

  lemma AroundAreMultiples(v: nat, p: nat)
    requires p > 0
    ensures v / p * p <= v < v / p * p + p
    ensures v / p * p % p == 0 && (v / p * p + p) % p == 0
  {
    MultipleMod(v / p, p);
    MultipleMod(v / p + 1, p);
    assert v == v / p * p + v % p;
    assert (v / p + 1) * p == v / p * p + p;
  }

  lemma Apart(a: nat, b: nat, p: nat)
    requires p > 0 && a % p == 0 && b % p == 0 && a < b
    ensures a + p <= b
  {
    var q, r := a / p, b / p;
    assert a == q * p && b == r * p;
    if q < r {
      MulLess(q, r, p);
    } else if r < q {
      MulLess(r, q, p);
    }
  }

  lemma MultiplesAround(v: nat, p: nat, m: nat)
    requires p > 0 && m % p == 0
    ensures m <= Floor(v, p) || Floor(v, p) + p <= m
  {
    if Floor(v, p) < m {
      Apart(Floor(v, p), m, p);
    }
  }

  /** `k` is the power of ten that Shortest settles on. */
  lemma {:induction false} ShortestIsNearest(v: nat, top: nat) returns (k: nat)
    requires FloatExact(v)
    ensures k <= top && Near(v, Power10(k), Shortest(v, top))
    ensures forall m: nat | Near(v, Power10(k), m) :: Distance(Shortest(v, top), v) <= Distance(m, v)
    ensures forall j, m: nat | k < j <= top :: !Near(v, Power10(j), m)
  {
    Float64Exact(v);
    if top == 0 {
      k := 0;
    } else {
      RoundedIsNearest(v, Power10(top));
      if Rounded(v, Power10(top)).Some? {
        k := top;
      } else {
        k := ShortestIsNearest(v, top - 1);
      }
    }
  }

  lemma {:induction false} PowersGrow(j: nat, k: nat)
    requires j <= k
    ensures Power10(j) <= Power10(k) && Power10(k) % Power10(j) == 0
  {
    if j < k {
      PowersGrow(j, k - 1);
      var q := Power10(k - 1) / Power10(j);
      assert Power10(k) == (10 * q) * Power10(j);
      MultipleMod(10 * q, Power10(j));
    } else {
      MultipleMod(1, Power10(j));
    }
  }

  /** A number that decodes to v is below 10 v, and so below every higher power of ten. */
  lemma TooRound(v: nat, j: nat, m: nat)
    requires v > 0 && j > |DecimalNat(v)|
    ensures !Near(v, Power10(j), m)
  {
    if Near(v, Power10(j), m) {
      DigitsCount(v);
      PowersGrow(|DecimalNat(v)| + 1, j);
      assert Power10(|DecimalNat(v)| + 1) == 10 * Power10(|DecimalNat(v)|);
      if m < Power10(j) {
        SmallMultiple(m, Power10(j));
      }
      NotHalved(m);
    }
  }

  lemma SmallMultiple(m: nat, p: nat)
    requires p > 0 && m % p == 0 && m < p
    ensures m == 0
  {}

  lemma {:induction false} UlpSmall(m: nat)
    requires m > 0
    ensures Ulp(m) <= m
  {
    if m >= TWO53 {
      UlpSmall(m / 2);
    }
  }

  lemma NotHalved(m: nat)
    ensures m <= 2 * Float64(m) && (m == 0 ==> Float64(m) == 0)
  {
    if m > 0 {
      UlpSmall(m);
      var k := NearestIsNear(m, Ulp(m));
    }
  }

  /** w decodes to v, no number that does ends in more zeros than k, and of those with k zeros w is a nearest. */
  ghost predicate Settles(v: nat, k: nat, w: nat) {
    && Near(v, Power10(k), w)
    && (forall m: nat | Near(v, Power10(k), m) :: Distance(w, v) <= Distance(m, v))
    && forall j, m: nat | k < j :: !Near(v, Power10(j), m)
  }

  lemma WrittenIsShortest(v: nat) returns (k: nat)
    requires FloatExact(v) && v > 0
    ensures Written(v) >= 0 && Settles(v, k, Written(v))
  {
    var top := |DecimalNat(v)|;
    k := ShortestIsNearest(v, top);
    forall j, m: nat | k < j
      ensures !Near(v, Power10(j), m)
    {
      if top < j {
        TooRound(v, j, m);
      }
    }
  }

  /** Encoding and decoding again changes nothing. */
  lemma WrittenThenRead(v: int)
    requires FloatExact(v)
    ensures Float64(Written(v)) == v
  {
    if v > 0 {
      var k := WrittenIsShortest(v);
    } else if v < 0 {
      var k := WrittenIsShortest(-v);
    } else {
      WrittenZero();
    }
  }

  lemma WrittenZero()
    ensures Written(0) == 0
  {
    assert DecimalNat(0) == [Digit(0)];
    assert Power10(1) == 10 * Power10(0);
  }

  // ---------------------------------------------------------------- no ties

  function Power2(k: nat): (p: nat)
    ensures p > 0
  {
    if k == 0 then 1 else 2 * Power2(k - 1)
  }

  function Power5(k: nat): nat {
    if k == 0 then 1 else 5 * Power5(k - 1)
  }

  lemma {:induction false} Power5Odd(k: nat)
    ensures Power5(k) % 2 == 1
  {
    if k > 0 {
      Power5Odd(k - 1);
    }
  }

  lemma {:induction false} Factors(k: nat)
    ensures Power10(k) == Power2(k) * Power5(k) && Power2(k) <= Power10(k)
  {
    if k > 0 {
      Factors(k - 1);
      TenTimes(Power2(k - 1), Power5(k - 1), Power2(k), Power5(k));
    }
  }

  lemma TenTimes(a: nat, b: nat, a': nat, b': nat)
    requires a' == 2 * a && b' == 5 * b
    ensures a' * b' == 10 * (a * b)
  {}

  lemma Regroup(a: nat, b: nat, c: nat)
    ensures a * (b * c) == (a * b) * c
  {}

  lemma {:induction false} UlpIsPower(n: nat, k: nat) returns (q: nat)
    requires Power2(k) <= Ulp(n)
    ensures Ulp(n) == q * Power2(k)
  {
    if k == 0 {
      q := Ulp(n);
    } else {
      q := UlpIsPower(n / 2, k - 1);
    }
  }

  lemma OddFactor(c: int, f: int, t: int)
    requires 2 * c == f * t && f % 2 == 1
    ensures t % 2 == 0
  {
    var g := f / 2;
    assert f * t == (2 * g + 1) * t == 2 * (g * t) + t;
    assert t == 2 * (c - g * t);
  }

  /** If v is midway between two multiples of 10^k and itself a multiple of 2^k, it is one of 10^k. */
  lemma Midway(v: nat, k: nat, c: nat, t: nat)
    requires v == c * Power2(k) && 2 * v == t * Power10(k)
    ensures v % Power10(k) == 0
  {
    Factors(k);
    var a, b, p := Power2(k), Power5(k), Power10(k);
    assert a * (2 * c) == 2 * v;
    assert t * p == a * (b * t);
    Power5Odd(k);
    CancelFactor(a, 2 * c, b * t);
    OddFactor(c, b, t);
    assert 2 * v == 2 * (t / 2) * p;
    assert v == t / 2 * p;
    MultipleMod(t / 2, p);
  }

  lemma CancelFactor(a: nat, x: int, y: int)
    requires a > 0 && a * x == a * y
    ensures x == y
  {
    if x < y {
      MulLess(x, y, a);
    } else if y < x {
      MulLess(y, x, a);
    }
  }

  /** Two multiples that decode to v and are equally far from it have v among them. */
  lemma NoTies(v: nat, k: nat, m: nat, w: nat)
    requires Near(v, Power10(k), m) && Near(v, Power10(k), w) && m < w && v - m == w - v
    ensures v % Power10(k) == 0
  {
    var p := Power10(k);
    Apart(m, w, p);
    Factors(k);
    var c := MultipleOfPower(m, k);
    SumOfMultiples(m, w, p);
    Midway(v, k, c, (m + w) / p);
  }

  lemma SumOfMultiples(m: nat, w: nat, p: nat)
    requires p > 0 && m % p == 0 && w % p == 0
    ensures m + w == (m + w) / p * p
  {
    var x, y := m / p, w / p;
    assert m + w == x * p + y * p == (x + y) * p;
    MultipleMod(x + y, p);
  }

  /** Rounding m leaves a multiple of every power of two up to the spacing at m. */
  lemma MultipleOfPower(m: nat, k: nat) returns (c: nat)
    requires Power2(k) <= 2 * Distance(Float64(m), m)
    ensures Float64(m) == c * Power2(k)
  {
    var j := NearestIsNear(m, Ulp(m));
    var q := UlpIsPower(m, k);
    c := j * q;
    Regroup(j, q, Power2(k));
  }

  // ---------------------------------------------------------------- when an integer is written as it is

  /** m ends in more zeros than n. */
  ghost predicate MoreZeros(m: nat, n: nat) {
    exists j: nat :: m % Power10(j) == 0 && n % Power10(j) != 0
  }

  /** Among the numbers that decode to the same float64, n ends in the most zeros and is the nearest of those. */
  ghost predicate Preferred(n: nat) {
    forall m: nat | m != n && Float64(m) == Float64(n) ::
      MoreZeros(n, m) || (!MoreZeros(m, n) && Distance(n, Float64(n)) < Distance(m, Float64(n)))
  }

  /** Decoding and encoding returns n exactly if n is the preferred one. */
  lemma RewrittenExactly(n: nat)
    ensures Float64(n) >= 0 && (Written(Float64(n)) == n <==> Preferred(n))
  {
    NotHalved(n);
    Float64Twice(n);
    if n == 0 {
      WrittenZero();
      forall m: nat | m != 0
        ensures Float64(m) != 0
      {
        NotHalved(m);
      }
    } else {
      var v := Float64(n);
      var k := WrittenIsShortest(v);
      if Written(v) == n {
        forall m: nat | m != n && Float64(m) == v
          ensures MoreZeros(n, m) || (!MoreZeros(m, n) && Distance(n, v) < Distance(m, v))
        {
          WrittenWins(v, k, n, m);
        }
      } else {
        WrittenNotPreferred(v, k, n);
      }
    }
  }

  lemma WrittenWins(v: nat, k: nat, w: nat, m: nat)
    requires FloatExact(v) && Settles(v, k, w) && m != w && Float64(m) == v
    ensures MoreZeros(w, m) || (!MoreZeros(m, w) && Distance(w, v) < Distance(m, v))
  {
    if m % Power10(k) == 0 {
      NoMoreZeros(v, k, w, m);
      if Distance(w, v) == Distance(m, v) {
        NoTies(v, k, if m < w then m else w, if m < w then w else m);
        Float64Exact(v);
        assert Near(v, Power10(k), v);
      }
    }
  }

  lemma NoMoreZeros(v: nat, k: nat, w: nat, m: nat)
    requires Settles(v, k, w) && Float64(m) == v
    ensures !MoreZeros(m, w)
  {
    forall j: nat | m % Power10(j) == 0
      ensures w % Power10(j) == 0
    {
      assert Near(v, Power10(j), m);
      PowersDivide(j, k, w);
    }
  }

  lemma PowersDivide(j: nat, k: nat, w: nat)
    requires j <= k && w % Power10(k) == 0
    ensures w % Power10(j) == 0
  {
    PowersGrow(j, k);
    var a, b := w / Power10(k), Power10(k) / Power10(j);
    assert w == a * Power10(k) && Power10(k) == b * Power10(j);
    assert w == (a * b) * Power10(j);
    MultipleMod(a * b, Power10(j));
  }

  lemma WrittenNotPreferred(v: nat, k: nat, n: nat)
    requires FloatExact(v) && Settles(v, k, Written(v)) && Float64(n) == v && Written(v) != n
    ensures !Preferred(n)
  {
    var w := Written(v);
    NoMoreZeros(v, k, w, n);
    if n % Power10(k) == 0 {
      assert Near(v, Power10(k), n);
    } else {
      assert MoreZeros(w, n);
    }
  }

  /** Up to 2^53 everything is written as it is. */
  lemma SmallRewritten(n: nat)
    requires n <= TWO53
    ensures Float64(n) == Written(n) == n
  {
    Float64Exact(n);
    if n == 0 {
      WrittenZero();
    } else {
      var k := WrittenIsShortest(n);
      DecodesToSmall(n, Written(n));
      if Written(n) != n {
        NotTheOneAbove(k);
      }
    }
  }

  lemma NotTheOneAbove(k: nat)
    ensures !Settles(TWO53, k, TWO53 + 1)
  {
    if k > 0 {
      if (TWO53 + 1) % Power10(k) == 0 {
        TenDivides(TWO53 + 1, k);
      }
    } else {
      Float64Exact(TWO53);
      assert Near(TWO53, Power10(0), TWO53);
    }
  }

  lemma KeepsTheZero(v: nat, k: nat, w: nat, m: nat)
    requires Settles(v, k, w) && Float64(m) == v && m % 10 == 0
    ensures w % 10 == 0
  {
    if k == 0 {
      assert Power10(1) == 10 * Power10(0);
      assert Near(v, Power10(1), m);
    } else {
      TenDivides(w, k);
    }
  }

  lemma DecodesToSmall(n: nat, w: nat)
    requires n <= TWO53 && Float64(w) == n
    ensures w == n || (n == TWO53 && w == TWO53 + 1)
  {
    if TWO53 + 2 <= w {
      assert Ulp(TWO53 + 2) == 2 * Ulp((TWO53 + 2) / 2) == 2;
      Float64Monotone(TWO53 + 2, w);
    } else {
      Float64Exact(w);
      FirstInexact();
    }
  }

  lemma TenDivides(w: nat, k: nat)
    requires k > 0 && w % Power10(k) == 0
    ensures w % 10 == 0
  {
    assert Power10(1) == 10 * Power10(0);
    PowersDivide(1, k, w);
  }

  const TWO56: int := 0x100_0000_0000_0000

  lemma UlpsAround56(n: nat)
    requires TWO56 <= 2 * n < 4 * TWO56
    ensures Ulp(n) == if n < TWO56 then 8 else 16
  {
    assert n / 2 / 2 == n / 4 && n / 4 / 2 == n / 8 && n / 8 / 2 == n / 16;
    assert Ulp(n) == 2 * Ulp(n / 2) == 4 * Ulp(n / 4) == 8 * Ulp(n / 8);
  }

  /** The float64 2^56 is written as 72057594037927940. */
  lemma LargeRewritten() returns (v: nat)
    ensures v == TWO56 && FloatExact(v) && Written(v) == 72057594037927940 != v
  {
    v := TWO56;
    var m: nat := 72057594037927940;
    UlpsAround56(v);
    UlpsAround56(m);
    forall w: nat | Float64(w) == v
      ensures m - 10 < w < m + 10
    {
      OneMultipleOfTen(w);
    }
    OnlyMultipleOfTen(v, m);
  }

  /** If m is the only multiple of ten that decodes to v, it is what is written. */
  lemma OnlyMultipleOfTen(v: nat, m: nat)
    requires FloatExact(v) && v > 0 && Float64(m) == v && m % 10 == 0
    requires forall w: nat | Float64(w) == v :: m - 10 < w < m + 10
    ensures Written(v) == m
  {
    WrittenKeepsTheZero(v, m);
    if m < Written(v) {
      Apart(m, Written(v), 10);
    } else if Written(v) < m {
      Apart(Written(v), m, 10);
    }
  }

  lemma WrittenKeepsTheZero(v: nat, m: nat)
    requires FloatExact(v) && v > 0 && Float64(m) == v && m % 10 == 0
    ensures Written(v) >= 0 && Float64(Written(v)) == v && Written(v) % 10 == 0
  {
    var k := WrittenIsShortest(v);
    KeepsTheZero(v, k, Written(v), m);
  }

  lemma OneMultipleOfTen(w: nat)
    requires Float64(w) == TWO56
    ensures 72057594037927930 < w < 72057594037927950
  {
    UlpsAround56(72057594037927930);
    UlpsAround56(72057594037927950);
    if w <= 72057594037927930 {
      Float64Monotone(w, 72057594037927930);
    } else if 72057594037927950 <= w {
      Float64Monotone(72057594037927950, w);
    }
  }

  function Abs(n: int): nat {
    if n < 0 then -n else n
  }

  lemma NatRewritten(n: nat)
    ensures var w := Written(Float64(n));
            && w >= 0 && Float64(w) == Float64(n) >= 0 && Preferred(w)
            && (w == n <==> Preferred(n)) && (n <= TWO53 ==> w == n)
  {
    var v := Float64(n);
    RewrittenExactly(n);
    Float64Twice(n);
    WrittenThenRead(v);
    if v > 0 {
      var k := WrittenIsShortest(v);
    } else {
      WrittenZero();
    }
    RewrittenExactly(Written(v));
    if n <= TWO53 {
      SmallRewritten(n);
    }
  }

  /** What comes back for any integer decodes to the same float64, and is the preferred number that does. */
  lemma Rewritten(n: int)
    ensures var w := Written(Float64(n));
            && Float64(w) == Float64(n) && Preferred(Abs(w))
            && (w == n <==> Preferred(Abs(n)))
            && (-TWO53 <= n <= TWO53 ==> w == n)
  {
    NatRewritten(Abs(n));
    if n < 0 {
      Negated(-n);
    }
  }

  lemma Float64Negated(n: int)
    ensures Float64(-n) == -Float64(n)
  {
    if n == 0 {
      NotHalved(0);
    }
  }

  lemma WrittenNegated(v: int)
    ensures Written(-v) == -Written(v)
  {
    if v == 0 {
      WrittenZero();
    }
  }

  lemma Negated(n: int)
    ensures Float64(-n) == -Float64(n)
    ensures Written(Float64(-n)) == -Written(Float64(n))
    ensures Float64(Written(Float64(-n))) == -Float64(Written(Float64(n)))
  {
    Float64Negated(n);
    WrittenNegated(Float64(n));
    Float64Negated(Written(Float64(n)));
  }
}
