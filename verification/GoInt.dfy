/** Go's 64-bit `int`, its truncating division, and decimal text. */
module GoInt {
  const TWO63: int := 0x8000_0000_0000_0000
  const TWO64: int := 0x1_0000_0000_0000_0000

  predicate IsInt64(n: int) {
    -TWO63 <= n < TWO63
  }

  type int64 = n: int | -0x8000_0000_0000_0000 <= n < 0x8000_0000_0000_0000

  /** The int64 congruent to n modulo 2^64: what a Go `+`, `-` or `*` leaves behind. */
  function Wrap64(n: int): (r: int)
    ensures IsInt64(r)
    ensures IsInt64(n) ==> r == n
  {
    (n + TWO63) % TWO64 - TWO63
  }

  /** Go's `/` truncates toward zero; Dafny's rounds so that the remainder is not negative. */
  function Quotient(a: int, b: int): (q: int)
    requires b > 0
    ensures a >= 0 ==> b * q <= a < b * q + b
    ensures a <= 0 ==> b * q - b < a <= b * q
  {
    if a >= 0 then a / b else -((-a) / b)
  }

  lemma Wrap64Unique(n: int, r: int, k: int)
    requires IsInt64(r) && n == r + k * TWO64
    ensures Wrap64(n) == r
  {
    ModUnique(n + TWO63, r + TWO63, k);
  }

  lemma ModUnique(n: int, r: int, k: int)
    requires 0 <= r < TWO64 && n == r + k * TWO64
    ensures n % TWO64 == r
  {
    var q, m := n / TWO64, n % TWO64;
    assert n == q * TWO64 + m;
    assert (q - k) * TWO64 == r - m;
    assert q == k;
  }

  lemma Wrap64Congruent(n: int) returns (k: int)
    ensures n == Wrap64(n) + k * TWO64
  {
    k := (n + TWO63) / TWO64;
  }

  /** Counting up with wrap-around is counting, wrapped. */
  lemma WrapNext(n: int)
    ensures Wrap64(Wrap64(n) + 1) == Wrap64(n + 1)
  {
    var j := Wrap64Congruent(n);
    var k := Wrap64Congruent(n + 1);
    assert Wrap64(n) + 1 == Wrap64(n + 1) + (k - j) * TWO64;
    Wrap64Unique(Wrap64(n) + 1, Wrap64(n + 1), k - j);
  }

  predicate IsDigit(c: char) {
    '0' <= c <= '9'
  }

  function DigitValue(c: char): (d: nat)
    requires IsDigit(c)
    ensures d < 10
  {
    c as nat - '0' as nat
  }

  function Digit(d: nat): (c: char)
    requires d < 10
    ensures IsDigit(c) && DigitValue(c) == d
  {
    "0123456789"[d]
  }

  /** The value of a run of digits, most significant first. */
  function DigitsValue(s: string): nat
    requires forall c | c in s :: IsDigit(c)
  {
    if s == "" then 0 else 10 * DigitsValue(s[..|s| - 1]) + DigitValue(s[|s| - 1])
  }

  /** What `%d` prints for a natural number. */
  function DecimalNat(n: nat): (s: string)
    ensures s != "" && forall c | c in s :: IsDigit(c)
    ensures s[0] == '0' ==> n == 0 && s == "0"
  {
    if n < 10 then [Digit(n)] else DecimalNat(n / 10) + [Digit(n % 10)]
  }

  /** What `%d` prints. */
  function Decimal(n: int): (s: string)
    ensures s != ""
  {
    if n < 0 then "-" + DecimalNat(-n) else DecimalNat(n)
  }

  function Power10(k: nat): (p: nat)
    ensures p > 0
  {
    if k == 0 then 1 else 10 * Power10(k - 1)
  }

  /** A number has as many digits as it takes. */
  lemma {:induction false} DigitsCount(n: nat)
    ensures n < Power10(|DecimalNat(n)|) && (n > 0 ==> Power10(|DecimalNat(n)| - 1) <= n)
  {
    if n >= 10 {
      DigitsCount(n / 10);
    } else {
      assert Power10(1) == 10 * Power10(0);
    }
  }

  lemma {:induction false} DecimalNatValue(n: nat)
    ensures DigitsValue(DecimalNat(n)) == n
  {
    if n < 10 {
      assert DecimalNat(n)[..0] == "";
    } else {
      DecimalNatValue(n / 10);
      assert DecimalNat(n)[..|DecimalNat(n)| - 1] == DecimalNat(n / 10);
    }
  }
}
