/** Decimal rendering as the Go code does it with `strconv.Itoa`, `%d` and
    the zero-padded verbs `%02d`, `%06d`, `%012d`, together with the reading
    back (`ParseNat`) that serves as its partner: every rendering of a
    non-negative number reads back as that number. */
module Decimal {
  import opened Common

  function Pow10(k: nat): (p: nat)
    ensures p >= 1
  {
    if k == 0 then 1 else 10 * Pow10(k - 1)
  }

  /** The value of a string of decimal digits, most significant first. */
  function ParseNat(s: string): nat
    requires AllDigits(s)
  {
    if s == [] then 0 else 10 * ParseNat(s[..|s| - 1]) + DigitValue(s[|s| - 1])
  }

  /** `s` is a string of decimal digits whose value is `n`. */
  predicate Reads(s: string, n: int) {
    AllDigits(s) && ParseNat(s) == n
  }

  /** `strconv.Itoa` on a non-negative number: the shortest decimal
      rendering. */
  function NatToString(n: nat): (s: string)
    ensures 1 <= |s| && AllDigits(s)
    ensures ParseNat(s) == n
    ensures n < 10 <==> |s| == 1
  {
    if n < 10 then [DigitChar(n)]
    else
      var prefix := NatToString(n / 10);
      var s := prefix + [DigitChar(n % 10)];
      assert s[..|s| - 1] == prefix;
      s
  }

  /** The rendering of a positive number does not start with '0'. */
  lemma {:induction false} NoLeadingZero(n: nat)
    requires n >= 1
    ensures NatToString(n)[0] != '0'
  {
    if n >= 10 {
      NoLeadingZero(n / 10);
      assert NatToString(n)[0] == NatToString(n / 10)[0];
    }
  }

  /** The rendering of `n` fits in `k` characters exactly when `n < 10^k`. */
  lemma {:induction false} NatToStringLength(n: nat, k: nat)
    requires 1 <= k
    ensures |NatToString(n)| <= k <==> n < Pow10(k)
    decreases k
  {
    if n >= 10 && k > 1 {
      NatToStringLength(n / 10, k - 1);
    } else if n >= 10 {
      assert Pow10(1) == 10;
    } else if k > 1 {
      Pow10Grows(k);
    }
  }

  lemma {:induction false} Pow10Grows(k: nat)
    requires 1 <= k
    ensures Pow10(k) >= 10
  {
    if k > 1 { Pow10Grows(k - 1); }
  }

  /** Leading zeros do not change the value that is read back. */
  lemma {:induction false} ParseNatLeadingZeros(k: nat, s: string)
    requires AllDigits(s)
    ensures AllDigits(Repeat('0', k) + s)
    ensures ParseNat(Repeat('0', k) + s) == ParseNat(s)
    decreases |s|, k
  {
    var z := Repeat('0', k) + s;
    if s == [] {
      if k > 0 {
        assert z[..|z| - 1] == Repeat('0', k - 1) + s;
        ParseNatLeadingZeros(k - 1, s);
      }
    } else {
      assert z[..|z| - 1] == Repeat('0', k) + s[..|s| - 1];
      ParseNatLeadingZeros(k, s[..|s| - 1]);
    }
  }

  /** The digits of `m`, zero-padded on the left to `width` and no
      further: a rendering longer than `width` has no leading zero. */
  function PadNat(m: nat, width: nat): (r: string)
    ensures AllDigits(r) && ParseNat(r) == m
    ensures |r| >= width && |r| >= 1
    ensures |r| > width && |r| > 1 ==> r[0] != '0'
  {
    var digits := NatToString(m);
    if |digits| >= width then
      if m >= 1 then NoLeadingZero(m); digits else digits
    else
      ParseNatLeadingZeros(width - |digits|, digits);
      Repeat('0', width - |digits|) + digits
  }

  /** Go's `fmt.Sprintf("%0<width>d", n)`, and `%d` when `width` is 0: a
      negative number keeps its sign in front and the zeros go after it,
      the sign counting towards the width. */
  function FormatInt(n: int, width: nat): (r: string)
    ensures |r| >= width
    ensures n >= 0 ==> AllDigits(r) && ParseNat(r) == n
    ensures n < 0 ==> |r| >= 2 && r[0] == '-' && AllDigits(r[1..]) && ParseNat(r[1..]) == -n
    ensures n >= 0 && |r| > width && |r| > 1 ==> r[0] != '0'
    ensures n < 0 && |r| > width && |r| > 2 ==> r[1] != '0'
  {
    if n >= 0 then PadNat(n, width)
    else
      var digits := PadNat(-n, if width > 0 then width - 1 else 0);
      assert ("-" + digits)[1..] == digits;
      "-" + digits
  }

  /** A zero-padded rendering of a number below `10^width` is exactly
      `width` digits long. */
  lemma FormatIntWidth(n: int, width: nat)
    requires 1 <= width && 0 <= n < Pow10(width)
    ensures |FormatInt(n, width)| == width
  {
    NatToStringLength(n, width);
  }

  /** Go's `%` on integers truncates toward zero: the remainder takes the
      sign of the dividend. */
  function GoRem(a: int, b: int): (r: int)
    requires b > 0
    ensures a >= 0 ==> 0 <= r < b && r == a % b
    ensures a < 0 ==> -b < r <= 0
    ensures (a - r) % b == 0
  {
    var q := if a >= 0 then a / b else -((-a) / b);
    var r := if a >= 0 then a % b else -((-a) % b);
    assert a - r == q * b;
    MultipleMod(q, b);
    r
  }

  /** A multiple of `b` leaves no remainder. */
  lemma MultipleMod(q: int, b: int)
    requires b > 0
    ensures (q * b) % b == 0
  {
    DivisionUnique(q * b, b, q, 0);
  }

  /** A quotient and remainder in range are the quotient and remainder. */
  lemma DivisionUnique(y: int, b: int, q: int, m: int)
    requires b > 0 && 0 <= m < b && y == q * b + m
    ensures y % b == m
  {
    var k := y / b - q;
    assert y == (y / b) * b + y % b;
    assert k * b == (y / b) * b - q * b;
    assert k * b == m - y % b;
    MultipleBound(k, b);
  }

  /** A non-zero multiple of `b` is at least `b` away from zero. */
  lemma {:induction false} MultipleBound(k: int, b: int)
    requires b > 0
    ensures k >= 1 ==> k * b >= b
    ensures k <= -1 ==> k * b <= -b
    decreases if k < 0 then -k else k
  {
    if k > 1 {
      MultipleBound(k - 1, b);
      assert k * b == (k - 1) * b + b;
    } else if k < -1 {
      MultipleBound(k + 1, b);
      assert k * b == (k + 1) * b - b;
    }
  }

  /** `%02d` of a value in 0..99 is two digits reading back as it. */
  lemma TwoDigits(n: int)
    requires 0 <= n < 100
    ensures |FormatInt(n, 2)| == 2 && Reads(FormatInt(n, 2), n)
  {
    assert Pow10(2) == 100;
    FormatIntWidth(n, 2);
  }
}
