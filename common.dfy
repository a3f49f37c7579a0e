/** Shared vocabulary of the card-data engine: error kinds, result wrappers,
    bytes, and the character-level helpers the Go code gets from `strconv`
    and `strings`. Go strings hold UTF-8 bytes; here a string is a sequence
    of Unicode characters, and `StringBytes` is the UTF-8 conversion Go
    applies in `[]byte(s)`. */
module Common {

  /** The error kinds the core reports. `Message` gives the text the Go code
      builds with `fmt.Errorf`. */
  datatype Error =
    | InvalidBin                           // BIN shorter than 6 characters
    | InvalidLength                        // PAN length outside [13, 19]
    | BinTooLong                           // no room left for the check digit
    | UnknownBrand(brand: string)          // brand not in the registry
    | MissingSecret                        // CVC derivation without a key
    | PanFailed(cause: Error)              // GenerateCard wrapping a PAN error
    | CvcFailed(cause: Error)              // GenerateCard wrapping a CVC error
  {
    /** A wrapping error keeps its cause's text at the end, as `%w` does,
        and an unknown brand is named at the end of its text. */
    function Message(): (m: string)
      ensures |m| > 0
      ensures UnknownBrand? ==> |brand| < |m| && m[|m| - |brand|..] == brand
      ensures (PanFailed? || CvcFailed?) ==>
        |cause.Message()| < |m| && m[|m| - |cause.Message()|..] == cause.Message()
      decreases this
    {
      match this
      case InvalidBin => "BIN must be at least 6 digits"
      case InvalidLength => "PAN length must be between 13 and 19"
      case BinTooLong => "BIN too long for requested PAN length"
      case UnknownBrand(b) =>
        assert ("unknown brand: " + b)[15..] == b;
        "unknown brand: " + b
      case MissingSecret => "secret is required for CVC generation"
      case PanFailed(e) => "failed to generate PAN: " + e.Message()
      case CvcFailed(e) => "failed to generate CVC: " + e.Message()
    }
  }

  datatype Result<+T> = Ok(value: T) | Err(error: Error)

  datatype Outcome = Pass | Fail(error: Error)

  datatype Option<+T> = None | Some(value: T)

  type byte = x: int | 0 <= x < 256

  predicate IsDigit(c: char) {
    '0' <= c <= '9'
  }

  predicate AllDigits(s: string) {
    forall i :: 0 <= i < |s| ==> IsDigit(s[i])
  }

  lemma ConcatAssoc<T>(a: seq<T>, b: seq<T>, c: seq<T>)
    ensures (a + b) + c == a + (b + c)
  {
  }

  lemma AllDigitsConcat(a: string, b: string)
    requires AllDigits(a) && AllDigits(b)
    ensures AllDigits(a + b)
  {
    forall i | 0 <= i < |a + b|
      ensures IsDigit((a + b)[i])
    {
      if i < |a| {
        assert (a + b)[i] == a[i];
      } else {
        assert (a + b)[i] == b[i - |a|];
      }
    }
  }

  /** Cutting a concatenation at its first part's length gives the parts
      back. */
  lemma ConcatParts(a: string, b: string)
    ensures (a + b)[..|a|] == a && (a + b)[|a|..] == b
    ensures AllDigits(a) && AllDigits(b) ==> AllDigits(a + b)
  {
    if AllDigits(a) && AllDigits(b) {
      AllDigitsConcat(a, b);
    }
  }

  /** The same for three parts. */
  lemma ConcatParts3(a: string, b: string, c: string)
    ensures (a + b + c)[..|a|] == a && (a + b + c)[|a|..|a| + |b|] == b
    ensures (a + b + c)[|a| + |b|..] == c
    ensures AllDigits(a) && AllDigits(b) && AllDigits(c) ==> AllDigits(a + b + c)
  {
    ConcatParts(a, b);
    ConcatParts(a + b, c);
    assert (a + b + c)[|a|..|a| + |b|] == (a + b)[|a|..];
  }

  /** The value of a decimal digit character. */
  function DigitValue(c: char): (d: nat)
    requires IsDigit(c)
    ensures d < 10
  {
    c as int - '0' as int
  }

  /** The character of a decimal digit; what `strconv.Itoa` gives for 0..9. */
  function DigitChar(d: nat): (c: char)
    requires d < 10
    ensures IsDigit(c) && DigitValue(c) == d
  {
    ('0' as int + d) as char
  }

  /** `strings.Repeat(string(c), n)`. */
  function Repeat(c: char, n: nat): (r: string)
    ensures |r| == n
    ensures forall i :: 0 <= i < n ==> r[i] == c
  {
    if n == 0 then [] else [c] + Repeat(c, n - 1)
  }

  /** `strings.HasPrefix`. */
  predicate HasPrefix(s: string, prefix: string) {
    |prefix| <= |s| && s[..|prefix|] == prefix
  }

  /** `strings.ToLower`, restricted to ASCII letters. */
  function LowerAscii(s: string): (r: string)
    ensures |r| == |s|
    ensures forall i :: 0 <= i < |s| ==>
      if 'A' <= s[i] <= 'Z' then r[i] as int == s[i] as int + 32 else r[i] == s[i]
  {
    seq(|s|, i requires 0 <= i < |s| =>
      if 'A' <= s[i] <= 'Z' then (s[i] as int + 32) as char else s[i])
  }

  /** Lower-casing twice is lower-casing once. */
  lemma LowerAsciiIdempotent(s: string)
    ensures LowerAscii(LowerAscii(s)) == LowerAscii(s)
  {
  }

  // -----------------------------------------------------------------------
  // `[]byte(s)`: Go strings hold UTF-8, so a conversion to bytes encodes
  // every character in one to four bytes (RFC 3629, section 3).

  /** The UTF-8 encoding of one character. */
  function Utf8(c: char): (b: seq<byte>)
    ensures 1 <= |b| <= 4
    ensures c as int < 0x80 <==> |b| == 1
    ensures |b| == 1 ==> b[0] == c as int
  {
    var n := c as int;
    if n < 0x80 then [n]
    else if n < 0x800 then [0xC0 + n / 64, 0x80 + n % 64]
    else if n < 0x10000 then [0xE0 + n / 4096, 0x80 + (n / 64) % 64, 0x80 + n % 64]
    else [0xF0 + n / 262144, 0x80 + (n / 4096) % 64, 0x80 + (n / 64) % 64, 0x80 + n % 64]
  }

  /** How many bytes a sequence starting with `lead` takes. */
  function Utf8Length(lead: byte): nat {
    if lead < 0x80 then 1 else if lead < 0xE0 then 2 else if lead < 0xF0 then 3 else 4
  }

  /** The character value of one encoded sequence. */
  function Utf8Value(b: seq<byte>): int
    requires 1 <= |b| <= 4
  {
    if |b| == 1 then b[0] as int
    else if |b| == 2 then (b[0] as int - 0xC0) * 64 + (b[1] as int - 0x80)
    else if |b| == 3 then
      (b[0] as int - 0xE0) * 4096 + (b[1] as int - 0x80) * 64 + (b[2] as int - 0x80)
    else
      (b[0] as int - 0xF0) * 262144 + (b[1] as int - 0x80) * 4096
      + (b[2] as int - 0x80) * 64 + (b[3] as int - 0x80)
  }

  /** Decoding one encoded character: its lead byte gives its length and
      its bytes give back its value. */
  lemma Utf8RoundTrip(c: char)
    ensures Utf8Length(Utf8(c)[0]) == |Utf8(c)|
    ensures Utf8Value(Utf8(c)) == c as int
  {
    var n := c as int;
    if n >= 0x10000 {
      assert n == (n / 262144) * 262144 + ((n / 4096) % 64) * 4096 + ((n / 64) % 64) * 64 + n % 64;
    } else if n >= 0x800 {
      assert n == (n / 4096) * 4096 + ((n / 64) % 64) * 64 + n % 64;
    }
  }

  /** `[]byte(s)`. */
  function StringBytes(s: string): (b: seq<byte>)
    ensures |b| >= |s|
  {
    if s == [] then [] else Utf8(s[0]) + StringBytes(s[1..])
  }

  /** On ASCII text the bytes are the characters. */
  lemma {:induction false} StringBytesAscii(s: string)
    requires forall i :: 0 <= i < |s| ==> s[i] as int < 0x80
    ensures |StringBytes(s)| == |s|
    ensures forall i :: 0 <= i < |s| ==> StringBytes(s)[i] == s[i] as int
  {
    if s != [] {
      StringBytesAscii(s[1..]);
    }
  }

  /** Different strings give different bytes. */
  lemma {:induction false} StringBytesInjective(s: string, t: string)
    requires StringBytes(s) == StringBytes(t)
    ensures s == t
  {
    if s != [] && t != [] {
      var a, b := Utf8(s[0]), Utf8(t[0]);
      Utf8RoundTrip(s[0]);
      Utf8RoundTrip(t[0]);
      assert StringBytes(s)[0] == a[0] && StringBytes(t)[0] == b[0];
      assert |a| == |b|;
      assert a == StringBytes(s)[..|a|] && b == StringBytes(t)[..|b|];
      assert StringBytes(s[1..]) == StringBytes(s)[|a|..];
      assert StringBytes(t[1..]) == StringBytes(t)[|b|..];
      StringBytesInjective(s[1..], t[1..]);
      assert s == [s[0]] + s[1..] && t == [t[0]] + t[1..];
    }
  }

  /** Two-byte and three-byte characters. */
  lemma Utf8Examples()
    ensures StringBytes([256 as char]) == [0xC4, 0x80]
    ensures StringBytes([0 as char]) == [0]
    ensures StringBytes([0x20AC as char]) == [0xE2, 0x82, 0xAC]
  {
  }
}
