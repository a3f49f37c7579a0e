/** Card synthesis (internal/generator/generator.go): the brand registry,
    PAN construction, the keyed deterministic CVC, the Track2 string, PAN
    masking and the orchestration that builds one card.

    What the Go code draws from `crypto/rand` and `time.Now` is passed in:
    a stream of random decimal digits, the two draws of `GenerateExpiry`,
    and a clock reading. HMAC-SHA256 (RFC 2104, section 2) is a parameter
    `hmac` of type `Hmac`: any function from (key, message) to a 32-byte
    digest. */
module Generator {
  import opened Common
  import opened Decimal
  import opened Luhn
  import opened Models

  // ---------------------------------------------------------------------
  // Brand registry

  /** The brand registry, keyed by lower-case brand identifier. */
  const CardBrands: map<string, CardBrand> := map[
    "visa" := CardBrand(
      "Visa",
      [BinRange("400000", "499999", 16)],
      [13, 16, 19], 3, "201"),
    "mastercard" := CardBrand(
      "Mastercard",
      [BinRange("510000", "559999", 16), BinRange("222100", "272099", 16)],
      [16], 3, "201"),
    "amex" := CardBrand(
      "American Express",
      [BinRange("340000", "349999", 15), BinRange("370000", "379999", 15)],
      [15], 4, "201")
  ]

  /** A registry entry `GenerateCard` can use: it has a first BIN range,
      whose start is six digits and whose length is an allowed PAN length
      in [13, 19]. */
  predicate WellFormedBrand(b: CardBrand) {
    && |b.BinRanges| > 0
    && |b.PanLength| > 0
    && |b.BinRanges[0].Start| == 6
    && AllDigits(b.BinRanges[0].Start)
    && 13 <= b.BinRanges[0].Length <= 19
    && (forall r :: r in b.BinRanges ==> r.Length in b.PanLength)
  }

  lemma CardBrandsWellFormed()
    ensures forall key :: key in CardBrands ==> WellFormedBrand(CardBrands[key])
  {
    assert CardBrands.Keys == {"visa", "mastercard", "amex"};
    assert AllDigits("400000") && AllDigits("510000") && AllDigits("340000");
  }

  /** The registry entry for a brand identifier, compared in lower case. */
  function LookupBrand(brand: string): (r: Option<CardBrand>)
    ensures r.Some? <==> LowerAscii(brand) in CardBrands
    ensures r.Some? ==> r.value == CardBrands[LowerAscii(brand)] && WellFormedBrand(r.value)
  {
    CardBrandsWellFormed();
    if LowerAscii(brand) in CardBrands then Some(CardBrands[LowerAscii(brand)]) else None
  }

  /** The lookup ignores the case of ASCII letters. */
  lemma LookupBrandIgnoresCase(brand: string)
    ensures LookupBrand(brand) == LookupBrand(LowerAscii(brand))
  {
    LowerAsciiIdempotent(brand);
  }

  lemma LookupBrandExamples()
    ensures LookupBrand("VISA") == LookupBrand("visa") == Some(CardBrands["visa"])
    ensures LookupBrand("MasterCard") == Some(CardBrands["mastercard"])
    ensures LookupBrand("discover").None?
  {
    assert LowerAscii("VISA") == "visa";
    assert LowerAscii("visa") == "visa";
    assert LowerAscii("MasterCard") == "mastercard";
    assert LowerAscii("discover") == "discover";
  }

  /** The BIN used when the caller gives none: the start of the first range. */
  function DefaultBin(b: CardBrand): string
    requires WellFormedBrand(b)
  {
    b.BinRanges[0].Start
  }

  /** The PAN length `GenerateCard` asks for: the first range's length. */
  function TargetLength(b: CardBrand): (n: int)
    requires WellFormedBrand(b)
    ensures 13 <= n <= 19 && n in b.PanLength
  {
    assert b.BinRanges[0] in b.BinRanges;
    b.BinRanges[0].Length
  }

  // ---------------------------------------------------------------------
  // PAN construction

  /** The most filler digits a PAN can need: 19 - 6 - 1. */
  const MaxFillerDigits := 12

  /** `GeneratePAN`: three guards checked in order, then BIN + the first
      `length - |bin| - 1` digits of the random stream + the check digit.
      `rng` stands for `generateRandomDigits`. */
  method GeneratePan(bin: string, length: int, rng: string) returns (r: Result<string>)
    requires AllDigits(rng) && |rng| >= MaxFillerDigits
    ensures |bin| < 6 ==> r == Err(InvalidBin)
    ensures |bin| >= 6 && (length < 13 || length > 19) ==> r == Err(InvalidLength)
    ensures |bin| >= 6 && 13 <= length <= 19 && length - |bin| - 1 < 0 ==> r == Err(BinTooLong)
    ensures r.Ok? <==> |bin| >= 6 && 13 <= length <= 19 && |bin| < length
    ensures r.Ok? ==>
      && |r.value| == length
      && HasPrefix(r.value, bin)
      && r.value[|bin|..length - 1] == rng[..length - |bin| - 1]
      && r.value[length - 1] == DigitChar(CheckDigit(r.value[..length - 1]))
    ensures r.Ok? && AllDigits(bin) ==> LuhnValid(r.value)
  {
    if |bin| < 6 {
      return Err(InvalidBin);
    }
    if length < 13 || length > 19 {
      return Err(InvalidLength);
    }
    var randomDigitsNeeded := length - |bin| - 1;
    if randomDigitsNeeded < 0 {
      return Err(BinTooLong);
    }
    var randomPart := rng[..randomDigitsNeeded];
    var partialPan := bin + randomPart;
    var fullPan := AppendLuhnCheckDigit(partialPan);
    assert fullPan[..length - 1] == partialPan;
    assert fullPan[|bin|..length - 1] == randomPart;
    assert AllDigits(bin) ==> AllDigits(partialPan);
    return Ok(fullPan);
  }

  // ---------------------------------------------------------------------
  // Deterministic CVC

  type Digest = d: seq<byte> | |d| == 32 witness seq(32, i => 0)

  /** HMAC-SHA256 keyed with the first argument over the second. */
  type Hmac = (seq<byte>, seq<byte>) -> Digest

  /** The characters `hex.EncodeToString` writes. */
  predicate IsLowerHex(c: char) {
    '0' <= c <= '9' || 'a' <= c <= 'f'
  }

  /** The value of a lower-case hexadecimal digit. */
  function HexValue(c: char): (v: nat)
    requires IsLowerHex(c)
    ensures v < 16
  {
    if IsDigit(c) then DigitValue(c) else c as int - 'a' as int + 10
  }

  /** A lower-case hexadecimal digit. */
  function HexDigit(n: nat): (c: char)
    requires n < 16
    ensures IsLowerHex(c) && HexValue(c) == n
    ensures IsDigit(c) <==> n < 10
  {
    if n < 10 then DigitChar(n) else ('a' as int + n - 10) as char
  }

  /** `hex.EncodeToString`: two lower-case hex digits per byte, high nibble
      first. */
  function HexEncode(d: seq<byte>): (h: string)
    ensures |h| == 2 * |d|
    ensures forall i :: 0 <= i < |d| ==>
      h[2 * i] == HexDigit(d[i] / 16) && h[2 * i + 1] == HexDigit(d[i] % 16)
    ensures forall i :: 0 <= i < |h| ==> IsLowerHex(h[i])
  {
    if d == [] then []
    else
      var rest := HexEncode(d[1..]);
      var h := [HexDigit(d[0] / 16), HexDigit(d[0] % 16)] + rest;
      assert forall i :: 1 <= i < |d| ==> h[2 * i] == rest[2 * (i - 1)] && d[i] == d[1..][i - 1];
      h
  }

  /** `hex.DecodeString` on what `HexEncode` produces: each pair of digits,
      high nibble first, is one byte. */
  function HexDecode(h: string): (d: seq<byte>)
    requires |h| % 2 == 0 && forall i :: 0 <= i < |h| ==> IsLowerHex(h[i])
    ensures |d| == |h| / 2
  {
    if h == [] then [] else [16 * HexValue(h[0]) + HexValue(h[1])] + HexDecode(h[2..])
  }

  /** Decoding the hex rendering gives back the digest. */
  lemma {:induction false} HexRoundTrip(d: seq<byte>)
    ensures HexDecode(HexEncode(d)) == d
  {
    if d != [] {
      var h := HexEncode(d);
      assert h[2..] == HexEncode(d[1..]);
      HexRoundTrip(d[1..]);
      assert 16 * (d[0] / 16) + d[0] % 16 == d[0];
      assert d == [d[0]] + d[1..];
    }
  }

  /** The decimal digits of `s`, in order. */
  function NumericChars(s: string): (r: string)
    ensures AllDigits(r) && |r| <= |s|
  {
    if s == [] then []
    else NumericChars(s[..|s| - 1]) + (if IsDigit(s[|s| - 1]) then [s[|s| - 1]] else [])
  }

  /** The collected characters are exactly the digits occurring in `s`. */
  lemma {:induction false} NumericCharsMembers(s: string)
    ensures forall c :: c in NumericChars(s) <==> c in s && IsDigit(c)
    decreases |s|
  {
    if s != [] {
      NumericCharsMembers(s[..|s| - 1]);
      assert s == s[..|s| - 1] + [s[|s| - 1]];
    }
  }

  /** One more character of `s` adds itself when it is a digit. */
  lemma NumericCharsStep(s: string, i: nat)
    requires i < |s|
    ensures NumericChars(s[..i + 1])
         == NumericChars(s[..i]) + (if IsDigit(s[i]) then [s[i]] else [])
  {
    assert s[..i + 1][..i] == s[..i];
  }

  /** The digits collected from a prefix of `s` start the digits of `s`. */
  lemma {:induction false} NumericCharsPrefix(s: string, i: nat)
    requires i <= |s|
    ensures NumericChars(s[..i]) <= NumericChars(s)
    decreases |s|
  {
    if i < |s| {
      assert s[..i] == s[..|s| - 1][..i];
      NumericCharsPrefix(s[..|s| - 1], i);
    } else {
      assert s[..i] == s;
    }
  }

  /** The fallback: the first `n` digest bytes, each reduced modulo 10. */
  function FallbackDigits(hash: seq<byte>, n: nat): (r: string)
    requires n <= |hash|
    ensures |r| == n && AllDigits(r)
  {
    seq(n, i requires 0 <= i < n => DigitChar(hash[i] % 10))
  }

  /** The digit-extraction policy: the first `n` decimal characters of the
      hex digest; only when fewer exist, those followed by the fallback
      digits, cut to `n`. */
  function ExtractCvc(hex: string, hash: seq<byte>, n: nat): (r: string)
    requires n <= |hash|
    ensures |r| == n && AllDigits(r)
    ensures |NumericChars(hex)| >= n ==> r == NumericChars(hex)[..n]
    ensures |NumericChars(hex)| < n ==>
      r[..|NumericChars(hex)|] == NumericChars(hex)
      && r[|NumericChars(hex)|..] == FallbackDigits(hash, n)[..n - |NumericChars(hex)|]
  {
    var digits := NumericChars(hex);
    if |digits| >= n then digits[..n] else (digits + FallbackDigits(hash, n))[..n]
  }

  /** 4 for a 15-character PAN starting "34" or "37", else 3. */
  function CvcLength(pan: string): (n: nat)
    ensures n == 3 || n == 4
  {
    if |pan| == 15 && (HasPrefix(pan, "34") || HasPrefix(pan, "37")) then 4 else 3
  }

  /** The first six characters, or the whole PAN when shorter. */
  function Bin6(pan: string): (r: string)
    ensures |r| == if |pan| >= 6 then 6 else |pan|
    ensures HasPrefix(pan, r)
  {
    if |pan| >= 6 then pan[..6] else pan
  }

  /** The last four characters, or the whole PAN when shorter. */
  function Last4(pan: string): (r: string)
    ensures |r| == if |pan| >= 4 then 4 else |pan|
    ensures pan[|pan| - |r|..] == r
  {
    if |pan| >= 4 then pan[|pan| - 4..] else pan
  }

  /** Four parts joined by '|': each part sits between its separators. */
  predicate BarJoined(r: string, a: string, b: string, c: string, d: string) {
    var i, j, k := |a|, |a| + 1 + |b|, |a| + 1 + |b| + 1 + |c|;
    && |r| == k + 1 + |d|
    && r[..i] == a && r[i] == '|'
    && r[i + 1..j] == b && r[j] == '|'
    && r[j + 1..k] == c && r[k] == '|'
    && r[k + 1..] == d
  }

  lemma BarJoinedConcat(a: string, b: string, c: string, d: string)
    ensures BarJoined(a + "|" + b + "|" + c + "|" + d, a, b, c, d)
  {
    var ab := a + "|" + b;
    var abc := ab + "|" + c;
    ConcatParts(a + "|", b);
    ConcatParts(ab + "|", c);
    ConcatParts(abc + "|", d);
    assert (abc + "|" + d)[..|abc|] == abc;
    assert (ab + "|" + c)[..|ab|] == ab;
    assert (a + "|" + b)[..|a|] == a;
  }

  /** The signed payload `BIN6|LAST4|MM|YYYY`. */
  function CvcPayload(pan: string, expMonth: string, expYear: string): (r: string)
    ensures BarJoined(r, Bin6(pan), Last4(pan), expMonth, expYear)
  {
    BarJoinedConcat(Bin6(pan), Last4(pan), expMonth, expYear);
    Bin6(pan) + "|" + Last4(pan) + "|" + expMonth + "|" + expYear
  }

  /** The CVC `GenerateDeterministicCVC` derives. */
  function DeterministicCvc(pan: string, expMonth: string, expYear: string,
                            secret: string, hmac: Hmac): (r: Result<string>)
    ensures r.Err? <==> secret == ""
    ensures r.Err? ==> r.error == MissingSecret
    ensures r.Ok? ==> AllDigits(r.value)
    ensures r.Ok? ==> (|r.value| == 3 || |r.value| == 4)
    ensures r.Ok? ==> (|r.value| == 4 <==> |pan| == 15 && (HasPrefix(pan, "34") || HasPrefix(pan, "37")))
  {
    if secret == "" then Err(MissingSecret)
    else
      var hash := hmac(StringBytes(secret), StringBytes(CvcPayload(pan, expMonth, expYear)));
      Ok(ExtractCvc(HexEncode(hash), hash, CvcLength(pan)))
  }

  /** The CVC sees the PAN only through its first six characters, its last
      four and its length: two PANs that agree on those get the same CVC. */
  lemma CvcDependsOnlyOnBinLast4Length(p1: string, p2: string, expMonth: string,
                                        expYear: string, secret: string, hmac: Hmac)
    requires Bin6(p1) == Bin6(p2) && Last4(p1) == Last4(p2) && |p1| == |p2|
    ensures DeterministicCvc(p1, expMonth, expYear, secret, hmac)
         == DeterministicCvc(p2, expMonth, expYear, secret, hmac)
  {
    if |p1| == 15 {
      assert p1[..2] == Bin6(p1)[..2] && p2[..2] == Bin6(p2)[..2];
    }
    assert CvcLength(p1) == CvcLength(p2);
  }

  /** The first loop of `GenerateDeterministicCVC`: scan the hex digest,
      collecting decimal characters, and stop as soon as `n` are found. */
  method CollectDigits(hexHash: string, n: nat) returns (numericDigits: string)
    requires n > 0
    ensures |NumericChars(hexHash)| >= n ==> numericDigits == NumericChars(hexHash)[..n]
    ensures |NumericChars(hexHash)| < n ==> numericDigits == NumericChars(hexHash)
  {
    ghost var digits := NumericChars(hexHash);
    numericDigits := "";
    var i := 0;
    while i < |hexHash|
      invariant 0 <= i <= |hexHash|
      invariant numericDigits == NumericChars(hexHash[..i])
      invariant |numericDigits| < n
    {
      var c := hexHash[i];
      NumericCharsStep(hexHash, i);
      if IsDigit(c) {
        numericDigits := numericDigits + [c];
        if |numericDigits| == n {
          NumericCharsPrefix(hexHash, i + 1);
          assert numericDigits == digits[..n];
          return;
        }
      }
      i := i + 1;
    }
    assert hexHash[..|hexHash|] == hexHash;
  }

  /** The fallback loop: append `hash[i] % 10` for each of the first `n`
      digest bytes. */
  method AppendFallback(partial: string, hash: seq<byte>, n: nat) returns (numericDigits: string)
    requires n <= |hash|
    ensures numericDigits == partial + FallbackDigits(hash, n)
  {
    numericDigits := partial;
    var j := 0;
    while j < n
      invariant 0 <= j <= n
      invariant numericDigits == partial + FallbackDigits(hash, j)
    {
      ConcatAssoc(partial, FallbackDigits(hash, j), NatToString(hash[j] % 10));
      assert FallbackDigits(hash, j) + NatToString(hash[j] % 10) == FallbackDigits(hash, j + 1);
      numericDigits := numericDigits + NatToString(hash[j] % 10);
      j := j + 1;
    }
  }

  /** `GenerateDeterministicCVC`: the secret guard, the payload, the keyed
      digest, the length rule, then the two loops. */
  method GenerateDeterministicCvc(pan: string, expMonth: string, expYear: string,
                                  secret: string, hmac: Hmac) returns (r: Result<string>)
    ensures r == DeterministicCvc(pan, expMonth, expYear, secret, hmac)
  {
    if secret == "" {
      return Err(MissingSecret);
    }
    var bin6 := pan;
    if |pan| >= 6 {
      bin6 := pan[..6];
    }
    var last4 := pan;
    if |pan| >= 4 {
      last4 := pan[|pan| - 4..];
    }
    var payload := bin6 + "|" + last4 + "|" + expMonth + "|" + expYear;
    assert payload == CvcPayload(pan, expMonth, expYear);
    var hash := hmac(StringBytes(secret), StringBytes(payload));
    var hexHash := HexEncode(hash);
    var cvcLength := 3;
    if |pan| == 15 && (HasPrefix(pan, "34") || HasPrefix(pan, "37")) {
      cvcLength := 4;
    }
    assert cvcLength == CvcLength(pan);
    ghost var digits := NumericChars(hexHash);
    var numericDigits := CollectDigits(hexHash, cvcLength);
    if |numericDigits| < cvcLength {
      numericDigits := AppendFallback(numericDigits, hash, cvcLength);
      assert numericDigits == digits + FallbackDigits(hash, cvcLength);
    } else {
      assert numericDigits == digits[..cvcLength];
    }
    assert numericDigits[..cvcLength] == ExtractCvc(hexHash, hash, cvcLength);
    assert hash == hmac(StringBytes(secret), StringBytes(CvcPayload(pan, expMonth, expYear)));
    return Ok(numericDigits[..cvcLength]);
  }

  // ---------------------------------------------------------------------
  // Track2, masking, expiry

  /** `GenerateTrack2`: `PAN=YYMM<serviceCode><4 discretionary digits>`, no
      sentinels or LRC. The four digits come from the random source. */
  function GenerateTrack2(pan: string, month: int, year: int, serviceCode: string,
                          discretionary: string): (t: string)
    requires |discretionary| == 4 && AllDigits(discretionary)
    ensures HasPrefix(t, pan + "=")
    ensures |t| >= |pan| + 1 + |serviceCode| + 4 + 4
  {
    var yy, mm := FormatInt(GoRem(year, 100), 2), FormatInt(month, 2);
    HeadOfConcat(pan + "=", yy, mm, serviceCode, discretionary);
    pan + "=" + yy + mm + serviceCode + discretionary
  }

  lemma HeadOfConcat(head: string, a: string, b: string, c: string, d: string)
    ensures HasPrefix(head + a + b + c + d, head)
    ensures |head + a + b + c + d| == |head| + |a| + |b| + |c| + |d|
  {
    assert (head + a + b + c + d)[..|head|] == head;
  }

  /** How a Track2 string reads back: the PAN, '=', YY and MM as two
      digits each with the values `yy` and `mm`, the service code, then the
      discretionary data to the end. */
  predicate Track2Reads(t: string, pan: string, yy: nat, mm: nat, serviceCode: string,
                        discretionary: string)
  {
    var p := |pan|;
    && |t| == p + 1 + 4 + |serviceCode| + |discretionary|
    && t[..p] == pan && t[p] == '='
    && AllDigits(t[p + 1..p + 3]) && ParseNat(t[p + 1..p + 3]) == yy
    && AllDigits(t[p + 3..p + 5]) && ParseNat(t[p + 3..p + 5]) == mm
    && t[p + 5..p + 5 + |serviceCode|] == serviceCode
    && t[p + 5 + |serviceCode|..] == discretionary
  }

  /** Reading a Track2 string back: for a month below 100 and a
      non-negative year, every part sits at its fixed offset and the four
      expiry digits read back as `year % 100` and `month`. */
  lemma Track2Layout(pan: string, month: int, year: int, serviceCode: string,
                     discretionary: string)
    requires |discretionary| == 4 && AllDigits(discretionary)
    requires 0 <= month < 100 && year >= 0
    ensures Track2Reads(GenerateTrack2(pan, month, year, serviceCode, discretionary),
                        pan, year % 100, month, serviceCode, discretionary)
  {
    var yy, mm := FormatInt(GoRem(year, 100), 2), FormatInt(month, 2);
    TwoDigits(year % 100);
    TwoDigits(month);
    Track2Parts(pan, yy, mm, serviceCode, discretionary);
  }

  /** Offsets of the parts of `pan=YYMM<service code><discretionary>`. */
  lemma Track2Parts(pan: string, yy: string, mm: string, serviceCode: string,
                    discretionary: string)
    requires |yy| == 2 && |mm| == 2
    ensures var t := pan + "=" + yy + mm + serviceCode + discretionary;
      var p := |pan|;
      && |t| == p + 1 + 4 + |serviceCode| + |discretionary|
      && t[..p] == pan && t[p] == '='
      && t[p + 1..p + 3] == yy && t[p + 3..p + 5] == mm
      && t[p + 5..p + 5 + |serviceCode|] == serviceCode
      && t[p + 5 + |serviceCode|..] == discretionary
  {
    var head := pan + "=";
    var t := head + yy + mm + serviceCode + discretionary;
    assert t == head + (yy + mm + serviceCode + discretionary);
    assert t[..|pan|] == pan;
  }

  /** `MaskPAN`: same length; under 10 characters all '*', otherwise the
      first six and last four characters kept and the middle starred. */
  function MaskPan(pan: string): (m: string)
    ensures |m| == |pan|
    ensures forall i :: 0 <= i < |pan| ==>
      m[i] == if |pan| < 10 || 6 <= i < |pan| - 4 then '*' else pan[i]
  {
    if |pan| < 10 then Repeat('*', |pan|)
    else pan[..6] + Repeat('*', |pan| - 10) + pan[|pan| - 4..]
  }

  lemma MaskPanExamples()
    ensures MaskPan("4000000000000002") == "400000******0002"
    ensures MaskPan("4000000000006") == "400000***0006"
    ensures MaskPan("340000000000009") == "340000*****0009"
    ensures MaskPan("123456") == "******"
  {
    var a := MaskPan("4000000000000002");
    assert a == "400000******0002";
    var b := MaskPan("4000000000006");
    assert b == "400000***0006";
    var c := MaskPan("340000000000009");
    assert c == "340000*****0009";
    var d := MaskPan("123456");
    assert d == "******";
  }

  /** `GenerateExpiry` with its two draws passed in: a month in 1..12 and a
      year one to five years after the clock's. */
  function GenerateExpiry(now: Clock, monthDraw: nat, yearDraw: nat): (e: (int, int))
    requires monthDraw < 12 && yearDraw < 5
    ensures 1 <= e.0 <= 12
    ensures now.year < e.1 <= now.year + 5
  {
    (monthDraw + 1, now.year + yearDraw + 1)
  }

  // ---------------------------------------------------------------------
  // One complete card

  /** Everything `GenerateCard` draws at random. */
  datatype RandomDraws = RandomDraws(panDigits: string, monthDraw: nat, yearDraw: nat,
                                     trackDigits: string)
  {
    predicate Valid() {
      && AllDigits(panDigits) && |panDigits| >= MaxFillerDigits
      && monthDraw < 12 && yearDraw < 5
      && AllDigits(trackDigits) && |trackDigits| == 4
    }
  }

  /** With a registry BIN, the CVC length the derivation picks agrees with
      the brand's declared CVC length. */
  lemma DefaultBinCvcLength(b: CardBrand, pan: string)
    requires b in CardBrands.Values
    requires HasPrefix(pan, b.BinRanges[0].Start) && |pan| == b.BinRanges[0].Length
    ensures CvcLength(pan) == b.CvcLength
  {
    var key :| key in CardBrands && CardBrands[key] == b;
    assert key in {"visa", "mastercard", "amex"};
    assert pan[..2] == pan[..6][..2];
  }

  /** `GenerateCard`. */
  method GenerateCard(opts: GenerateOptions, draws: RandomDraws, now: Clock, hmac: Hmac)
    returns (r: Result<Card>)
    requires draws.Valid()
    ensures LookupBrand(opts.Brand).None? ==> r == Err(UnknownBrand(opts.Brand))
    ensures LookupBrand(opts.Brand).Some? ==>
      var b := LookupBrand(opts.Brand).value;
      var bin := if opts.Bin == "" then DefaultBin(b) else opts.Bin;
      && (r.Ok? <==> 6 <= |bin| < TargetLength(b))
      && (r.Err? ==> r.error == PanFailed(if |bin| < 6 then InvalidBin else BinTooLong))
      && (r.Ok? ==>
        var c := r.value;
        && |c.Pan| == TargetLength(b)
        && HasPrefix(c.Pan, bin)
        && (AllDigits(bin) ==> LuhnValid(c.Pan))
        && c.MaskedPan == MaskPan(c.Pan)
        && c.Brand == b.Name
        && (c.ExpiryMonth, c.ExpiryYear) == GenerateExpiry(now, draws.monthDraw, draws.yearDraw)
        && (c.Cvc == "" <==> opts.Secret == "")
        && (opts.Secret != "" ==>
              c.Cvc == DeterministicCvc(c.Pan, FormatInt(c.ExpiryMonth, 2),
                                        FormatInt(c.ExpiryYear, 0), opts.Secret, hmac).value)
        && (opts.Secret != "" && opts.Bin == "" ==> |c.Cvc| == b.CvcLength)
        && (c.Track2 != "" <==> opts.IncludeTrack2)
        && (opts.IncludeTrack2 ==>
              c.Track2 == GenerateTrack2(c.Pan, c.ExpiryMonth, c.ExpiryYear, b.ServiceCode,
                                         draws.trackDigits))
        && c.IsoFields == map[]
        && c.GeneratedAt == now
        && c.Metadata == opts.Metadata)
  {
    var brandConfig := LookupBrand(opts.Brand);
    if brandConfig.None? {
      return Err(UnknownBrand(opts.Brand));
    }
    var b := brandConfig.value;
    var bin := opts.Bin;
    if bin == "" {
      bin := b.BinRanges[0].Start;
    }
    var panLength := b.PanLength[0];
    if |b.BinRanges| > 0 {
      panLength := b.BinRanges[0].Length;
    }
    var pan := GeneratePan(bin, panLength, draws.panDigits);
    if pan.Err? {
      return Err(PanFailed(pan.error));
    }
    var (month, year) := GenerateExpiry(now, draws.monthDraw, draws.yearDraw);
    var cvc := "";
    if opts.Secret != "" {
      var derived := GenerateDeterministicCvc(pan.value, FormatInt(month, 2),
                                              FormatInt(year, 0), opts.Secret, hmac);
      if derived.Err? {
        // unreachable: the secret is non-empty here
        assert false;
      }
      cvc := derived.value;
      if opts.Bin == "" {
        DefaultBinCvcLength(b, pan.value);
      }
    }
    var track2 := "";
    if opts.IncludeTrack2 {
      track2 := GenerateTrack2(pan.value, month, year, b.ServiceCode, draws.trackDigits);
    }
    return Ok(Card(pan.value, MaskPan(pan.value), b.Name, month, year, cvc, track2,
                   map[], now, opts.Metadata));
  }
}
