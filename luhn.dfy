/** The mod-10 "double-add-double" checksum of ISO/IEC 7812-1, Annex B
    (internal/generator/luhn.go).

    Both Go functions walk the string from the right. `ValidateLuhn` leaves
    the rightmost digit undoubled; `CalculateLuhnCheckDigit` doubles the
    rightmost digit of the partial PAN, because once the check digit is
    appended that digit becomes the second from the right. The inverted
    parity is what makes the appended string validate (`AppendedPanValidates`),
    not an inconsistency. */
module Luhn {
  import opened Common
  import opened Decimal

  /** The contribution of one digit: a doubled digit above 9 loses 9. */
  function Weight(d: nat, doubled: bool): (w: nat)
    requires d < 10
    ensures w < 10
    ensures !doubled ==> w == d
  {
    if doubled then (if 2 * d > 9 then 2 * d - 9 else 2 * d) else d
  }

  /** The Luhn sum of `s`, scanning right to left; `doubleLast` says whether
      the rightmost digit is doubled, and the doubling alternates from there. */
  function LuhnSum(s: string, doubleLast: bool): nat
    requires AllDigits(s)
  {
    if s == [] then 0
    else Weight(DigitValue(s[|s| - 1]), doubleLast) + LuhnSum(s[..|s| - 1], !doubleLast)
  }

  /** What `ValidateLuhn` accepts: 13 to 19 decimal digits whose sum, with
      the rightmost digit undoubled, is a multiple of 10. */
  predicate LuhnValid(pan: string) {
    13 <= |pan| <= 19 && AllDigits(pan) && LuhnSum(pan, false) % 10 == 0
  }

  /** What `CalculateLuhnCheckDigit` returns: the digit that completes the
      sum with the rightmost digit of `partial` doubled; 0 as soon as a
      non-digit is met. */
  function CheckDigit(partial: string): (d: nat)
    ensures d < 10
    ensures !AllDigits(partial) ==> d == 0
  {
    if AllDigits(partial) then (10 - LuhnSum(partial, true) % 10) % 10 else 0
  }

  /** Prepending a digit to a string adds its weight at the parity its
      distance from the right end gives it. */
  lemma {:induction false} LuhnSumPrepend(c: char, t: string, doubleLast: bool)
    requires IsDigit(c) && AllDigits(t)
    ensures AllDigits([c] + t)
    ensures LuhnSum([c] + t, doubleLast)
         == Weight(DigitValue(c), if |t| % 2 == 0 then doubleLast else !doubleLast)
            + LuhnSum(t, doubleLast)
    decreases |t|
  {
    var s := [c] + t;
    if t == [] {
      assert s[..|s| - 1] == [];
    } else {
      assert s[..|s| - 1] == [c] + t[..|t| - 1];
      assert s[|s| - 1] == t[|t| - 1];
      LuhnSumPrepend(c, t[..|t| - 1], !doubleLast);
    }
  }

  /** One step of the right-to-left walk: the suffix from `i` adds the
      weight of `s[i]` to the suffix after it. */
  lemma LuhnSumStep(s: string, i: nat, doubleLast: bool)
    requires i < |s| && IsDigit(s[i]) && AllDigits(s[i + 1..])
    ensures AllDigits(s[i..])
    ensures LuhnSum(s[i..], doubleLast)
         == Weight(DigitValue(s[i]), if |s[i + 1..]| % 2 == 0 then doubleLast else !doubleLast)
            + LuhnSum(s[i + 1..], doubleLast)
  {
    LuhnSumPrepend(s[i], s[i + 1..], doubleLast);
    assert [s[i]] + s[i + 1..] == s[i..];
  }

  /** Appending a digit shifts every earlier digit by one place, so the old
      rightmost digit becomes doubled: the parity inversion. */
  lemma ParityInversion(p: string, c: char)
    requires AllDigits(p) && IsDigit(c)
    ensures AllDigits(p + [c])
    ensures LuhnSum(p + [c], false) == DigitValue(c) + LuhnSum(p, true)
  {
    var s := p + [c];
    assert s[..|s| - 1] == p;
  }

  /** The central property: appending the computed check digit to any
      all-digit partial PAN of 12 to 18 digits gives a valid PAN. */
  lemma AppendedPanValidates(p: string)
    requires AllDigits(p) && 12 <= |p| <= 18
    ensures LuhnValid(p + [DigitChar(CheckDigit(p))])
  {
    CheckDigitUnique(p, CheckDigit(p));
  }

  /** The check digit is the only digit that makes the extended string
      validate. */
  lemma CheckDigitUnique(p: string, d: nat)
    requires AllDigits(p) && 12 <= |p| <= 18 && d < 10
    ensures LuhnValid(p + [DigitChar(d)]) <==> d == CheckDigit(p)
  {
    ParityInversion(p, DigitChar(d));
    CompletesToTen(LuhnSum(p, true), d);
  }

  /** Among the digits, exactly one brings a sum to a multiple of ten. */
  lemma CompletesToTen(sum: nat, d: nat)
    requires d < 10
    ensures (d + sum) % 10 == 0 <==> d == (10 - sum % 10) % 10
  {
    var m := sum % 10;
    assert sum == 10 * (sum / 10) + m;
    assert (d + sum) % 10 == (d + m) % 10;
  }

  /** `ValidateLuhn`: rejects a length outside [13, 19] before looking at the
      characters, then walks right to left and rejects the first non-digit. */
  method ValidateLuhn(pan: string) returns (valid: bool)
    ensures valid == LuhnValid(pan)
  {
    if |pan| < 13 || |pan| > 19 {
      return false;
    }
    var sum := 0;
    var isSecond := false;
    var i := |pan| - 1;
    while i >= 0
      invariant -1 <= i < |pan|
      invariant AllDigits(pan[i + 1..])
      invariant isSecond == (|pan[i + 1..]| % 2 == 1)
      invariant sum == LuhnSum(pan[i + 1..], false)
    {
      if !IsDigit(pan[i]) {
        return false;
      }
      var digit := DigitValue(pan[i]);
      if isSecond {
        digit := digit * 2;
        if digit > 9 {
          digit := digit - 9;
        }
      }
      assert digit == Weight(DigitValue(pan[i]), isSecond);
      LuhnSumStep(pan, i, false);
      sum := sum + digit;
      isSecond := !isSecond;
      i := i - 1;
    }
    assert pan[0..] == pan;
    return sum % 10 == 0;
  }

  /** `CalculateLuhnCheckDigit`: the same walk with the rightmost digit
      doubled; returns 0 at the first non-digit. */
  method CalculateLuhnCheckDigit(partialPan: string) returns (checkDigit: nat)
    ensures checkDigit == CheckDigit(partialPan)
  {
    var sum := 0;
    var isSecond := true;
    var i := |partialPan| - 1;
    while i >= 0
      invariant -1 <= i < |partialPan|
      invariant AllDigits(partialPan[i + 1..])
      invariant isSecond == (|partialPan[i + 1..]| % 2 == 0)
      invariant sum == LuhnSum(partialPan[i + 1..], true)
    {
      if !IsDigit(partialPan[i]) {
        return 0;
      }
      var digit := DigitValue(partialPan[i]);
      if isSecond {
        digit := digit * 2;
        if digit > 9 {
          digit := digit - 9;
        }
      }
      assert digit == Weight(DigitValue(partialPan[i]), isSecond);
      LuhnSumStep(partialPan, i, true);
      sum := sum + digit;
      isSecond := !isSecond;
      i := i - 1;
    }
    assert partialPan[0..] == partialPan;
    checkDigit := (10 - sum % 10) % 10;
  }

  /** `AppendLuhnCheckDigit`: the partial PAN followed by exactly one digit,
      the check digit. */
  method AppendLuhnCheckDigit(partialPan: string) returns (pan: string)
    ensures pan == partialPan + [DigitChar(CheckDigit(partialPan))]
    ensures AllDigits(partialPan) && 12 <= |partialPan| <= 18 ==> LuhnValid(pan)
  {
    var checkDigit := CalculateLuhnCheckDigit(partialPan);
    pan := partialPan + NatToString(checkDigit);
    if AllDigits(partialPan) && 12 <= |partialPan| <= 18 {
      AppendedPanValidates(partialPan);
    }
  }

  /** The sum of a concatenation: the right part keeps the parity, the left
      part is shifted by the right part's length. */
  lemma {:induction false} LuhnSumConcat(a: string, b: string, doubleLast: bool)
    requires AllDigits(a) && AllDigits(b)
    ensures AllDigits(a + b)
    ensures LuhnSum(a + b, doubleLast)
         == LuhnSum(b, doubleLast) + LuhnSum(a, if |b| % 2 == 0 then doubleLast else !doubleLast)
    decreases |b|
  {
    var s := a + b;
    if b == [] {
      assert s == a;
    } else {
      assert s[..|s| - 1] == a + b[..|b| - 1];
      assert s[|s| - 1] == b[|b| - 1];
      LuhnSumConcat(a, b[..|b| - 1], !doubleLast);
    }
  }

  /** Zeros add nothing to the sum. */
  lemma {:induction false} LuhnSumZeros(z: string, doubleLast: bool)
    requires forall i :: 0 <= i < |z| ==> z[i] == '0'
    ensures AllDigits(z) && LuhnSum(z, doubleLast) == 0
    decreases |z|
  {
    if z != [] {
      LuhnSumZeros(z[..|z| - 1], !doubleLast);
    }
  }

  lemma CheckDigitVisa16()
    ensures CheckDigit("400000000000000") == 2
  {
    var z14 := "00000000000000";
    LuhnSumZeros(z14, true);
    LuhnSumConcat("4", z14, true);
    assert "400000000000000" == "4" + z14;
  }

  lemma CheckDigitVisa13()
    ensures CheckDigit("400000000000") == 6
  {
    var z11 := "00000000000";
    LuhnSumZeros(z11, true);
    LuhnSumConcat("4", z11, true);
    assert "400000000000" == "4" + z11;
  }

  lemma CheckDigitMastercard()
    ensures CheckDigit("510000000000001") == 6
  {
    var a := "51000000000000";
    MastercardPrefixSum();
    LuhnSumConcat(a, "1", true);
    assert "510000000000001" == a + "1";
  }

  lemma MastercardPrefixSum()
    ensures AllDigits("51000000000000") && LuhnSum("51000000000000", false) == 2
  {
    var z12 := "000000000000";
    LuhnSumZeros(z12, false);
    LuhnSumConcat("51", z12, false);
    assert "51000000000000" == "51" + z12;
  }

  lemma CheckDigitAmex()
    ensures CheckDigit("34000000000000") == 9
  {
    var z12 := "000000000000";
    LuhnSumZeros(z12, true);
    LuhnSumConcat("34", z12, true);
    assert "34000000000000" == "34" + z12;
  }

  /** Reference check digits of the checksum. */
  lemma KnownCheckDigits()
    ensures CheckDigit("400000000000000") == 2
    ensures CheckDigit("400000000000") == 6
    ensures CheckDigit("510000000000001") == 6
    ensures CheckDigit("34000000000000") == 9
  {
    CheckDigitVisa16();
    CheckDigitVisa13();
    CheckDigitMastercard();
    CheckDigitAmex();
  }

  /** Reference PANs that validate and strings that do not. */
  lemma KnownValidity()
    ensures LuhnValid("4000000000000002")
    ensures LuhnValid("4000000000006")
    ensures LuhnValid("5100000000000016")
    ensures LuhnValid("340000000000009")
    ensures !LuhnValid("4000000000000001")
    ensures !LuhnValid("123")
    ensures !LuhnValid("12345678901234567890")
    ensures !LuhnValid("400000000000000X")
  {
    KnownCheckDigits();
    AppendedPanValidates("400000000000000");
    AppendedPanValidates("400000000000");
    AppendedPanValidates("510000000000001");
    AppendedPanValidates("34000000000000");
    assert "4000000000000002" == "400000000000000" + [DigitChar(2)];
    assert "4000000000006" == "400000000000" + [DigitChar(6)];
    assert "5100000000000016" == "510000000000001" + [DigitChar(6)];
    assert "340000000000009" == "34000000000000" + [DigitChar(9)];
    CheckDigitUnique("400000000000000", 1);
    assert "4000000000000001" == "400000000000000" + [DigitChar(1)];
    assert !IsDigit("400000000000000X"[15]);
  }
}
