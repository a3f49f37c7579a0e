/** The mock ISO-8583 authorization fields (internal/iso/iso8583.go). Only
    the field numbering of ISO 8583 is borrowed: a message is a map from
    field-id strings to values, with no bitmap and no wire codec. The clock
    `time.Now()` is passed in as a `Clock`. */
module Iso8583 {
  import opened Common
  import opened Decimal
  import opened Models

  type Fields = map<string, string>

  datatype AuthorizationRequest = AuthorizationRequest(
    Mti: string, Fields: Fields, Timestamp: Clock)

  datatype AuthorizationResponse = AuthorizationResponse(
    Mti: string, Fields: Fields, ResponseCode: string, ResponseText: string,
    AuthCode: string, Timestamp: Clock)

  /** The fields every request carries; "35" is added when the card has
      Track2 data. */
  const RequestFieldIds: set<string> :=
    {"2", "3", "4", "7", "11", "12", "13", "14", "22", "37", "41", "42", "49"}

  /** `now.Format("0102150405")`: MMDDhhmmss, the layouts of fields 13
      and 12 back to back. */
  function TransmissionDateTime(now: Clock): (r: string)
    ensures |r| == |LocalDate(now)| + |LocalTime(now)|
    ensures r[..|LocalDate(now)|] == LocalDate(now) && r[|LocalDate(now)|..] == LocalTime(now)
    ensures now.Valid() ==> |r| == 10 && AllDigits(r)
  {
    ConcatParts(LocalDate(now), LocalTime(now));
    LocalDate(now) + LocalTime(now)
  }

  /** `now.Format("150405")`: hhmmss, each pair reading back as its clock
      field. */
  function LocalTime(now: Clock): (r: string)
    ensures now.Valid() ==>
      && |r| == 6 && AllDigits(r)
      && Reads(r[..2], now.hour) && Reads(r[2..4], now.minute) && Reads(r[4..], now.second)
  {
    var h, mi, se := FormatInt(now.hour, 2), FormatInt(now.minute, 2), FormatInt(now.second, 2);
    ConcatParts3(h, mi, se);
    if now.Valid() then
      TwoDigits(now.hour); TwoDigits(now.minute); TwoDigits(now.second);
      h + mi + se
    else h + mi + se
  }

  /** `now.Format("0102")`: MMDD, each pair reading back as its clock
      field. */
  function LocalDate(now: Clock): (r: string)
    ensures now.Valid() ==>
      && |r| == 4 && AllDigits(r)
      && Reads(r[..2], now.month) && Reads(r[2..], now.day)
  {
    var mo, d := FormatInt(now.month, 2), FormatInt(now.day, 2);
    ConcatParts(mo, d);
    if now.Valid() then TwoDigits(now.month); TwoDigits(now.day); mo + d else mo + d
  }

  /** `fmt.Sprintf("%06d", unix % 1000000)` with Go's truncating `%`: the
      STAN, and the six digits of an authorization code. A negative Unix
      time leaves a negative remainder, rendered with its sign. */
  function UnixSuffix6(unix: int): (r: string)
    ensures |r| >= 6
    ensures unix >= 0 ==> |r| == 6 && Reads(r, unix % 1000000)
    ensures unix < 0 && (-unix) % 1000000 == 0 ==> |r| == 6 && Reads(r, 0)
    ensures unix < 0 && (-unix) % 1000000 != 0 ==>
      r[0] == '-' && Reads(r[1..], (-unix) % 1000000)
  {
    var rem := GoRem(unix, 1000000);
    assert Pow10(6) == 1000000;
    if rem >= 0 then FormatIntWidth(rem, 6); FormatInt(rem, 6) else FormatInt(rem, 6)
  }

  /** `generateRRN`, `now.Format("060102150405")`: the two-digit year
      (Go renders the absolute value of the year modulo 100) followed by
      MMDDhhmmss. */
  function RetrievalReference(now: Clock): (r: string)
    ensures |r| >= 2 && Reads(r[..2], (if now.year < 0 then -now.year else now.year) % 100)
    ensures r[2..] == TransmissionDateTime(now)
    ensures now.Valid() ==> |r| == 12 && AllDigits(r)
  {
    var yy := FormatInt((if now.year < 0 then -now.year else now.year) % 100, 2);
    TwoDigits((if now.year < 0 then -now.year else now.year) % 100);
    ConcatParts(yy, TransmissionDateTime(now));
    yy + TransmissionDateTime(now)
  }

  /** The request map from its field values: the thirteen fixed fields,
      and "35" only for non-empty Track2 data. */
  function RequestMap(pan: string, amount: string, dateTime: string, stan: string,
                      localTime: string, localDate: string, expiry: string, rrn: string,
                      currency: string, track2: string): (f: Fields)
    ensures f.Keys == RequestFieldIds + (if track2 != "" then {"35"} else {})
  {
    var fields := map[
      "2" := pan,
      "3" := "000000",
      "4" := amount,
      "7" := dateTime,
      "11" := stan,
      "12" := localTime,
      "13" := localDate,
      "14" := expiry,
      "22" := "051",
      "37" := rrn,
      "41" := "TERM0001",
      "42" := "MERCHANT000001",
      "49" := currency
    ];
    if track2 != "" then fields["35" := track2] else fields
  }

  /** Each field of the request map holds the value given for it. The
      lookups are proved in three groups (`RequestMapLookupLow`, `Mid`,
      `High`) because one proof over all fourteen keys of the map literal
      costs the solver several times as much as the three together. */
  lemma RequestMapLookup(pan: string, amount: string, dateTime: string, stan: string,
                         localTime: string, localDate: string, expiry: string, rrn: string,
                         currency: string, track2: string)
    ensures var f := RequestMap(pan, amount, dateTime, stan, localTime, localDate,
                                expiry, rrn, currency, track2);
      && f["2"] == pan && f["3"] == "000000" && f["4"] == amount
      && f["7"] == dateTime && f["11"] == stan && f["12"] == localTime
      && f["13"] == localDate && f["14"] == expiry && f["22"] == "051"
      && f["37"] == rrn && f["41"] == "TERM0001" && f["42"] == "MERCHANT000001"
      && f["49"] == currency
      && ("35" in f <==> track2 != "") && ("35" in f ==> f["35"] == track2)
  {
    RequestMapLookupLow(pan, amount, dateTime, stan, localTime, localDate, expiry, rrn, currency, track2);
    RequestMapLookupMid(pan, amount, dateTime, stan, localTime, localDate, expiry, rrn, currency, track2);
    RequestMapLookupHigh(pan, amount, dateTime, stan, localTime, localDate, expiry, rrn, currency, track2);
  }

  lemma RequestMapLookupLow(pan: string, amount: string, dateTime: string, stan: string,
                         localTime: string, localDate: string, expiry: string, rrn: string,
                         currency: string, track2: string)
    ensures var f := RequestMap(pan, amount, dateTime, stan, localTime, localDate,
                                expiry, rrn, currency, track2);
      && f["2"] == pan && f["3"] == "000000" && f["4"] == amount
  {
  }

  lemma RequestMapLookupMid(pan: string, amount: string, dateTime: string, stan: string,
                         localTime: string, localDate: string, expiry: string, rrn: string,
                         currency: string, track2: string)
    ensures var f := RequestMap(pan, amount, dateTime, stan, localTime, localDate,
                                expiry, rrn, currency, track2);
      && f["7"] == dateTime && f["11"] == stan && f["12"] == localTime
  {
  }

  lemma RequestMapLookupHigh(pan: string, amount: string, dateTime: string, stan: string,
                         localTime: string, localDate: string, expiry: string, rrn: string,
                         currency: string, track2: string)
    ensures var f := RequestMap(pan, amount, dateTime, stan, localTime, localDate,
                                expiry, rrn, currency, track2);
      && f["13"] == localDate && f["14"] == expiry && f["22"] == "051"
      && f["37"] == rrn && f["41"] == "TERM0001" && f["42"] == "MERCHANT000001"
      && f["49"] == currency
      && ("35" in f <==> track2 != "") && ("35" in f ==> f["35"] == track2)
  {
  }

  /** Field 14: `fmt.Sprintf("%02d%02d", ExpiryYear%100, ExpiryMonth)`:
      YY then MM for a non-negative year and a month below 100; a negative
      year leaves a negative remainder, rendered with its sign. */
  function ExpiryYYMM(card: Card): (r: string)
    ensures |r| >= 4
    ensures 0 <= card.ExpiryMonth < 100 && card.ExpiryYear >= 0 ==>
      |r| == 4 && AllDigits(r)
      && Reads(r[..2], card.ExpiryYear % 100) && Reads(r[2..], card.ExpiryMonth)
    ensures GoRem(card.ExpiryYear, 100) < 0 ==> r[0] == '-'
  {
    var yy, mm := FormatInt(GoRem(card.ExpiryYear, 100), 2), FormatInt(card.ExpiryMonth, 2);
    ConcatParts(yy, mm);
    if 0 <= card.ExpiryMonth < 100 && card.ExpiryYear >= 0 then
      TwoDigits(GoRem(card.ExpiryYear, 100)); TwoDigits(card.ExpiryMonth); yy + mm
    else yy + mm
  }

  /** `GenerateISO8583Fields`. */
  function GenerateIso8583Fields(card: Card, amount: int, currency: string, now: Clock): (f: Fields)
    ensures f.Keys == RequestFieldIds + (if card.Track2 != "" then {"35"} else {})
  {
    RequestMap(card.Pan, FormatInt(amount, 12), TransmissionDateTime(now), UnixSuffix6(now.unix),
               LocalTime(now), LocalDate(now), ExpiryYYMM(card), RetrievalReference(now),
               currency, card.Track2)
  }

  /** Where each field of `GenerateIso8583Fields` comes from. */
  lemma FieldSources(card: Card, amount: int, currency: string, now: Clock)
    ensures var f := GenerateIso8583Fields(card, amount, currency, now);
      && f["4"] == FormatInt(amount, 12) && f["7"] == TransmissionDateTime(now)
      && f["11"] == UnixSuffix6(now.unix) && f["12"] == LocalTime(now)
      && f["13"] == LocalDate(now) && f["14"] == ExpiryYYMM(card)
      && f["37"] == RetrievalReference(now)
  {
    RequestMapLookup(card.Pan, FormatInt(amount, 12), TransmissionDateTime(now), UnixSuffix6(now.unix),
                     LocalTime(now), LocalDate(now), ExpiryYYMM(card), RetrievalReference(now),
                     currency, card.Track2);
  }

  /** The card-derived and constant fields: the PAN, processing code
      "000000", POS entry mode "051", the mock terminal and merchant ids,
      the currency, and Track2 exactly when the card has it. */
  lemma RequestFixedFields(card: Card, amount: int, currency: string, now: Clock)
    ensures var f := GenerateIso8583Fields(card, amount, currency, now);
      && f["2"] == card.Pan
      && f["3"] == "000000" && f["22"] == "051"
      && f["41"] == "TERM0001" && f["42"] == "MERCHANT000001"
      && f["49"] == currency
      && ("35" in f <==> card.Track2 != "")
      && ("35" in f ==> f["35"] == card.Track2)
  {
    RequestMapLookup(card.Pan, FormatInt(amount, 12), TransmissionDateTime(now), UnixSuffix6(now.unix),
                     LocalTime(now), LocalDate(now), ExpiryYYMM(card), RetrievalReference(now),
                     currency, card.Track2);
  }

  /** Field 4 is the amount in twelve digits for any amount in
      [0, 10^12), and reads back as the amount. */
  lemma AmountField(card: Card, amount: int, currency: string, now: Clock)
    requires 0 <= amount < Pow10(12)
    ensures var a := GenerateIso8583Fields(card, amount, currency, now)["4"];
      |a| == 12 && AllDigits(a) && ParseNat(a) == amount
  {
    FieldSources(card, amount, currency, now);
    FormatIntWidth(amount, 12);
  }

  /** Field 14 is YYMM: two digits of `ExpiryYear % 100` then two digits
      of the month. */
  lemma ExpiryField(card: Card, amount: int, currency: string, now: Clock)
    requires 0 <= card.ExpiryMonth < 100 && card.ExpiryYear >= 0
    ensures var e := GenerateIso8583Fields(card, amount, currency, now)["14"];
      && |e| == 4 && AllDigits(e)
      && AllDigits(e[..2]) && ParseNat(e[..2]) == card.ExpiryYear % 100
      && AllDigits(e[2..]) && ParseNat(e[2..]) == card.ExpiryMonth
  {
    FieldSources(card, amount, currency, now);
  }

  /** A card expiring in December 2027 carries "2712" in field 14. */
  lemma ExpiryFieldExample(card: Card, amount: int, currency: string, now: Clock)
    requires card.ExpiryMonth == 12 && card.ExpiryYear == 2027
    ensures GenerateIso8583Fields(card, amount, currency, now)["14"] == "2712"
  {
    FieldSources(card, amount, currency, now);
    ExpiryYYMMExample(card);
  }

  lemma ExpiryYYMMExample(card: Card)
    requires card.ExpiryMonth == 12 && card.ExpiryYear == 2027
    ensures ExpiryYYMM(card) == "2712"
  {
    assert GoRem(2027, 100) == 27;
    TwoDigitExample(2, 7);
    TwoDigitExample(1, 2);
    assert DigitChar(2) == '2' && DigitChar(7) == '7' && DigitChar(1) == '1';
  }

  lemma TwoDigitExample(tens: nat, units: nat)
    requires 1 <= tens < 10 && units < 10
    ensures FormatInt(10 * tens + units, 2) == [DigitChar(tens), DigitChar(units)]
  {
    var n := 10 * tens + units;
    assert n / 10 == tens && n % 10 == units;
    assert NatToString(n) == [DigitChar(tens)] + [DigitChar(units)];
  }

  /** The time-derived fields are fixed-width digit strings cut from one
      clock reading: field 7 is field 13 followed by field 12, field 37 is
      the two-digit year followed by field 7, and field 11 reads back as
      `unix % 1000000`. */
  lemma TimeFields(card: Card, amount: int, currency: string, now: Clock)
    requires now.Valid() && now.unix >= 0
    ensures var f := GenerateIso8583Fields(card, amount, currency, now);
      && |f["7"]| == 10 && AllDigits(f["7"])
      && |f["12"]| == 6 && AllDigits(f["12"])
      && |f["13"]| == 4 && AllDigits(f["13"])
      && |f["37"]| == 12 && AllDigits(f["37"])
      && f["7"] == f["13"] + f["12"]
      && f["37"][2..] == f["7"]
      && |f["11"]| == 6 && AllDigits(f["11"]) && ParseNat(f["11"]) == now.unix % 1000000
  {
    FieldSources(card, amount, currency, now);
  }

  /** `GenerateMockAuthRequest`: MTI "0100" around the request fields. */
  function GenerateMockAuthRequest(card: Card, amount: int, currency: string, now: Clock)
    : (r: AuthorizationRequest)
    ensures r.Mti == "0100"
    ensures r.Fields == GenerateIso8583Fields(card, amount, currency, now)
    ensures "2" in r.Fields && "4" in r.Fields && "11" in r.Fields
    ensures r.Timestamp == now
  {
    AuthorizationRequest("0100", GenerateIso8583Fields(card, amount, currency, now), now)
  }

  /** `GenerateMockAuthResponse`: copies every request field into a new
      map, sets field 39 to the response code, and issues an authorization
      code only on approval ("00"). The request is a value here, so it is
      left as it was by construction. */
  method GenerateMockAuthResponse(request: AuthorizationRequest, responseCode: string,
                                  responseText: string, now: Clock)
    returns (response: AuthorizationResponse)
    ensures response.Mti == "0110"
    ensures response.Fields.Keys == request.Fields.Keys + {"39"}
    ensures response.Fields["39"] == responseCode
    ensures forall k :: k in request.Fields && k != "39" ==> response.Fields[k] == request.Fields[k]
    ensures response.ResponseCode == responseCode && response.ResponseText == responseText
    ensures response.AuthCode == if responseCode == "00" then "AUTH" + UnixSuffix6(now.unix) else ""
    ensures response.Timestamp == now
  {
    var responseFields: Fields := map[];
    var remaining := request.Fields.Keys;
    while remaining != {}
      invariant remaining <= request.Fields.Keys
      invariant responseFields.Keys == request.Fields.Keys - remaining
      invariant forall k :: k in responseFields ==> responseFields[k] == request.Fields[k]
      decreases remaining
    {
      var k :| k in remaining;
      responseFields := responseFields[k := request.Fields[k]];
      remaining := remaining - {k};
    }
    responseFields := responseFields["39" := responseCode];
    var authCode := "";
    if responseCode == "00" {
      authCode := "AUTH" + UnixSuffix6(now.unix);
    }
    return AuthorizationResponse("0110", responseFields, responseCode, responseText, authCode, now);
  }

  /** An approval's authorization code is "AUTH" and six digits. */
  lemma ApprovalAuthCode(unix: int)
    requires unix >= 0
    ensures var code := "AUTH" + UnixSuffix6(unix);
      |code| == 10 && code[..4] == "AUTH" && AllDigits(code[4..])
      && ParseNat(code[4..]) == unix % 1000000
  {
    var code := "AUTH" + UnixSuffix6(unix);
    assert code[4..] == UnixSuffix6(unix);
  }

  /** The response-code table: read-only, built once. */
  const ResponseCodes: map<string, string> := map[
    "00" := "Approved",
    "01" := "Refer to card issuer",
    "03" := "Invalid merchant",
    "04" := "Capture card",
    "05" := "Do not honor",
    "12" := "Invalid transaction",
    "13" := "Invalid amount",
    "14" := "Invalid card number",
    "30" := "Format error",
    "41" := "Lost card",
    "43" := "Stolen card",
    "51" := "Insufficient funds",
    "54" := "Expired card",
    "55" := "Incorrect PIN",
    "57" := "Transaction not permitted",
    "58" := "Transaction not permitted to terminal",
    "61" := "Exceeds withdrawal limit",
    "62" := "Restricted card",
    "63" := "Security violation",
    "65" := "Exceeds withdrawal frequency",
    "75" := "PIN tries exceeded",
    "91" := "Issuer unavailable",
    "96" := "System malfunction"
  ]

  lemma ResponseCodesKnown()
    ensures forall code :: code in {"00", "05", "51", "54", "91"} ==> code in ResponseCodes
    ensures ResponseCodes["00"] == "Approved"
    ensures ResponseCodes["51"] == "Insufficient funds"
    ensures ResponseCodes["54"] == "Expired card"
  {
  }

  // ---------------------------------------------------------------------
  // Debug formatting

  /** The order `FormatISO8583` prints fields in; any other id is skipped. */
  const FieldOrder: seq<string> :=
    ["2", "3", "4", "7", "11", "12", "13", "14", "22", "35", "37", "41", "42", "49"]

  const FormatHeader := "ISO-8583 Fields:\n"

  /** `fmt.Sprintf("  Field %s: %s\n", id, value)`. */
  function FieldLine(id: string, value: string): string {
    "  Field " + id + ": " + value + "\n"
  }

  /** The lines for the ids of `order` present in `fields`, in `order`'s
      order. */
  function FieldLines(fields: Fields, order: seq<string>): string {
    if order == [] then ""
    else
      var id := order[|order| - 1];
      FieldLines(fields, order[..|order| - 1])
        + (if id in fields then FieldLine(id, fields[id]) else "")
  }

  /** What `FormatISO8583` returns. */
  function Formatted(fields: Fields): string {
    FormatHeader + FieldLines(fields, FieldOrder)
  }

  /** `FormatISO8583`. */
  method FormatIso8583(fields: Fields) returns (result: string)
    ensures result == Formatted(fields)
  {
    result := FormatHeader;
    var fieldOrder := FieldOrder;
    var i := 0;
    while i < |fieldOrder|
      invariant 0 <= i <= |fieldOrder|
      invariant result == FormatHeader + FieldLines(fields, fieldOrder[..i])
    {
      var field := fieldOrder[i];
      FieldLinesStep(fields, fieldOrder, i);
      ghost var printed := FieldLines(fields, fieldOrder[..i]);
      if field in fields {
        var line := FieldLine(field, fields[field]);
        ConcatAssoc(FormatHeader, printed, line);
        result := result + line;
      } else {
        assert printed + "" == printed;
      }
      i := i + 1;
    }
    assert fieldOrder[..i] == fieldOrder;
  }

  /** One more id of the order adds its line when the id is present. */
  lemma FieldLinesStep(fields: Fields, order: seq<string>, i: nat)
    requires i < |order|
    ensures FieldLines(fields, order[..i + 1])
         == FieldLines(fields, order[..i])
            + (if order[i] in fields then FieldLine(order[i], fields[order[i]]) else "")
  {
    assert order[..i + 1][..i] == order[..i];
  }

  lemma {:induction false} FieldLinesConcat(fields: Fields, a: seq<string>, b: seq<string>)
    ensures FieldLines(fields, a + b) == FieldLines(fields, a) + FieldLines(fields, b)
    decreases |b|
  {
    if b == [] {
      assert a + b == a;
    } else {
      assert (a + b)[..|a + b| - 1] == a + b[..|b| - 1];
      FieldLinesConcat(fields, a, b[..|b| - 1]);
    }
  }

  /** Two maps that agree on the ids of `order` give the same lines. */
  lemma {:induction false} FieldLinesAgree(f: Fields, g: Fields, order: seq<string>)
    requires forall id :: id in order ==> (id in f <==> id in g)
    requires forall id :: id in order && id in f ==> f[id] == g[id]
    ensures FieldLines(f, order) == FieldLines(g, order)
    decreases |order|
  {
    if order != [] {
      assert order[|order| - 1] in order;
      FieldLinesAgree(f, g, order[..|order| - 1]);
    }
  }

  /** Only the listed ids are ever printed: removing any other key, such as
      the response code "39", does not change the output. */
  lemma FormatIgnoresUnlisted(fields: Fields, id: string)
    requires id !in FieldOrder
    ensures Formatted(fields) == Formatted(fields - {id})
  {
    FieldLinesAgree(fields, fields - {id}, FieldOrder);
  }

  lemma ResponseCodeNotPrinted(fields: Fields)
    ensures Formatted(fields) == Formatted(fields - {"39"})
  {
    FormatIgnoresUnlisted(fields, "39");
  }

  predicate OccursAt(s: string, t: string, i: int) {
    0 <= i <= |s| - |t| && s[i..i + |t|] == t
  }

  ghost predicate Contains(s: string, t: string) {
    exists i :: OccursAt(s, t, i)
  }

  /** Every listed id present in the map is printed with its value. */
  lemma FormatShowsPresentField(fields: Fields, k: nat)
    requires k < |FieldOrder| && FieldOrder[k] in fields
    ensures Contains(Formatted(fields), FieldLine(FieldOrder[k], fields[FieldOrder[k]]))
  {
    var i := LinesShowPresent(fields, FieldOrder, k);
    var line := FieldLine(FieldOrder[k], fields[FieldOrder[k]]);
    assert OccursAt(Formatted(fields), line, |FormatHeader| + i);
  }

  /** Where the line of the `k`-th id of `order` sits in the printed lines. */
  lemma LinesShowPresent(fields: Fields, order: seq<string>, k: nat) returns (i: nat)
    requires k < |order| && order[k] in fields
    ensures OccursAt(FieldLines(fields, order), FieldLine(order[k], fields[order[k]]), i)
  {
    var line := FieldLine(order[k], fields[order[k]]);
    var before := FieldLines(fields, order[..k]);
    var after := FieldLines(fields, order[k + 1..]);
    assert order == order[..k + 1] + order[k + 1..];
    FieldLinesConcat(fields, order[..k + 1], order[k + 1..]);
    FieldLinesStep(fields, order, k);
    var s := FieldLines(fields, order);
    assert s == before + line + after;
    i := |before|;
    assert s[i..i + |line|] == line;
  }

  /** A map with none of the listed ids prints the header alone. */
  lemma FormatEmpty(fields: Fields)
    requires forall id :: id in FieldOrder ==> id !in fields
    ensures Formatted(fields) == FormatHeader
  {
    FieldLinesAgree(fields, map[], FieldOrder);
    assert FieldLines(map[], FieldOrder) == "" by {
      EmptyLines(FieldOrder);
    }
  }

  lemma {:induction false} EmptyLines(order: seq<string>)
    ensures FieldLines(map[], order) == ""
    decreases |order|
  {
    if order != [] {
      EmptyLines(order[..|order| - 1]);
    }
  }
}
