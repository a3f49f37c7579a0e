/** The record shapes the engine works on (the Go `models` package), and the
    wall-clock reading that stands in for `time.Now()`. */
module Models {

  /** One reading of the clock: calendar fields plus Unix seconds. */
  datatype Clock = Clock(year: int, month: nat, day: nat,
                         hour: nat, minute: nat, second: nat, unix: int)
  {
    /** What every `time.Time` satisfies. */
    predicate Valid() {
      1 <= month <= 12 && 1 <= day <= 31 && hour < 24 && minute < 60 && second < 60
    }
  }

  datatype BinRange = BinRange(Start: string, End: string, Length: int)

  datatype CardBrand = CardBrand(
    Name: string,
    BinRanges: seq<BinRange>,
    PanLength: seq<int>,
    CvcLength: int,
    ServiceCode: string)

  datatype Card = Card(
    Pan: string,
    MaskedPan: string,
    Brand: string,
    ExpiryMonth: int,
    ExpiryYear: int,
    Cvc: string,                       // empty when no secret was supplied
    Track2: string,                    // empty unless requested
    IsoFields: map<string, string>,    // empty unless filled by a caller
    GeneratedAt: Clock,
    Metadata: map<string, string>)

  datatype GenerateOptions = GenerateOptions(
    Bin: string,
    Brand: string,
    Count: int,
    Secret: string,
    IncludeIso: bool,
    IncludeTrack2: bool,
    Metadata: map<string, string>)

  datatype Order = Order(
    Id: string,
    Pan: string,
    ExpiryMonth: int,
    ExpiryYear: int,
    Cvc: string,                       // possibly empty
    Amount: int,
    Currency: string,
    Metadata: map<string, string>)
}
