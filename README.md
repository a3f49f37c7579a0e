# cardgen-pro card-data synthesis, modelled in Dafny

This project models the core of cardgen-pro, a generator of synthetic payment-card test data. The model covers:

- the Luhn (mod-10, ISO/IEC 7812-1 Annex B) validator and check-digit calculator;
- PAN construction from a BIN, random filler digits and a check digit;
- the keyed deterministic CVC (HMAC-SHA256 over `BIN6|LAST4|MM|YYYY`, then digit extraction with a fallback);
- the Track2-like string, PAN masking and expiry generation;
- the `GenerateCard` orchestration over the constant brand registry;
- the mock ISO-8583 authorization fields, request, response and debug formatter;
- the in-place batch CVC injection of `TransformOrders`.

Files:

| file | module | what it holds |
|---|---|---|
| `common.dfy` | `Common` | error values with the Go messages, `Result`/`Option`, digits, small string helpers, and the UTF-8 conversion `[]byte(s)` |
| `decimal.dfy` | `Decimal` | Go's `%d`/`%0Nd` rendering (`FormatInt`), its read-back `ParseNat`, and Go's truncating `%` (`GoRem`) |
| `models.dfy` | `Models` | the records `Card`, `CardBrand`, `BinRange`, `GenerateOptions`, `Order`, and a `Clock` reading |
| `luhn.dfy` | `Luhn` | the checksum: spec functions, the two right-to-left loops as methods, and the append lemma |
| `generator.dfy` | `Generator` | brand table, `GeneratePan`, the CVC derivation (function and loop method), Track2, masking, expiry, `GenerateCard` |
| `iso8583.dfy` | `Iso8583` | request fields, STAN/RRN, auth request/response, response-code table, `FormatIso8583` |
| `transformer.dfy` | `Transformer` | `TransformOrders` over `array<Order>`, specified by `InjectAll` on sequences |

Two design choices shape the model:

- **Injected dependencies.** Randomness, the clock and the keyed hash are parameters:
  - `generateRandomDigits` becomes a stream of decimal digits;
  - `GenerateExpiry`'s two `crypto/rand` draws become numbers below 12 and 5;
  - `time.Now()` becomes a `Clock` record;
  - HMAC-SHA256 is a parameter `hmac: Hmac`, any function from (key, message) to a 32-byte digest.

  Every property proved therefore holds for every random outcome and for every hash function.
- **Luhn parity.** The two Luhn loops are proved equal to one recursive sum, `LuhnSum`. The sum is parameterised by whether the rightmost digit is doubled. `ValidateLuhn` starts undoubled and `CalculateLuhnCheckDigit` starts doubled. `ParityInversion` and `AppendedPanValidates` show why this inverted parity is exactly what makes the appended digit validate.

## Model

| member | source | states |
|---|---|---|
| Common.Error.Message | internal/generator/generator.go:240-242 | every error text is non-empty, an unknown brand's text ends with that brand (generator.go:222), and a wrapping error ends with its cause's text, as `%w` keeps it |
| Common.LowerAscii | internal/generator/generator.go:220 | the same length; each ASCII capital becomes its lower-case letter (code + 32) and every other character is kept |
| Common.LowerAsciiIdempotent | internal/generator/generator.go:220 | lower-casing twice is lower-casing once |
| Common.Utf8 | internal/generator/generator.go:145-146 | one to four bytes per character, a single byte exactly for ASCII, and then the character's code |
| Common.Utf8RoundTrip | internal/generator/generator.go:145-146 | the lead byte gives the length of a character's encoding, and its bytes decode back to the character |
| Common.StringBytes | internal/generator/generator.go:145-146 | `[]byte(s)` has at least one byte per character |
| Common.StringBytesAscii | internal/generator/generator.go:145-146 | on ASCII text the bytes are exactly the character codes, one per character |
| Common.StringBytesInjective | internal/generator/generator.go:145-146 | different strings convert to different bytes, so different secrets are different HMAC keys |
| Common.Utf8Examples | internal/generator/generator.go:145 | character 256 becomes C4 80, NUL becomes 00, and the euro sign E2 82 AC |
| Luhn.CheckDigit | internal/generator/luhn.go:42-67 | the check digit is a single decimal digit, and 0 whenever the partial PAN holds a non-digit |
| Luhn.ValidateLuhn | internal/generator/luhn.go:10-37 | true exactly when the string has 13 to 19 characters, all decimal digits, and a Luhn sum (rightmost digit undoubled) divisible by 10; the loop is proved against the recursive sum |
| Luhn.CalculateLuhnCheckDigit | internal/generator/luhn.go:42-67 | the loop returns the digit completing the sum with the rightmost partial digit doubled, and 0 at the first non-digit |
| Luhn.AppendLuhnCheckDigit | internal/generator/luhn.go:70-73 | the result is the input followed by exactly one digit, the check digit; for 12 to 18 input digits the result validates |
| Luhn.LuhnSumPrepend | internal/generator/luhn.go:15-36 | a digit added on the left contributes at the parity given by its distance from the right end, as the right-to-left walk toggles it |
| Luhn.LuhnSumStep | internal/generator/luhn.go:47-62 | one iteration of the walk at index i adds the weight of the digit at i, at the parity of its distance from the right end, to the sum of the suffix after it |
| Luhn.ParityInversion | internal/generator/luhn.go:16 | appending one digit turns the old rightmost digit into a doubled one: the validator's sum of `p + [c]` is `c` plus the check-digit sum of `p` |
| Luhn.AppendedPanValidates | internal/generator/luhn.go:42-73 | for every all-digit partial PAN of 12 to 18 digits, appending its check digit yields a string the validator accepts |
| Luhn.CompletesToTen | internal/generator/luhn.go:64-66 | `(10 - sum % 10) % 10` is the one digit whose addition makes the sum a multiple of ten |
| Luhn.CheckDigitUnique | internal/generator/luhn.go:42-73 | among the ten digits, the check digit is the only one whose appending yields a valid PAN |
| Luhn.KnownCheckDigits | internal/generator/generator_test.go:39-42 | the check digits of "400000000000000", "400000000000", "510000000000001" and "34000000000000" are 2, 6, 6 and 9 |
| Luhn.KnownValidity | internal/generator/generator_test.go:13-20 | the four reference PANs validate; a wrong check digit, a 3-character and a 20-character string, and a string ending in 'X' do not |
| Decimal.NatToString | internal/generator/generator.go:173 | `strconv.Itoa` of a non-negative number is a non-empty digit string that reads back as the number, one character exactly below 10 |
| Decimal.FormatInt | internal/iso/iso8583.go:46 | Go's `%0Nd` (and `%d` for N = 0): at least N characters; a non-negative number becomes digits reading back as it; a negative one is '-' followed by digits reading back as its absolute value, the sign counting towards N; a rendering longer than N has no leading zero, so the string is fixed |
| Decimal.PadNat | internal/iso/iso8583.go:46 | the zero-padded digits of a non-negative number read back as it, are at least the width long, and carry no leading zero beyond the width |
| Decimal.NoLeadingZero | internal/iso/iso8583.go:46 | the shortest rendering of a positive number does not start with '0' |
| Decimal.FormatIntWidth | internal/iso/iso8583.go:46 | a zero-padded rendering of a number below 10^N is exactly N characters |
| Decimal.GoRem | internal/iso/iso8583.go:69 | Go's `%` truncates: for a non-negative dividend it is the usual remainder, for a negative one it lies in (-b, 0]; either way the dividend minus the remainder is a multiple of b |
| Decimal.TwoDigits | internal/generator/generator.go:190-191 | `%02d` of 0..99 is two digits reading back as the value |
| Generator.CardBrandsWellFormed | internal/generator/generator.go:19-49 | every registry entry has a six-digit first BIN range whose length is an allowed PAN length in 13..19 |
| Generator.LookupBrand | internal/generator/generator.go:220-223 | a brand is found exactly when its lower-cased name is a registry key, and then it is that entry |
| Generator.LookupBrandIgnoresCase | internal/generator/generator.go:220 | looking up a brand and looking up its lower-cased name give the same entry |
| Generator.LookupBrandExamples | internal/generator/generator.go:220-223 | "VISA" and "visa" both find the Visa entry, "MasterCard" the Mastercard entry, and "discover" nothing |
| Generator.TargetLength | internal/generator/generator.go:232-236 | the PAN length asked for is the first range's length, in 13..19 and among the brand's PAN lengths |
| Generator.GeneratePan | internal/generator/generator.go:54-80 | the three guards fail in order (short BIN, length outside 13..19, BIN too long); success happens exactly otherwise, and the result has the requested length, starts with the BIN, holds the random filler, ends in the check digit, and validates when the BIN is all digits |
| Generator.HexDigit | internal/generator/generator.go:150 | a lower-case hex digit whose value reads back as the nibble; a decimal character exactly when the nibble is below 10 |
| Generator.HexEncode | internal/generator/generator.go:150 | two lower-case hex characters per byte: byte i becomes position 2i (high nibble) and 2i+1 (low nibble) |
| Generator.HexDecode | internal/generator/generator.go:150 | one byte per pair of hex digits |
| Generator.HexRoundTrip | internal/generator/generator.go:150 | decoding the hex rendering of any digest gives the digest back, so the rendering loses nothing |
| Generator.NumericChars | internal/generator/generator.go:159-167 | the collected characters are all digits and never outnumber the input |
| Generator.NumericCharsMembers | internal/generator/generator.go:159-167 | a character is collected exactly when it is a decimal digit of the hex string |
| Generator.NumericCharsPrefix | internal/generator/generator.go:159-167 | stopping the scan early yields a prefix of the full collection, which is why the `break` is sound |
| Generator.FallbackDigits | internal/generator/generator.go:170-175 | the fallback yields one decimal digit per requested position |
| Generator.ExtractCvc | internal/generator/generator.go:158-177 | exactly n digits: the first n decimal characters of the hex digest when there are enough, otherwise those characters followed by the fallback digits |
| Generator.CvcLength | internal/generator/generator.go:152-156 | the CVC length is 3 or 4 |
| Generator.Bin6 | internal/generator/generator.go:131-134 | the first six characters when there are six, otherwise the whole PAN; a prefix of the PAN either way |
| Generator.Last4 | internal/generator/generator.go:136-139 | the last four characters when there are four, otherwise the whole PAN; a suffix of the PAN either way |
| Generator.CvcPayload | internal/generator/generator.go:141-142 | BIN6, LAST4, month and year, each found between its `|` separators at its offset |
| Generator.DeterministicCvc | internal/generator/generator.go:125-178 | an error exactly when the secret is empty (the missing-secret error); otherwise 3 or 4 decimal digits, 4 exactly for a 15-character PAN starting "34" or "37" |
| Generator.CvcDependsOnlyOnBinLast4Length | internal/generator/generator.go:130-156 | two PANs with the same first six, last four and length get the same CVC for the same expiry and secret |
| Generator.CollectDigits | internal/generator/generator.go:158-167 | the scan with `break` yields the first n decimal characters of the hex digest, or all of them when there are fewer |
| Generator.AppendFallback | internal/generator/generator.go:169-175 | the fallback loop appends exactly one digit `hash[i] % 10` per position below n |
| Generator.GenerateDeterministicCvc | internal/generator/generator.go:125-178 | the guard, the payload, the scan and the fallback, composed, compute exactly `DeterministicCvc` |
| Generator.GenerateTrack2 | internal/generator/generator.go:188-201 | the string starts with `PAN=` and is at least PAN + 1 + 4 + service code + 4 long |
| Generator.Track2Layout | internal/generator/generator.go:188-201 | each part sits at its fixed offset: '=' after the PAN, then YY and MM reading back as `year % 100` and the month, then the service code, then the four discretionary digits |
| Generator.Track2Parts | internal/generator/generator.go:188-201 | in `PAN=` + YY + MM + service code + discretionary, with two-character YY and MM, each part is found again at its offset |
| Generator.MaskPan | internal/generator/generator.go:205-215 | the length is kept; under 10 characters every position is '*', otherwise the first six and last four are kept and every middle position is '*' |
| Generator.MaskPanExamples | internal/generator/generator_test.go:249-252 | the reference masks of 16-, 13-, 15- and 6-character PANs |
| Generator.GenerateExpiry | internal/generator/generator.go:98-110 | the month is in 1..12 and the year is one to five years after the clock's year |
| Generator.DefaultBinCvcLength | internal/generator/generator.go:19-49 | for a PAN built on a registry BIN, the CVC length the derivation picks equals the brand's declared CVC length |
| Generator.GenerateCard | internal/generator/generator.go:218-278 | unknown brand is an error; the empty BIN defaults to the first range start; success exactly when the BIN fits the length, and otherwise `PanFailed(InvalidBin)` for a BIN under six characters and `PanFailed(BinTooLong)` for one too long; PAN length, prefix and Luhn validity; mask, brand name, expiry; CVC empty exactly without a secret and otherwise the derived CVC (the brand's CVC length for a default BIN); Track2 present exactly when requested |
| Iso8583.TransmissionDateTime | internal/iso/iso8583.go:47 | MMDDhhmmss is the MMDD rendering followed by the hhmmss rendering; ten digits for a valid clock |
| Iso8583.LocalTime | internal/iso/iso8583.go:49 | for a valid clock, six digits whose pairs read back as the hour, minute and second |
| Iso8583.LocalDate | internal/iso/iso8583.go:50 | for a valid clock, four digits whose pairs read back as the month and day |
| Iso8583.UnixSuffix6 | internal/iso/iso8583.go:67-70 | for a non-negative Unix time, six digits reading back as `unix % 1000000`; for a negative one Go's negative remainder, '-' then digits reading back as its absolute value, or "000000" when it is zero |
| Iso8583.RetrievalReference | internal/iso/iso8583.go:72-75 | two digits reading back as the absolute year modulo 100, then MMDDhhmmss; twelve digits for a valid clock |
| Iso8583.ExpiryYYMM | internal/iso/iso8583.go:51 | for a non-negative year and a month below 100, four digits: YY reading back as `year % 100`, MM as the month; a year with a negative Go remainder starts with '-' |
| Iso8583.RequestMap | internal/iso/iso8583.go:43-62 | the request map holds the thirteen fixed field ids, plus "35" exactly when Track2 data is non-empty |
| Iso8583.RequestMapLookup | internal/iso/iso8583.go:43-62 | each field id maps to the value given for it, and "35" is present exactly for non-empty Track2 data |
| Iso8583.GenerateIso8583Fields | internal/iso/iso8583.go:40-65 | the field ids are exactly the thirteen fixed ones, plus "35" when the card has Track2 data |
| Iso8583.FieldSources | internal/iso/iso8583.go:46-53 | fields 4, 7, 11, 12, 13, 14 and 37 are the amount, clock, STAN, expiry and RRN renderings |
| Iso8583.RequestFixedFields | internal/iso/iso8583.go:44-62 | field 2 is the PAN, 3 is "000000", 22 is "051", 41 is "TERM0001", 42 is "MERCHANT000001", 49 the currency, and 35 is present exactly with Track2 data and then equals it |
| Iso8583.AmountField | internal/iso/iso8583.go:46 | for 0 <= amount < 10^12 field 4 is twelve digits reading back as the amount |
| Iso8583.ExpiryField | internal/iso/iso8583.go:51 | field 14 is four digits: YY reading back as `ExpiryYear % 100`, then MM reading back as the month |
| Iso8583.ExpiryFieldExample | internal/iso/iso8583_test.go:46-50 | a card expiring 12/2027 carries "2712" in field 14 |
| Iso8583.ExpiryYYMMExample | internal/iso/iso8583.go:51 | the expiry rendering of 12/2027 is "2712" |
| Iso8583.TwoDigitExample | internal/iso/iso8583.go:51 | `%02d` of a two-digit value is its two digit characters |
| Iso8583.TimeFields | internal/iso/iso8583.go:47-53 | fields 7, 12, 13, 37 are fixed-width digit strings of one clock reading, 7 = 13 followed by 12, 37 = YY followed by 7, and 11 reads back as `unix % 1000000` |
| Iso8583.GenerateMockAuthRequest | internal/iso/iso8583.go:109-116 | MTI "0100" around the request fields, carrying fields 2, 4 and 11 |
| Iso8583.GenerateMockAuthResponse | internal/iso/iso8583.go:118-143 | MTI "0110"; the keys are the request's plus "39"; every other request field is copied unchanged; 39 holds the response code; the auth code is "AUTH" plus the six-digit time suffix exactly for "00", empty otherwise |
| Iso8583.ApprovalAuthCode | internal/iso/iso8583.go:130-133 | for a non-negative Unix time an approval code is "AUTH" followed by six digits reading back as `unix % 1000000` |
| Iso8583.ResponseCodesKnown | internal/iso/iso8583.go:146-170 | the table holds "00", "05", "51", "54", "91", with "Approved", "Insufficient funds" and "Expired card" for 00, 51, 54 |
| Iso8583.FormatIso8583 | internal/iso/iso8583.go:78-90 | the loop over the field order returns the header followed by one line per present listed field, in that order |
| Iso8583.FieldLinesStep | internal/iso/iso8583.go:83-87 | one more id in the order adds that field's line when it is present and nothing otherwise |
| Iso8583.FieldLinesConcat | internal/iso/iso8583.go:83-87 | the lines for a concatenated order are the lines of each part, concatenated |
| Iso8583.FieldLinesAgree | internal/iso/iso8583.go:83-87 | two maps that agree on the listed ids print the same lines |
| Iso8583.FormatIgnoresUnlisted | internal/iso/iso8583.go:81-87 | removing a key outside the field order does not change the output |
| Iso8583.ResponseCodeNotPrinted | internal/iso/iso8583.go:81-87 | field 39 never affects the output |
| Iso8583.FormatShowsPresentField | internal/iso/iso8583.go:83-86 | every listed field present in the map appears in the output as `  Field <id>: <value>` |
| Iso8583.LinesShowPresent | internal/iso/iso8583.go:83-86 | for any order, a listed id present in the map has its line at some position of the printed lines |
| Iso8583.FormatEmpty | internal/iso/iso8583.go:79-89 | a map with none of the listed ids prints the header alone |
| Transformer.OrderCvc | pkg/transformer/transformer.go:37-42 | the derivation from PAN, `%02d` month and `%d` year succeeds exactly with a non-empty secret, giving 3 or 4 digits |
| Transformer.InjectCvc | pkg/transformer/transformer.go:29-47 | only the CVC can change; afterwards it is non-empty; an existing CVC is kept; an empty one becomes the derived CVC |
| Transformer.InjectAll | pkg/transformer/transformer.go:28-48 | same number and order of orders, only CVCs differ, every CVC is non-empty, existing ones are kept, and filled ones are 3 or 4 digits |
| Transformer.InjectAt | pkg/transformer/transformer.go:29-47 | the loop body changes order i into its injected form and leaves every other order as it was |
| Transformer.TransformOrders | pkg/transformer/transformer.go:16-56 | an empty secret fails with the missing-secret error before any order changes; otherwise the array becomes `InjectAll` of its old contents |
| Transformer.InjectAllIdempotent | pkg/transformer/transformer.go:32-34 | a second run, with any secret and any hash, leaves every order unchanged |
| Transformer.SameCardSameCvc | pkg/transformer/transformer.go:37-42 | two orders lacking a CVC with the same PAN and expiry get the same CVC |

## Left out

- Command-line handling, the HTTP server, its bearer-token middleware and rate limiter, and the static scenario list: these are outside the engine.
- `ReadOrders`, `WriteOrders` and the JSON/NDJSON/CSV writers: file I/O and encoding. `TransformOrders` is modelled from its secret guard through its loop, on the orders already read.
- The SHA-256 and HMAC internals: `hmac` is an arbitrary function to 32 bytes. Properties are proved for every such function. Different secrets are different keys (`StringBytesInjective`); that they then give different CVCs depends on the real hash and is not stated.
- `generateRandomDigits`, `crypto/rand` and `time.Now`: their results are inputs. `GeneratePan` takes a digit stream of at least 12 digits and uses its first `length - |bin| - 1`. `GenerateCard` takes a `RandomDraws` record whose `Valid()` bounds the draws as `rand.Int` does.
- Iso8583.GenerateIso8583Fields: the Go code reads the clock up to three times (fields 7/12/13, the STAN, the RRN); the model uses one reading for all of them.
- Iso8583.GenerateMockAuthRequest: Go reads the clock again for `Timestamp` (internal/iso/iso8583.go:114) after the reads behind the fields; the model uses one reading for both.
- Iso8583.GenerateMockAuthResponse: the response timestamp comes from a separate clock read in Go; the model uses the same clock as the auth code. The request is a value here, so "the request map is not modified" holds by construction rather than being proved.
- Generator.GenerateTrack2: it requires its four discretionary characters to be decimal digits, which the injected random source guarantees.
- Generator.GenerateCard: `GenerateExpiry` (internal/generator/generator.go:99) and `GeneratedAt` (:268) are two clock reads in Go; the model uses one reading for both, and `GeneratedAt` is that reading.
- Generator.GenerateCard: the error wrapping a CVC failure (`CvcFailed`) is kept as an error value, but the branch is unreachable because the secret was checked non-empty; the model proves it dead.
- Transformer.TransformOrders: the error for a failed per-order derivation, naming the order ID, is unreachable for the same reason and is proved dead in `InjectAt`.
- Integer widths: Go's `int`/`int64` are modelled as unbounded integers. Amounts, years and Unix times never come near the 64-bit limits in this code.
- Strings are sequences of Unicode characters. The conversion to bytes for the HMAC key and message (`StringBytes`) is UTF-8, as in Go, so a non-ASCII secret is hashed as Go hashes it.
- Byte lengths: Go's `len` and string slicing count bytes, the model counts characters. This concerns the BIN guard and filler count in `GeneratePan` (internal/generator/generator.go:55,64), `Bin6` and `Last4` (:132-138), `CvcLength` (:154) and `MaskPan` (:206). The two agree for ASCII BINs and PANs. A BIN or PAN with multi-byte characters is outside the model: Go would count, cut and mask it byte by byte, possibly inside a character.
- Common.LowerAscii: models `strings.ToLower` for ASCII letters only; non-ASCII letters are kept as they are, where Go would lower-case them by Unicode rules.
