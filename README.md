# Flight search model

A Dafny model of the flight search in `src/main/Flight.java`. The search reads a comma-separated flight table one line at a time. From each line it deletes every whitespace character and splits what is left on commas. It keeps the lines whose origin (field 1) or destination (field 2) equals the requested airport and whose weekday field (field 3) contains the day string of the requested date. Each kept line becomes a `Flight` record. Its departure time, arrival time and price (fields 4, 5 and 7) go through `Integer.parseInt`.

The day string is `Calendar.DAY_OF_WEEK - 1` rendered by `Integer.toString`: Sunday gives "0" and Saturday gives "6". A second constructor, `Flight(airport, date)`, runs the search and appends its result to the static list `Flight.flights`.

Modules:

- `Wrappers`: `Option`, `Result` (usable with `:-`) and `Outcome`. These stand in for a missing file, a thrown exception and a call that completed normally.
- `JavaString`: the three `String` operations the search uses, with their laws.
  - `replaceAll("\\s+", "")` is `StripWhitespace`, over Java's `\s` class.
  - `split(",")` is `Split`, with limit-0 semantics: trailing empty fields are dropped, and a string with no comma is returned whole.
  - `contains` is `Contains`.
- `JavaInteger`: Java's `int` as the newtype `int32`, plus `Integer.parseInt` and `Integer.toString` in radix 10.
- `FlightSearch`: the model itself.
  - The `Flight` record and the exceptions (`SearchError`).
  - The per-line step `ScanFields`/`ScanLine` and the specification function `Search`.
  - The imperative `searchFlights` loop (`SearchFlights`), proved equal to `Search`.
  - The static list as the class `FlightAccumulator`.
- `FlightProperties`: what the search promises, proved against `Search`.
  - The reference filter `MatchingLines`.
  - Soundness, the exception cases, the effect of whitespace and of extra fields, and reading back written records.
  - The day-string behaviour and a worked example row.

The data file is a parameter: `Some(lines)` is the file's lines in order, and `None` is a file that cannot be opened (`FileNotFoundException`). The date enters as its `Calendar.DAY_OF_WEEK` value (1 = Sunday … 7 = Saturday).

Where the code and its own comments differ, the model follows the code.

- The comment in `getDayOfWeek` calls `DAY_OF_WEEK` zero-based and promises a one-based result. In fact `DAY_OF_WEEK` runs from 1 to 7, so the method returns "0" for Sunday through "6" for Saturday (Thursday gives "4", as the test at `src/test/FlightTest.java:36-39` expects). `SundayMissesDigitsOneToSeven` gives the consequence: a weekday field written with the digits 1 to 7 never matches a Sunday.
- The doc comment of the nine-argument constructor (`src/main/Flight.java:46`) says it adds the constructed flight to the static list, but its body (`src/main/Flight.java:58-72`) only assigns the nine fields. The datatype `Flight` stands for that constructor and for the getters (`src/main/Flight.java:160-176`) and touches no state; `RecordSearch` appends exactly the search result, with no extra entry per record built.
- `addAll` in the search constructor runs only after `searchFlights` has returned. A search that throws therefore leaves `Flight.flights` unchanged (`RecordSearch`).

## Model

| member | source | states |
|---|---|---|
| FlightSearch.Search | src/main/Flight.java:86-117 | The specification function of the loop; its contract is stated by `FlightProperties.SearchIsFilter` (the reference filter), `SearchSound`, `SearchReportsFirstError` and `FirstThrowingLine`. |
| FlightSearch.SearchFlightData | src/main/Flight.java:81-120 | `searchFlights` as a function: a missing file throws `FileNotFoundException`, otherwise `Search` for the date's day string; `SearchFlights` is proved equal to it. |
| FlightSearch.ScanFields | src/main/Flight.java:93-116 | The loop body on one tokenised line; its contract is `FlightProperties.ScanFieldsCases`. |
| FlightSearch.ScanLine | src/main/Flight.java:90-116 | The loop body on one raw line; its contract is `FlightProperties.ScanLineCases`, with `WhitespaceIgnored` and `AirportWithWhitespaceNeverMatches`. |
| FlightSearch.BuildFlight | src/main/Flight.java:102-114 | Reading fields 0 to 8 and calling the nine-argument constructor; its contract is `FlightProperties.BuildFlightSpec` (success and getters) and `FlightProperties.BuildFlightError` (which exception). |
| FlightSearch.IsMatch | src/main/Flight.java:98-99 | The match condition; `FlightProperties.SearchSound` and `DayMatchIsMembership` state what it means for the results. |
| FlightSearch.Tokens | src/main/Flight.java:90 | `replaceAll` then `split`; its laws are `JavaString.StripWhitespaceSpec`, `JavaString.SplitSpec` and `FlightProperties.TokensOfFormatLine`. |
| FlightSearch.FlightAccumulator.GetFlights | src/main/Flight.java:158 | `getFlights()` reads the static list; what the list holds after each search is the contract of `RecordSearch`. |
| FlightSearch.SearchFlights | src/main/Flight.java:81-120 | The loop returns `Search` of the file's lines for the day string of the date, and throws `FileNotFoundException` when the file is missing. Its invariant is that the list built so far is the search of the lines read so far. |
| FlightSearch.SearchStep | src/main/Flight.java:86-117 | One iteration: a line that throws makes the whole search throw that exception; otherwise the line's record, if it matches, is added after the earlier ones. |
| FlightSearch.SearchKeepsFirstError | src/main/Flight.java:86-117 | Once a prefix of the file has thrown, no later line changes the outcome. |
| FlightSearch.GetDayOfWeek | src/main/Flight.java:127-135 | The day string is one decimal digit whose value is `DAY_OF_WEEK - 1`. |
| FlightSearch.FlightAccumulator.constructor | src/main/Flight.java:19 | The static list starts empty. |
| FlightSearch.FlightAccumulator.RecordSearch | src/main/Flight.java:40-42 | A successful search appends its whole result, in order, to the static list. A search that throws leaves the list as it was and reports the exception. |
| FlightProperties.BuildFlightSpec | src/main/Flight.java:102-114 | A record is built exactly when the line has at least nine fields and fields 4, 5 and 7 parse as `int`. Its getters then return fields 0, 1, 2, 3, 6 and 8 unchanged and the parsed values of 4, 5 and 7. |
| FlightProperties.BuildFlightError | src/main/Flight.java:102-107 | A failed build throws `ArrayIndexOutOfBounds` at the first missing index (at most 8), every integer field before it having parsed, or `NumberFormat` for the first of fields 4, 5 and 7 that does not parse. |
| FlightProperties.ScanFieldsCases | src/main/Flight.java:93-116 | A line with fewer than four fields throws `ArrayIndexOutOfBounds` at the first missing index 1, 2 or 3. A non-matching line yields nothing. A matching line yields its record or the exception from building it. |
| FlightProperties.ScanLineCases | src/main/Flight.java:90-116 | One line does not throw exactly when it is `LineScannable`. Such a line yields a record exactly when it matches, and that record is the one built from its fields. |
| FlightProperties.SearchSound | src/main/Flight.java:98-99 | Every flight returned has the airport as origin or destination, and its weekdays contain the day string. |
| FlightProperties.SearchIsFilter | src/main/Flight.java:81-120 | The search equals the reference filter `MatchingLines`: it returns iff no line throws, and then it lists one record per matching line, in file order, each built from that line's fields. (Proved from its two halves, `SearchOkIffScannable` and `SearchFindsMatching`.) |
| FlightProperties.SearchOkScansAll | src/main/Flight.java:86-117 | A returned search has scanned every line without an exception. |
| FlightProperties.SearchReportsFirstError | src/main/Flight.java:86-117 | A thrown exception is the one from the first line that throws; every earlier line scanned normally. |
| FlightProperties.MatchingLinesSnoc | src/main/Flight.java:98-99 | The reference filter over a file with one more line ends with that line exactly when it matches. |
| FlightProperties.ShortLineFails | src/main/Flight.java:93-95 | Any line with fewer than four fields makes the search throw, even when it could not match; if it is the first line to throw, the exception is `ArrayIndexOutOfBounds` at its first missing index 1, 2 or 3. |
| FlightProperties.FirstThrowingLine | src/main/Flight.java:86-117 | When every line before line i scans and line i throws, the search throws line i's exception. |
| FlightProperties.MalformedMatchFails | src/main/Flight.java:102-107 | A matching line that lacks a field, or has a non-integer in field 4, 5 or 7, makes the search throw; if it is the first line to throw, the exception is the one its build throws (`BuildFlightError`). |
| FlightProperties.NonMatchingLineIgnored | src/main/Flight.java:98-116 | Removing a line that has four fields and does not match never changes the result. |
| FlightProperties.UnknownAirportGivesEmpty | src/main/Flight.java:98 | If every line has four fields and none names the airport, the search returns an empty list (the "FAK" test). |
| FlightProperties.AirportWithWhitespaceNeverMatches | src/main/Flight.java:90 | An airport containing whitespace matches no line, since the fields have lost theirs. |
| FlightProperties.WhitespaceIgnored | src/main/Flight.java:90 | Whitespace inserted anywhere in a line does not change its outcome. |
| FlightProperties.ExtraFieldsIgnored | src/main/Flight.java:102-107 | Fields after the ninth are never read. |
| FlightProperties.IntToStringIsPlain | src/main/Flight.java:90 | `Integer.toString` output holds no comma and no whitespace, so it survives tokenising. |
| FlightProperties.JoinIsPlain | src/main/Flight.java:90 | Joining whitespace-free fields with commas gives a whitespace-free line. |
| FlightProperties.TokensOfFormatLine | src/main/Flight.java:90 | A record written as a line of the file tokenises back to its nine fields. |
| FlightProperties.RecordRoundTrip | src/main/Flight.java:102-114 | Reading back a written record rebuilds the same record. |
| FlightProperties.WrittenRecordIsFound | src/main/Flight.java:98-115 | A written record is found again when searching for its origin on any of its days. |
| FlightProperties.DayOfWeekExamples | src/test/FlightTest.java:36-39 | Sunday gives "0", Monday "1", Thursday "4" (15 March 2018) and Saturday "6". |
| FlightProperties.DayOfWeekParsesBack | src/main/Flight.java:134 | `Integer.parseInt` of the day string is `DAY_OF_WEEK - 1`, so distinct days give distinct strings. |
| FlightProperties.DayMatchIsMembership | src/main/Flight.java:99 | The weekday test holds exactly when field 3 contains the day's digit character. |
| FlightProperties.SundayMissesDigitsOneToSeven | src/main/Flight.java:131-134 | Weekdays written with the digits 1 to 7 never match a Sunday. |
| FlightProperties.DigitsOneToSevenMatchOtherDays | src/main/Flight.java:99 | "1234567" matches Monday through Saturday. |
| FlightProperties.ExampleRow | src/main/Flight.java:90-115 | The row `BA123,LGW,JFK,1234567,0900,1700,BA,450,Economy` is found by a Wednesday search for LGW, with departure 900. A search for ZZZ finds nothing. |
| FlightProperties.ExampleScan | src/main/Flight.java:93-115 | The example row yields its record for LGW and nothing for ZZZ. |
| FlightProperties.ExampleMatch | src/main/Flight.java:98-99 | The example row matches LGW on Wednesday and does not match ZZZ. |
| FlightProperties.ExampleBuild | src/main/Flight.java:102-114 | The example row's fields build the expected record. |
| FlightProperties.ExampleTokens | src/main/Flight.java:90 | The example row tokenises to its nine fields. |
| FlightProperties.ExampleNumbers | src/main/Flight.java:103-106 | "0900", "1700" and "450" parse as 900, 1700 and 450. |
| JavaString.StripWhitespace | src/main/Flight.java:90 | `replaceAll("\\s+", "")`; its contract is `StripWhitespaceSpec`, `StripConcat` and `StripAllWhitespace`. |
| JavaString.Split | src/main/Flight.java:90 | `split(",")` with limit 0; its contract is `SplitSpec`, `SplitJoin` and `SplitEdgeCases`. |
| JavaString.Contains | src/main/Flight.java:99 | `contains`; its contract for the one-character day string is `ContainsChar`. |
| JavaString.StripWhitespaceSpec | src/main/Flight.java:90 | After `replaceAll("\\s+", "")` no whitespace is left and no character is added, and a whitespace-free line is unchanged. |
| JavaString.StripConcat | src/main/Flight.java:90 | Whitespace removal distributes over concatenation. |
| JavaString.StripAllWhitespace | src/main/Flight.java:90 | A run of whitespace disappears completely. |
| JavaString.SplitAllSpec | src/main/Flight.java:90 | No field between commas holds a comma, and every character of a field comes from the line. |
| JavaString.JoinSplitAll | src/main/Flight.java:90 | Joining all the comma-separated fields with commas gives back the line. |
| JavaString.SplitAllPrefix | src/main/Flight.java:90 | A comma-free prefix is glued onto the first field of what follows. |
| JavaString.SplitAllJoin | src/main/Flight.java:90 | Splitting comma-free fields joined by commas gives the fields back. |
| JavaString.DropTrailingEmptySpec | src/main/Flight.java:90 | Limit-0 splitting drops exactly the run of empty fields at the end. |
| JavaString.SplitSpec | src/main/Flight.java:90 | `split(",")` keeps a prefix of the fields and drops only empty ones. The last kept field is non-empty, unless the line is "", and no field holds a comma. |
| JavaString.SplitJoin | src/main/Flight.java:90 | `split(",")` inverts joining for comma-free fields: a single field always, several when the last is non-empty. |
| JavaString.SplitEdgeCases | src/main/Flight.java:90 | "" splits to [""], ",,," to [], ",a" to ["", "a"] and "a,,b,," to ["a", "", "b"]. |
| JavaString.SplitAllExamples | src/main/Flight.java:90 | The comma-separated fields of those strings before trailing empties are dropped. |
| JavaString.ContainsChar | src/main/Flight.java:99 | `contains` on a one-character string is membership. |
| JavaInteger.NatToString | src/main/Flight.java:134 | The digits of a natural number have no leading zero and denote that number. |
| JavaInteger.IntToString | src/main/Flight.java:134 | `Integer.toString` starts with '-' exactly for negative numbers. |
| JavaInteger.ParseInt | src/main/Flight.java:103-106 | Every refusal is a `NumberFormatException` naming the input string. |
| JavaInteger.ParseIntOfToString | src/main/Flight.java:134 | `Integer.parseInt` inverts `Integer.toString` on every `int`. |
| JavaInteger.ParseIntOfDigits | src/main/Flight.java:103-106 | A digit string whose value fits in an `int` parses to that value. |
| JavaInteger.ParseIntOfSignedDigits | src/main/Flight.java:103-106 | An optional '+' or '-' followed by decimal digits whose signed value lies in the `int` range parses to that value ("-0900" to -900, "+450" to 450). |
| JavaInteger.ParseIntLeadingZeros | src/main/Flight.java:103-106 | Leading zeros never change whether, or to what value, a digit string parses. |
| JavaInteger.ParseIntOutOfRange | src/main/Flight.java:103-106 | A correctly written number outside the `int` range is refused. |
| JavaInteger.ParseIntExamples | src/main/Flight.java:103-106 | "0900", "-12" and "+7" parse as 900, -12 and 7. |
| JavaInteger.ParseIntRefusals | src/main/Flight.java:103-106 | "", "-" and "9a" are refused. |
| JavaInteger.ParseIntAcceptsOnlyPaddedDecimal | src/main/Flight.java:103-106 | Every accepted string is an optional sign, then zeros, then the canonical digits of its value. |
| JavaInteger.ParsedDigits | src/main/Flight.java:103-106 | An accepted string is its sign followed by digits that denote the absolute value. |
| JavaInteger.DigitsValueLeadingZeros | src/main/Flight.java:103-106 | Leading zeros do not change the value of a digit string. |
| JavaInteger.NatToStringOfValue | src/main/Flight.java:134 | Canonical digit strings are the `toString` of their value. |

## Left out

- Reading the file: `Scanner`, `File` and line splitting are replaced by the file's lines as a parameter, or `None` when the file is missing. No other I/O error is modelled.
- Dates: the `Date` to `Calendar` conversion, with its time zone and locale, is left out. The date enters as its `DAY_OF_WEEK` value.
- `toString` (`src/main/Flight.java:144-155`): it does not affect the search; it only formats a record for display.
- `null` arguments and the `NullPointerException` they would cause: strings are values here.
- `getFlights`: the model returns the list's value. The Java method hands out the live `ArrayList`, which callers could change through aliasing.
- The partly built `Flight` object that the search constructor creates around its call to `searchFlights`. Its fields keep their defaults (null and 0), and nothing in the search reads them.
- ParseInt: accepts only the ASCII digits '0' to '9'. `Integer.parseInt` also accepts other Unicode decimal digits through `Character.digit`.
- Unicode whitespace: the model's whitespace is Java's default regex `\s` class (space, tab, line feed, vertical tab, form feed, carriage return). The `UNICODE_CHARACTER_CLASS` flag, which the source does not set, is not modelled.
- The receiver of `searchFlights`: the Java method is an instance method, but it never reads or writes the object or `flights`. The model is therefore a method without a `modifies` clause, so by its frame it leaves the accumulator unchanged.
