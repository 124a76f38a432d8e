/** What the flight search of Flight.java promises, stated over the model in
    FlightSearch and proved. */
module FlightProperties {
  import opened Wrappers
  import opened JavaString
  import opened JavaInteger
  import opened FlightSearch

  /** The nine-argument constructor and the getters: a record built from a
      line's fields gives back fields 0, 1, 2, 3, 6 and 8 as they are and the
      `parseInt` values of fields 4, 5 and 7; a record is built exactly when all
      nine fields exist and those three are integers. */
  lemma BuildFlightSpec(fields: seq<string>)
    ensures BuildFlight(fields).Ok? <==>
              |fields| >= 9 && ParseInt(fields[4]).Ok? && ParseInt(fields[5]).Ok? && ParseInt(fields[7]).Ok?
    ensures BuildFlight(fields).Ok? ==>
              var flight := BuildFlight(fields).value;
              && flight.flightCode == fields[0]
              && flight.originAirport == fields[1]
              && flight.destinationAirport == fields[2]
              && flight.weekdays == fields[3]
              && ParseInt(fields[4]) == Ok(flight.departureTime)
              && ParseInt(fields[5]) == Ok(flight.arrivalTime)
              && flight.airline == fields[6]
              && ParseInt(fields[7]) == Ok(flight.price)
              && flight.flightClass == fields[8]
  {
  }

  /** Which exception building a record throws: fields are read in the order
      0 to 8, so it is `ArrayIndexOutOfBoundsException` at the first missing
      index when every integer field before it parsed, or
      `NumberFormatException` for the first of fields 4, 5 and 7 that does not
      parse. */
  lemma BuildFlightError(fields: seq<string>)
    ensures BuildFlight(fields).Err? ==>
              match BuildFlight(fields).error
              case IndexOutOfBounds(i, n) =>
                && n == |fields| == i <= 8
                && (4 < i ==> ParseInt(fields[4]).Ok?)
                && (5 < i ==> ParseInt(fields[5]).Ok?)
                && (7 < i ==> ParseInt(fields[7]).Ok?)
              case NumberFormat(text) =>
                || (|fields| > 4 && text == fields[4] && ParseInt(text).Err?)
                || (|fields| > 5 && ParseInt(fields[4]).Ok? && text == fields[5] && ParseInt(text).Err?)
                || (|fields| > 7 && ParseInt(fields[4]).Ok? && ParseInt(fields[5]).Ok?
                    && text == fields[7] && ParseInt(text).Err?)
              case FileNotFound(_) => false
  {
  }

  /** One line of the loop: fewer than four fields always throw (at the first
      missing index), a line with four or more that does not match yields
      nothing, and a matching line yields its record or the exception building
      it raised. */
  lemma ScanFieldsCases(fields: seq<string>, airport: string, day: string)
    ensures |fields| < 4 ==>
              ScanFields(fields, airport, day) == Err(IndexOutOfBounds(if |fields| == 0 then 1 else |fields|, |fields|))
    ensures |fields| >= 4 && !IsMatch(fields, airport, day) ==> ScanFields(fields, airport, day) == Ok(None)
    ensures IsMatch(fields, airport, day) ==>
              match BuildFlight(fields)
              case Ok(flight) => ScanFields(fields, airport, day) == Ok(Some(flight))
              case Err(e) => ScanFields(fields, airport, day) == Err(e)
  {
  }

  /** Every flight the search returns has the airport as its origin or its
      destination, and its weekdays contain the day string. */
  lemma {:induction false} SearchSound(lines: seq<string>, airport: string, day: string)
    requires Search(lines, airport, day).Ok?
    ensures forall f :: f in Search(lines, airport, day).value ==>
              (f.originAirport == airport || f.destinationAirport == airport) && Contains(f.weekdays, day)
  {
    if lines != [] {
      var last := lines[|lines| - 1];
      SearchSound(lines[..|lines| - 1], airport, day);
      ScanFieldsCases(Tokens(last), airport, day);
      BuildFlightSpec(Tokens(last));
    }
  }

  predicate LineMatches(line: string, airport: string, day: string) {
    IsMatch(Tokens(line), airport, day)
  }

  /** The matching lines, in file order: the reference the search is compared to. */
  function MatchingLines(lines: seq<string>, airport: string, day: string): seq<string> {
    if lines == [] then []
    else (if LineMatches(lines[0], airport, day) then [lines[0]] else [])
         + MatchingLines(lines[1..], airport, day)
  }

  /** A line that does not throw: it has fields 1 to 3, and if it matches it
      has all nine fields with integers in fields 4, 5 and 7. */
  predicate LineScannable(line: string, airport: string, day: string) {
    |Tokens(line)| >= 4 && (LineMatches(line, airport, day) ==> BuildFlight(Tokens(line)).Ok?)
  }

  /** No line throws. */
  predicate Scannable(lines: seq<string>, airport: string, day: string) {
    forall i :: 0 <= i < |lines| ==> LineScannable(lines[i], airport, day)
  }

  /** The body of the loop on one line, in terms of the reference predicates. */
  lemma ScanLineCases(line: string, airport: string, day: string)
    ensures ScanLine(line, airport, day).Ok? <==> LineScannable(line, airport, day)
    ensures ScanLine(line, airport, day).Ok? ==>
              (ScanLine(line, airport, day).value.Some? <==> LineMatches(line, airport, day))
    ensures ScanLine(line, airport, day).Ok? && LineMatches(line, airport, day) ==>
              BuildFlight(Tokens(line)) == Ok(ScanLine(line, airport, day).value.value)
  {
    ScanFieldsCases(Tokens(line), airport, day);
  }

  /** Search on a file with one more line at the end. */
  lemma SearchSnoc(init: seq<string>, last: string, airport: string, day: string)
    ensures Search(init + [last], airport, day) ==
              match Search(init, airport, day)
              case Err(e) => Err(e)
              case Ok(earlier) =>
                match ScanLine(last, airport, day)
                case Err(e) => Err(e)
                case Ok(scanned) => Ok(earlier + if scanned.Some? then [scanned.value] else [])
  {
    var lines := init + [last];
    assert lines[..|lines| - 1] == init;
    assert lines[|lines| - 1] == last;
  }

  lemma {:induction false} MatchingLinesSnoc(lines: seq<string>, airport: string, day: string)
    requires lines != []
    ensures MatchingLines(lines, airport, day) ==
              MatchingLines(lines[..|lines| - 1], airport, day)
              + if LineMatches(lines[|lines| - 1], airport, day) then [lines[|lines| - 1]] else []
  {
    if |lines| > 1 {
      var init := lines[..|lines| - 1];
      MatchingLinesSnoc(lines[1..], airport, day);
      assert lines[1..][..|lines| - 2] == init[1..];
      assert init[0] == lines[0];
    }
  }

  /** The search returns exactly when no line throws. */
  lemma {:induction false} SearchOkIffScannable(lines: seq<string>, airport: string, day: string)
    ensures Search(lines, airport, day).Ok? <==> Scannable(lines, airport, day)
  {
    if lines != [] {
      var init, last := lines[..|lines| - 1], lines[|lines| - 1];
      SearchOkIffScannable(init, airport, day);
      assert lines == init + [last];
      SearchSnoc(init, last, airport, day);
      ScanLineCases(last, airport, day);
      assert Scannable(lines, airport, day) <==>
             Scannable(init, airport, day) && LineScannable(last, airport, day) by {
        if Scannable(init, airport, day) && LineScannable(last, airport, day) {
          forall i | 0 <= i < |lines| ensures LineScannable(lines[i], airport, day) {
            if i < |init| { assert lines[i] == init[i]; }
          }
        }
        if Scannable(lines, airport, day) {
          forall i | 0 <= i < |init| ensures LineScannable(init[i], airport, day) {
            assert lines[i] == init[i];
          }
          assert LineScannable(lines[|lines| - 1], airport, day);
        }
      }
    }
  }

  /** The records built from the given lines, one per line, in order. */
  predicate BuiltFrom(found: seq<Flight>, matching: seq<string>) {
    |found| == |matching|
    && forall k :: 0 <= k < |found| ==> BuildFlight(Tokens(matching[k])) == Ok(found[k])
  }

  lemma BuiltFromSnoc(found: seq<Flight>, matching: seq<string>, f: Flight, line: string)
    requires BuiltFrom(found, matching) && BuildFlight(Tokens(line)) == Ok(f)
    ensures BuiltFrom(found + [f], matching + [line])
  {
    var found', matching' := found + [f], matching + [line];
    forall k | 0 <= k < |found'| ensures BuildFlight(Tokens(matching'[k])) == Ok(found'[k]) {
      if k < |found| { assert found'[k] == found[k] && matching'[k] == matching[k]; }
    }
  }

  /** A returned search holds one record per matching line, in file order,
      built from that line's fields. */
  lemma {:induction false} SearchFindsMatching(lines: seq<string>, airport: string, day: string)
    requires Search(lines, airport, day).Ok?
    ensures BuiltFrom(Search(lines, airport, day).value, MatchingLines(lines, airport, day))
  {
    if lines != [] {
      var init, last := lines[..|lines| - 1], lines[|lines| - 1];
      assert lines == init + [last];
      SearchSnoc(init, last, airport, day);
      assert Search(init, airport, day).Ok?;
      var scanned := ScanLine(last, airport, day);
      assert scanned.Ok?;
      SearchFindsMatching(init, airport, day);
      MatchingLinesSnoc(lines, airport, day);
      ScanLineCases(last, airport, day);
      var earlier, m := Search(init, airport, day).value, MatchingLines(init, airport, day);
      if LineMatches(last, airport, day) {
        assert Search(lines, airport, day).value == earlier + [scanned.value.value];
        assert MatchingLines(lines, airport, day) == m + [last];
        BuiltFromSnoc(earlier, m, scanned.value.value, last);
      } else {
        assert Search(lines, airport, day).value == earlier + [];
        assert earlier + [] == earlier;
        assert MatchingLines(lines, airport, day) == m + [];
        assert m + [] == m;
      }
    }
  }

  /** The search result is exactly the filter of the lines: it is an exception
      precisely when some line throws, and otherwise holds one record per
      matching line, in file order, built from that line's fields. */
  lemma SearchIsFilter(lines: seq<string>, airport: string, day: string)
    ensures Search(lines, airport, day).Ok? <==> Scannable(lines, airport, day)
    ensures Search(lines, airport, day).Ok? ==>
              var found := Search(lines, airport, day).value;
              var matching := MatchingLines(lines, airport, day);
              |found| == |matching|
              && forall k :: 0 <= k < |found| ==> BuildFlight(Tokens(matching[k])) == Ok(found[k])
  {
    SearchOkIffScannable(lines, airport, day);
    if Search(lines, airport, day).Ok? {
      SearchFindsMatching(lines, airport, day);
    }
  }

  /** A search that returns has scanned every line without an exception. */
  lemma {:induction false} SearchOkScansAll(lines: seq<string>, airport: string, day: string)
    requires Search(lines, airport, day).Ok?
    ensures forall j :: 0 <= j < |lines| ==> ScanLine(lines[j], airport, day).Ok?
  {
    if lines != [] {
      var init, last := lines[..|lines| - 1], lines[|lines| - 1];
      assert lines == init + [last];
      SearchSnoc(init, last, airport, day);
      assert Search(init, airport, day).Ok? && ScanLine(last, airport, day).Ok?;
      SearchOkScansAll(init, airport, day);
      forall j | 0 <= j < |init| ensures ScanLine(lines[j], airport, day).Ok? {
        assert lines[j] == init[j];
      }
    }
  }

  /** An exception is the one thrown by the first line that throws. */
  lemma {:induction false} SearchReportsFirstError(lines: seq<string>, airport: string, day: string)
    returns (i: nat)
    requires Search(lines, airport, day).Err?
    ensures i < |lines| && ScanLine(lines[i], airport, day) == Err(Search(lines, airport, day).error)
    ensures forall j :: 0 <= j < i ==> ScanLine(lines[j], airport, day).Ok?
  {
    var init := lines[..|lines| - 1];
    if Search(init, airport, day).Err? {
      i := SearchReportsFirstError(init, airport, day);
      assert lines[i] == init[i];
      forall j | 0 <= j < i ensures ScanLine(lines[j], airport, day).Ok? {
        assert lines[j] == init[j];
      }
    } else {
      i := |lines| - 1;
      SearchOkScansAll(init, airport, day);
      forall j | 0 <= j < i ensures ScanLine(lines[j], airport, day).Ok? {
        assert lines[j] == init[j];
      }
    }
  }

  /** A line with fewer than four fields makes the whole search throw, whether
      or not it would have matched; when every earlier line scanned, the
      exception is `ArrayIndexOutOfBoundsException` at its first missing index. */
  lemma ShortLineFails(lines: seq<string>, i: nat, airport: string, day: string)
    requires i < |lines| && |Tokens(lines[i])| < 4
    ensures Search(lines, airport, day).Err?
    ensures var n := |Tokens(lines[i])|;
            (forall j :: 0 <= j < i ==> ScanLine(lines[j], airport, day).Ok?) ==>
              Search(lines, airport, day) == Err(IndexOutOfBounds(if n == 0 then 1 else n, n))
  {
    ScanFieldsCases(Tokens(lines[i]), airport, day);
    if Search(lines, airport, day).Ok? {
      SearchOkScansAll(lines, airport, day);
    }
    if forall j :: 0 <= j < i ==> ScanLine(lines[j], airport, day).Ok? {
      FirstThrowingLine(lines, i, airport, day);
    }
  }

  /** The first line that throws decides the search: its exception is the
      search's. */
  lemma FirstThrowingLine(lines: seq<string>, i: nat, airport: string, day: string)
    requires i < |lines| && ScanLine(lines[i], airport, day).Err?
    requires forall j :: 0 <= j < i ==> ScanLine(lines[j], airport, day).Ok?
    ensures Search(lines, airport, day) == Err(ScanLine(lines[i], airport, day).error)
  {
    if Search(lines, airport, day).Ok? {
      SearchOkScansAll(lines, airport, day);
    }
    var k := SearchReportsFirstError(lines, airport, day);
  }

  /** A matching line that lacks a field or has a non-integer in field 4, 5 or
      7 makes the whole search throw; when every earlier line scanned, the
      exception is the one building its record throws (see BuildFlightError). */
  lemma MalformedMatchFails(lines: seq<string>, i: nat, airport: string, day: string)
    requires i < |lines| && LineMatches(lines[i], airport, day)
    requires var fields := Tokens(lines[i]);
             |fields| < 9 || ParseInt(fields[4]).Err? || ParseInt(fields[5]).Err? || ParseInt(fields[7]).Err?
    ensures Search(lines, airport, day).Err?
    ensures BuildFlight(Tokens(lines[i])).Err?
    ensures (forall j :: 0 <= j < i ==> ScanLine(lines[j], airport, day).Ok?) ==>
              Search(lines, airport, day) == Err(BuildFlight(Tokens(lines[i])).error)
  {
    var fields := Tokens(lines[i]);
    BuildFlightSpec(fields);
    ScanFieldsCases(fields, airport, day);
    assert ScanLine(lines[i], airport, day) == Err(BuildFlight(fields).error);
    if Search(lines, airport, day).Ok? {
      SearchOkScansAll(lines, airport, day);
    }
    if forall j :: 0 <= j < i ==> ScanLine(lines[j], airport, day).Ok? {
      FirstThrowingLine(lines, i, airport, day);
    }
  }

  /** A line that has fields 1 to 3 and does not match is never parsed any
      further: whatever its other fields hold, removing it changes nothing. */
  lemma {:induction false} NonMatchingLineIgnored(before: seq<string>, line: string, after: seq<string>,
                                                  airport: string, day: string)
    requires |Tokens(line)| >= 4 && !LineMatches(line, airport, day)
    ensures Search(before + [line] + after, airport, day) == Search(before + after, airport, day)
  {
    if after == [] {
      assert before + [line] + after == before + [line];
      assert before + after == before;
      ScanFieldsCases(Tokens(line), airport, day);
      SearchSnoc(before, line, airport, day);
      var r := Search(before, airport, day);
      if r.Ok? {
        assert r.value + [] == r.value;
      }
    } else {
      var init, last := after[..|after| - 1], after[|after| - 1];
      NonMatchingLineIgnored(before, line, init, airport, day);
      assert before + [line] + after == (before + [line] + init) + [last];
      assert before + after == (before + init) + [last];
      SearchSnoc(before + [line] + init, last, airport, day);
      SearchSnoc(before + init, last, airport, day);
    }
  }

  /** With every line well formed and no line naming the airport in field 1
      or field 2, the search returns no flights rather than an exception. */
  lemma {:induction false} UnknownAirportGivesEmpty(lines: seq<string>, airport: string, day: string)
    requires forall i :: 0 <= i < |lines| ==>
               |Tokens(lines[i])| >= 4 && Tokens(lines[i])[1] != airport && Tokens(lines[i])[2] != airport
    ensures Search(lines, airport, day) == Ok([])
  {
    if lines != [] {
      var init := lines[..|lines| - 1];
      assert forall i :: 0 <= i < |init| ==> init[i] == lines[i];
      UnknownAirportGivesEmpty(init, airport, day);
      var last := Tokens(lines[|lines| - 1]);
      assert |last| >= 4 && last[1] != airport && last[2] != airport;
      ScanFieldsCases(last, airport, day);
      assert ScanLine(lines[|lines| - 1], airport, day) == Ok(None);
      var none: seq<Flight> := [];
      assert none + none == none;
    }
  }

  /** An airport code with whitespace in it matches no line, because every field
      has lost its whitespace before the comparison. */
  lemma AirportWithWhitespaceNeverMatches(line: string, airport: string, day: string)
    requires !NoWhitespace(airport)
    ensures !LineMatches(line, airport, day)
  {
    var stripped := StripWhitespace(line);
    var fields := Tokens(line);
    StripWhitespaceSpec(line);
    SplitSpec(stripped);
    SplitAllSpec(stripped);
    if |fields| >= 4 {
      var i :| 0 <= i < |airport| && IsWhitespace(airport[i]);
      assert fields[1] == SplitAll(stripped)[1] && fields[2] == SplitAll(stripped)[2];
      forall c | c in stripped ensures !IsWhitespace(c) {
        var j :| 0 <= j < |stripped| && stripped[j] == c;
      }
      assert airport[i] !in fields[1] && airport[i] !in fields[2];
    }
  }

  /** Whitespace inserted anywhere in a line makes no difference. */
  lemma WhitespaceIgnored(a: string, w: string, b: string, airport: string, day: string)
    requires forall i :: 0 <= i < |w| ==> IsWhitespace(w[i])
    ensures ScanLine(a + w + b, airport, day) == ScanLine(a + b, airport, day)
  {
    StripConcat(a + w, b);
    StripConcat(a, w);
    StripConcat(a, b);
    StripAllWhitespace(w);
    assert StripWhitespace(a) + [] == StripWhitespace(a);
    assert StripWhitespace(a + w + b) == StripWhitespace(a + b);
  }

  /** Fields after the ninth are never looked at. */
  lemma ExtraFieldsIgnored(fields: seq<string>, extra: seq<string>, airport: string, day: string)
    requires |fields| >= 9
    ensures ScanFields(fields + extra, airport, day) == ScanFields(fields, airport, day)
  {
    var longer := fields + extra;
    assert forall i :: 0 <= i < 9 ==> longer[i] == fields[i];
    assert Field(longer, 0) == Field(fields, 0) && Field(longer, 1) == Field(fields, 1);
    assert Field(longer, 6) == Field(fields, 6) && Field(longer, 8) == Field(fields, 8);
  }

  /** The nine fields of a record as they appear in the data file, with the
      integers written by Integer.toString. */
  function FieldsOf(flight: Flight): seq<string> {
    [flight.flightCode, flight.originAirport, flight.destinationAirport, flight.weekdays,
     IntToString(flight.departureTime as int), IntToString(flight.arrivalTime as int),
     flight.airline, IntToString(flight.price as int), flight.flightClass]
  }

  /** A record written as a line of the data file. */
  function FormatLine(flight: Flight): string {
    Join(FieldsOf(flight))
  }

  predicate PlainField(s: string) {
    ',' !in s && NoWhitespace(s)
  }

  /** A record the data file can hold: no string field contains a comma or
      whitespace, and the last field is not empty (`split` would drop it). */
  predicate Writable(flight: Flight) {
    && PlainField(flight.flightCode) && PlainField(flight.originAirport)
    && PlainField(flight.destinationAirport) && PlainField(flight.weekdays)
    && PlainField(flight.airline) && PlainField(flight.flightClass)
    && flight.flightClass != ""
  }

  lemma IntToStringIsPlain(n: int)
    ensures PlainField(IntToString(n))
  {
    var s := IntToString(n);
    var digits := NatToString(if n < 0 then -n else n);
    assert s == if n < 0 then "-" + digits else digits;
    forall i | 0 <= i < |s| ensures s[i] == '-' || IsDigit(s[i]) {
      if n < 0 && i > 0 { assert s[i] == digits[i - 1]; }
    }
  }

  lemma {:induction false} JoinIsPlain(fields: seq<string>)
    requires |fields| >= 1 && forall k :: 0 <= k < |fields| ==> NoWhitespace(fields[k])
    ensures NoWhitespace(Join(fields))
  {
    if |fields| > 1 {
      JoinIsPlain(fields[1..]);
      var s, head, tail := Join(fields), fields[0], Join(fields[1..]);
      assert s == head + "," + tail;
      forall i | 0 <= i < |s| ensures !IsWhitespace(s[i]) {
        if i < |head| { assert s[i] == head[i]; }
        else if i > |head| { assert s[i] == tail[i - |head| - 1]; }
      }
    }
  }

  /** A record's line has no whitespace, and its tokens are its nine fields. */
  lemma TokensOfFormatLine(flight: Flight)
    requires Writable(flight)
    ensures Tokens(FormatLine(flight)) == FieldsOf(flight)
  {
    var fields := FieldsOf(flight);
    IntToStringIsPlain(flight.departureTime as int);
    IntToStringIsPlain(flight.arrivalTime as int);
    IntToStringIsPlain(flight.price as int);
    assert forall k :: 0 <= k < 9 ==> PlainField(fields[k]);
    JoinIsPlain(fields);
    StripWhitespaceSpec(FormatLine(flight));
    SplitJoin(fields);
  }

  /** Writing a record as a line and reading the line back gives the record:
      the tokeniser recovers its nine fields and the constructor call rebuilds
      it, so each getter returns the value that was written. */
  lemma RecordRoundTrip(flight: Flight)
    requires Writable(flight)
    ensures Tokens(FormatLine(flight)) == FieldsOf(flight)
    ensures BuildFlight(FieldsOf(flight)) == Ok(flight)
  {
    TokensOfFormatLine(flight);
    ParseIntOfToString(flight.departureTime);
    ParseIntOfToString(flight.arrivalTime);
    ParseIntOfToString(flight.price);
  }

  /** A file of one line: its record, nothing, or its exception. */
  lemma SearchOneLine(line: string, airport: string, day: string)
    ensures Search([line], airport, day) ==
              match ScanLine(line, airport, day)
              case Err(e) => Err(e)
              case Ok(None) => Ok([])
              case Ok(Some(flight)) => Ok([flight])
  {
    assert [line][..0] == [];
    match ScanLine(line, airport, day)
    case Err(e) =>
    case Ok(None) => var none: seq<Flight> := []; assert none + none == none;
    case Ok(Some(flight)) => assert [] + [flight] == [flight];
  }

  /** A written record is found again by a search for its origin on any of its
      days. */
  lemma WrittenRecordIsFound(flight: Flight, dayOfWeek: int)
    requires Writable(flight) && SUNDAY <= dayOfWeek <= SATURDAY
    requires Contains(flight.weekdays, GetDayOfWeek(dayOfWeek))
    ensures Search([FormatLine(flight)], flight.originAirport, GetDayOfWeek(dayOfWeek)) == Ok([flight])
  {
    var day := GetDayOfWeek(dayOfWeek);
    RecordRoundTrip(flight);
    ScanFieldsCases(FieldsOf(flight), flight.originAirport, day);
    SearchOneLine(FormatLine(flight), flight.originAirport, day);
  }

  /** Calendar.DAY_OF_WEEK minus one: Sunday "0", Thursday "4" (15 March 2018,
      the date the tests use), Saturday "6". */
  lemma DayOfWeekExamples()
    ensures GetDayOfWeek(SUNDAY) == "0"
    ensures GetDayOfWeek(MONDAY) == "1"
    ensures GetDayOfWeek(THURSDAY) == "4"
    ensures GetDayOfWeek(SATURDAY) == "6"
  {
  }

  /** The day string reads back, through Integer.parseInt, as the
      Calendar.DAY_OF_WEEK index minus one; so different days give different
      strings. */
  lemma DayOfWeekParsesBack(dayOfWeek: int)
    requires SUNDAY <= dayOfWeek <= SATURDAY
    ensures ParseInt(GetDayOfWeek(dayOfWeek)) == Ok((dayOfWeek - 1) as int32)
  {
    ParseIntOfToString((dayOfWeek - 1) as int32);
  }

  /** Field 3 passes the day test exactly when it holds the day's digit
      character somewhere. */
  lemma DayMatchIsMembership(weekdays: string, dayOfWeek: int)
    requires SUNDAY <= dayOfWeek <= SATURDAY
    ensures Contains(weekdays, GetDayOfWeek(dayOfWeek)) <==> DigitChar(dayOfWeek - 1) in weekdays
  {
    var day := GetDayOfWeek(dayOfWeek);
    assert day == [day[0]];
    assert day[0] == DigitChar(dayOfWeek - 1);
    ContainsChar(weekdays, day[0]);
  }

  /** Weekdays written with the digits 1 to 7 never match a Sunday query, whose
      day string is "0". */
  lemma SundayMissesDigitsOneToSeven(weekdays: string)
    requires forall i :: 0 <= i < |weekdays| ==> '1' <= weekdays[i] <= '7'
    ensures !Contains(weekdays, GetDayOfWeek(SUNDAY))
  {
    DayMatchIsMembership(weekdays, SUNDAY);
    assert DigitChar(0) == '0';
    assert '0' !in weekdays by {
      forall j | 0 <= j < |weekdays| ensures weekdays[j] != '0' { }
    }
  }

  /** "1234567" matches every other day. */
  lemma DigitsOneToSevenMatchOtherDays(dayOfWeek: int)
    requires MONDAY <= dayOfWeek <= SATURDAY
    ensures Contains("1234567", GetDayOfWeek(dayOfWeek))
  {
    DayMatchIsMembership("1234567", dayOfWeek);
    var k := dayOfWeek - 2;
    assert "1234567"[k] as int == '1' as int + k by {
      if k == 0 { } else if k == 1 { } else if k == 2 { } else if k == 3 { } else if k == 4 { } else { }
    }
    assert "1234567"[k] == DigitChar(dayOfWeek - 1);
  }

  /** The fields of the example row of the flight table,
      `BA123,LGW,JFK,1234567,0900,1700,BA,450,Economy`. */
  const EXAMPLE_FIELDS: seq<string> := ["BA123", "LGW", "JFK", "1234567", "0900", "1700", "BA", "450", "Economy"]

  /** The example row: a Wednesday search for LGW returns its one record,
      with "0900" read as 900; a search for ZZZ returns none. */
  lemma ExampleRow()
    ensures Search([Join(EXAMPLE_FIELDS)], "LGW", GetDayOfWeek(WEDNESDAY))
            == Ok([Flight("BA123", "LGW", "JFK", "1234567", 900, 1700, "BA", 450, "Economy")])
    ensures Search([Join(EXAMPLE_FIELDS)], "ZZZ", GetDayOfWeek(WEDNESDAY)) == Ok([])
  {
    var line := Join(EXAMPLE_FIELDS);
    var day := GetDayOfWeek(WEDNESDAY);
    ExampleScan(day);
    SearchOneLine(line, "LGW", day);
    SearchOneLine(line, "ZZZ", day);
  }

  lemma ExampleScan(day: string)
    requires day == GetDayOfWeek(WEDNESDAY)
    ensures ScanLine(Join(EXAMPLE_FIELDS), "LGW", day)
            == Ok(Some(Flight("BA123", "LGW", "JFK", "1234567", 900, 1700, "BA", 450, "Economy")))
    ensures ScanLine(Join(EXAMPLE_FIELDS), "ZZZ", day) == Ok(None)
  {
    ExampleTokens();
    ExampleMatch(day);
    ExampleBuild();
    ScanFieldsCases(EXAMPLE_FIELDS, "LGW", day);
    ScanFieldsCases(EXAMPLE_FIELDS, "ZZZ", day);
  }

  lemma ExampleMatch(day: string)
    requires day == GetDayOfWeek(WEDNESDAY)
    ensures IsMatch(EXAMPLE_FIELDS, "LGW", day)
    ensures |EXAMPLE_FIELDS| >= 4 && !IsMatch(EXAMPLE_FIELDS, "ZZZ", day)
  {
    assert day == "3";
    ContainsChar("1234567", '3');
    assert '3' == "1234567"[2];
    assert EXAMPLE_FIELDS[3] == "1234567";
  }

  lemma ExampleBuild()
    ensures BuildFlight(EXAMPLE_FIELDS) == Ok(Flight("BA123", "LGW", "JFK", "1234567", 900, 1700, "BA", 450, "Economy"))
  {
    ExampleNumbers();
    BuildFlightSpec(EXAMPLE_FIELDS);
  }

  lemma ExampleTokens()
    ensures Tokens(Join(EXAMPLE_FIELDS)) == EXAMPLE_FIELDS
  {
    var fields := EXAMPLE_FIELDS;
    forall k | 0 <= k < |fields| ensures PlainField(fields[k]) {
      PlainLiteral(fields[k]);
    }
    JoinIsPlain(fields);
    StripWhitespaceSpec(Join(fields));
    SplitJoin(fields);
  }

  /** Letters and digits are plain. */
  lemma PlainLiteral(s: string)
    requires forall i :: 0 <= i < |s| ==> 'A' <= s[i] <= 'z' || IsDigit(s[i])
    ensures PlainField(s)
  {
  }
  lemma ExampleNumbers()
    ensures ParseInt("0900") == Ok(900) && ParseInt("1700") == Ok(1700) && ParseInt("450") == Ok(450)
  {
    ParseIntExamples();
    Value1700();
    Value450();
    ParseIntOfDigits("1700");
    ParseIntOfDigits("450");
  }

  lemma Value1700()
    ensures IsDigits("1700") && DigitsValue("1700") == 1700
  {
    assert "17"[..1] == "1";
    assert DigitsValue("17") == 17;
    assert "170"[..2] == "17";
    assert DigitsValue("170") == 170;
    assert "1700"[..3] == "170";
  }

  lemma Value450()
    ensures IsDigits("450") && DigitsValue("450") == 450
  {
    assert "45"[..1] == "4";
    assert DigitsValue("45") == 45;
    assert "450"[..2] == "45";
  }
}
