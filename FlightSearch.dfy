/** The flight search of src/main/Flight.java: a comma-separated flight table,
    given as its lines, is filtered by airport (origin or destination) and by
    day of the week, and the matching rows become Flight records. The static
    list `Flight.flights` that collects every search made through the search
    constructor is the class FlightAccumulator. */
module FlightSearch {
  import opened Wrappers
  import opened JavaString
  import opened JavaInteger

  /** The relative path the search opens. */
  const DEFAULT_FLIGHT_DATA_FILE: string := "flightData.csv"

  /** The values of java.util.Calendar's DAY_OF_WEEK field. */
  const SUNDAY: int := 1
  const MONDAY: int := 2
  const TUESDAY: int := 3
  const WEDNESDAY: int := 4
  const THURSDAY: int := 5
  const FRIDAY: int := 6
  const SATURDAY: int := 7

  /** One row of the flight table. The Java class assigns these fields once,
      in its nine-argument constructor, and never changes them; the getters are
      the destructors. */
  datatype Flight = Flight(
    flightCode: string,
    originAirport: string,
    destinationAirport: string,
    weekdays: string,
    departureTime: int32,
    arrivalTime: int32,
    airline: string,
    price: int32,
    flightClass: string)

  /** The exceptions a search can throw. */
  datatype SearchError =
    | FileNotFound(path: string)              // FileNotFoundException from `new Scanner(new File(...))`
    | IndexOutOfBounds(index: nat, length: nat) // ArrayIndexOutOfBoundsException on `fields[index]`
    | NumberFormat(input: string)             // NumberFormatException from Integer.parseInt

  /** `getDayOfWeek`, given the date's Calendar.DAY_OF_WEEK: that value minus
      one, as a string. Sunday gives "0", Monday "1", ..., Saturday "6". */
  function GetDayOfWeek(dayOfWeek: int): (day: string)
    requires SUNDAY <= dayOfWeek <= SATURDAY
    ensures |day| == 1 && IsDigit(day[0]) && DigitValue(day[0]) == dayOfWeek - 1
  {
    IntToString(dayOfWeek - 1)
  }

  /** `line.replaceAll("\\s+", "").split(",")`. */
  function Tokens(line: string): seq<string> {
    Split(StripWhitespace(line))
  }

  /** `fields[i]`, which throws once i reaches the array's length. */
  function Field(fields: seq<string>, i: nat): Result<string, SearchError> {
    if i < |fields| then Ok(fields[i]) else Err(IndexOutOfBounds(i, |fields|))
  }

  /** `Integer.parseInt(field)`. */
  function IntField(fields: seq<string>, i: nat): Result<int32, SearchError> {
    var text :- Field(fields, i);
    match ParseInt(text)
    case Ok(n) => Ok(n)
    case Err(_) => Err(NumberFormat(text))
  }

  /** The rest of the fields of a matching line, read in the order the source
      reads them, and the record made from them. */
  function BuildFlight(fields: seq<string>): Result<Flight, SearchError> {
    var flightCode :- Field(fields, 0);
    var originAirport :- Field(fields, 1);
    var destinationAirport :- Field(fields, 2);
    var weekdays :- Field(fields, 3);
    var departureTime :- IntField(fields, 4);
    var arrivalTime :- IntField(fields, 5);
    var airline :- Field(fields, 6);
    var price :- IntField(fields, 7);
    var flightClass :- Field(fields, 8);
    Ok(Flight(flightCode, originAirport, destinationAirport, weekdays,
              departureTime, arrivalTime, airline, price, flightClass))
  }

  /** The match condition: field 1 or field 2 equals the airport exactly, and
      field 3 contains the day string. */
  predicate IsMatch(fields: seq<string>, airport: string, day: string) {
    |fields| >= 4 && (airport == fields[1] || airport == fields[2]) && Contains(fields[3], day)
  }

  /** The body of the search loop for one tokenised line: read fields 1 to 3,
      test the airport and the day, and build a record when both match. Fewer
      than four fields always throw, whether or not the line would match. */
  function ScanFields(fields: seq<string>, airport: string, day: string): Result<Option<Flight>, SearchError> {
    var originAirport :- Field(fields, 1);
    var destinationAirport :- Field(fields, 2);
    var weekdays :- Field(fields, 3);
    if (airport == originAirport || airport == destinationAirport) && Contains(weekdays, day) then
      var flight :- BuildFlight(fields);
      Ok(Some(flight))
    else
      Ok(None)
  }

  function ScanLine(line: string, airport: string, day: string): Result<Option<Flight>, SearchError> {
    ScanFields(Tokens(line), airport, day)
  }

  /** The loop of `searchFlights` over the given lines: the records of the
      matching lines in order, or the first exception a line raises. */
  function Search(lines: seq<string>, airport: string, day: string): Result<seq<Flight>, SearchError> {
    if lines == [] then Ok([])
    else
      var earlier :- Search(lines[..|lines| - 1], airport, day);
      var scanned :- ScanLine(lines[|lines| - 1], airport, day);
      Ok(earlier + if scanned.Some? then [scanned.value] else [])
  }

  /** `searchFlights(requestedAirport, date)` where `date` falls on the given
      Calendar.DAY_OF_WEEK; `None` is a data file that does not exist. */
  function SearchFlightData(flightData: Option<seq<string>>, requestedAirport: string, dayOfWeek: int)
    : Result<seq<Flight>, SearchError>
    requires SUNDAY <= dayOfWeek <= SATURDAY
  {
    match flightData
    case None => Err(FileNotFound(DEFAULT_FLIGHT_DATA_FILE))
    case Some(lines) => Search(lines, requestedAirport, GetDayOfWeek(dayOfWeek))
  }

  /** Once a prefix of the lines has thrown, the rest of the file is never read. */
  lemma {:induction false} SearchKeepsFirstError(lines: seq<string>, k: nat, airport: string, day: string)
    requires k <= |lines| && Search(lines[..k], airport, day).Err?
    ensures Search(lines, airport, day) == Search(lines[..k], airport, day)
  {
    if k == |lines| {
      assert lines[..k] == lines;
    } else {
      var init := lines[..|lines| - 1];
      assert init[..k] == lines[..k];
      SearchKeepsFirstError(init, k, airport, day);
    }
  }

  /** One step of the scan: line i either throws, and then so does the whole
      search, or adds its record (if it matches) after the earlier ones. */
  lemma SearchStep(lines: seq<string>, i: nat, airport: string, day: string, found: seq<Flight>)
    requires i < |lines| && Search(lines[..i], airport, day) == Ok(found)
    ensures ScanLine(lines[i], airport, day).Err? ==>
              Search(lines, airport, day) == Err(ScanLine(lines[i], airport, day).error)
    ensures ScanLine(lines[i], airport, day) == Ok(None) ==>
              Search(lines[..i + 1], airport, day) == Ok(found)
    ensures ScanLine(lines[i], airport, day).Ok? && ScanLine(lines[i], airport, day).value.Some? ==>
              Search(lines[..i + 1], airport, day) == Ok(found + [ScanLine(lines[i], airport, day).value.value])
  {
    assert lines[..i + 1][..i] == lines[..i];
    assert found + [] == found;
    if ScanLine(lines[i], airport, day).Err? {
      SearchKeepsFirstError(lines, i + 1, airport, day);
    }
  }

  /** `searchFlights`: the scan of Flight.java with its local list
      `matchingFlights`. The data file's contents are a parameter. */
  method SearchFlights(flightData: Option<seq<string>>, requestedAirport: string, dayOfWeek: int)
    returns (result: Result<seq<Flight>, SearchError>)
    requires SUNDAY <= dayOfWeek <= SATURDAY
    ensures result == SearchFlightData(flightData, requestedAirport, dayOfWeek)
  {
    var matchingFlights: seq<Flight> := [];
    var requestedDayOfWeek := GetDayOfWeek(dayOfWeek);
    if flightData.None? {
      return Err(FileNotFound(DEFAULT_FLIGHT_DATA_FILE));
    }
    var lines := flightData.value;
    var i := 0;
    while i < |lines|
      invariant i <= |lines|
      invariant Search(lines[..i], requestedAirport, requestedDayOfWeek) == Ok(matchingFlights)
    {
      var scanned := ScanLine(lines[i], requestedAirport, requestedDayOfWeek);
      SearchStep(lines, i, requestedAirport, requestedDayOfWeek, matchingFlights);
      if scanned.Err? {
        return Err(scanned.error);
      }
      if scanned.value.Some? {
        matchingFlights := matchingFlights + [scanned.value.value];
      }
      i := i + 1;
    }
    assert lines[..i] == lines;
    return Ok(matchingFlights);
  }

  /** The static list `Flight.flights`, shared by every search made through the
      search constructor. */
  class FlightAccumulator {
    var flights: seq<Flight>

    /** The static initialiser: an empty list. */
    constructor ()
      ensures flights == []
    {
      flights := [];
    }

    /** `getFlights()`. */
    function GetFlights(): seq<Flight>
      reads this
    {
      flights
    }

    /** The constructor `Flight(airport, date)`: search, then `addAll` the
        result. An exception leaves the list as it was, since `addAll` is only
        reached once the search has returned. */
    method RecordSearch(flightData: Option<seq<string>>, airport: string, dayOfWeek: int)
      returns (outcome: Outcome<SearchError>)
      requires SUNDAY <= dayOfWeek <= SATURDAY
      modifies this
      ensures var r := SearchFlightData(flightData, airport, dayOfWeek);
              && (r.Ok? ==> outcome == Pass && flights == old(flights) + r.value)
              && (r.Err? ==> outcome == Fail(r.error) && flights == old(flights))
    {
      var found := SearchFlights(flightData, airport, dayOfWeek);
      if found.Err? {
        return Fail(found.error);
      }
      flights := flights + found.value;
      return Pass;
    }
  }
}
