/**
 * The first version of the tracker (run.py): find the flight in the airline's
 * list, fold three raw timestamp strings of its departures and arrivals into a
 * four-field record, and print at most one line by the same landed / departed /
 * scheduled priority.
 */
module Run {
  import opened Wrappers
  import opened Fixm
  import opened FlightState

  // ---------------------------------------------------------------------------
  // get_flight_data

  /** The loop moves past `f`: it has an identification naming another flight. */
  predicate PassedOver(f: Flight, flightId: string) {
    f.identification.Some? && !NamedAs(f, flightId)
  }

  /**
   * The search `get_flight_data` performs: the first flight whose
   * `majorCarrierIdentifier` is `flightId`; a flight without
   * `flightIdentification` before it raises.
   */
  function FlightData(flightId: string, flights: seq<Flight>): Result<Option<Flight>, Raised> {
    if flights == [] then Ok(None)
    else if flights[0].identification.None? then Err(AttributeError("'NoneType' object has no attribute 'get'"))
    else if NamedAs(flights[0], flightId) then Ok(Some(flights[0]))
    else FlightData(flightId, flights[1..])
  }

  /** `FlightData` finds the first named flight, and raises exactly at an unidentified flight before any match. */
  lemma {:induction false} FlightDataFirstMatch(flightId: string, flights: seq<Flight>)
    ensures var r := FlightData(flightId, flights);
      r.Ok? && r.value.Some? ==>
        exists k | 0 <= k < |flights| ::
          flights[k] == r.value.value && NamedAs(flights[k], flightId) &&
          forall j | 0 <= j < k :: PassedOver(flights[j], flightId)
    ensures FlightData(flightId, flights) == Ok(None) <==> forall j | 0 <= j < |flights| :: PassedOver(flights[j], flightId)
    ensures var r := FlightData(flightId, flights);
      r.Err? <==>
        exists k | 0 <= k < |flights| ::
          flights[k].identification.None? && forall j | 0 <= j < k :: PassedOver(flights[j], flightId)
    ensures FlightData(flightId, flights).Err? ==> FlightData(flightId, flights).error.AttributeError?
  {
    if flights != [] && flights[0].identification.Some? && !NamedAs(flights[0], flightId) {
      var rest := flights[1..];
      FlightDataFirstMatch(flightId, rest);
      assert forall j | 0 <= j < |rest| :: rest[j] == flights[j + 1];
      var r := FlightData(flightId, flights);
      if r.Ok? && r.value.Some? {
        var k :| 0 <= k < |rest| && rest[k] == r.value.value && NamedAs(rest[k], flightId) &&
          forall j | 0 <= j < k :: PassedOver(rest[j], flightId);
        assert flights[k + 1] == r.value.value && forall j | 0 <= j < k + 1 :: PassedOver(flights[j], flightId);
      }
      if r.Err? {
        var k :| 0 <= k < |rest| && rest[k].identification.None? && forall j | 0 <= j < k :: PassedOver(rest[j], flightId);
        assert flights[k + 1].identification.None? && forall j | 0 <= j < k + 1 :: PassedOver(flights[j], flightId);
      } else {
        forall k | 0 <= k < |flights| && flights[k].identification.None?
          ensures exists j | 0 <= j < k :: !PassedOver(flights[j], flightId)
        {
          assert k > 0 && rest[k - 1].identification.None?;
          var j :| 0 <= j < k - 1 && !PassedOver(rest[j], flightId);
          assert !PassedOver(flights[j + 1], flightId);
        }
      }
      if r == Ok(None) {
        assert forall j | 0 <= j < |flights| :: PassedOver(flights[j], flightId) by {
          forall j | 0 <= j < |flights| ensures PassedOver(flights[j], flightId) {
            if j > 0 { assert flights[j] == rest[j - 1]; }
          }
        }
      }
    } else if flights != [] {
      assert !PassedOver(flights[0], flightId);
    }
  }

  /** `get_flight_data`: the loop over the airline's flights, proved to perform the `FlightData` search. */
  method GetFlightData(flightId: string, flights: seq<Flight>) returns (r: Result<Option<Flight>, Raised>)
    ensures r == FlightData(flightId, flights)
    ensures r.Ok? && r.value.Some? ==>
      exists k | 0 <= k < |flights| ::
        flights[k] == r.value.value && NamedAs(flights[k], flightId) &&
        forall j | 0 <= j < k :: PassedOver(flights[j], flightId)
    ensures r == Ok(None) <==> forall j | 0 <= j < |flights| :: PassedOver(flights[j], flightId)
    ensures r.Err? <==>
      exists k | 0 <= k < |flights| ::
        flights[k].identification.None? && forall j | 0 <= j < k :: PassedOver(flights[j], flightId)
    ensures r.Err? ==> r.error.AttributeError?
  {
    FlightDataFirstMatch(flightId, flights);
    var i := 0;
    while i < |flights|
      invariant i <= |flights|
      invariant FlightData(flightId, flights[i..]) == FlightData(flightId, flights)
    {
      var flight := flights[i];
      assert flights[i..][1..] == flights[i + 1..];
      if flight.identification.None? {
        return Err(AttributeError("'NoneType' object has no attribute 'get'"));
      }
      if flight.identification.value.majorCarrierIdentifier == Some(flightId) {
        return Ok(Some(flight));
      }
      i := i + 1;
    }
    return Ok(None);
  }

  // ---------------------------------------------------------------------------
  // get_events

  /** The four-key `result` dictionary; values are the raw `timestamp` attributes. */
  datatype Events = Events(
    departureActual: Option<string>,
    departureEstimated: Option<string>,
    arrivalActual: Option<string>,
    arrivalEstimated: Option<string>)

  const NoEvents := Events(None, None, None, None)

  /** One pass of the departures loop: an element present overwrites, even with a missing attribute. */
  function DepartureStep(e: Events, d: Departure): Result<Events, Raised> {
    if d.fixTime.None? then
      Err(AttributeError("'NoneType' object has no attribute 'find'"))
    else
      var actual := d.fixTime.value.actual;
      var estimated := d.fixTime.value.estimated;
      Ok(e.(
        departureActual := if actual.Some? then actual.value.timestamp else e.departureActual,
        departureEstimated := if estimated.Some? then estimated.value.timestamp else e.departureEstimated))
  }

  /** One pass of the arrivals loop; the `actual` element is not read. */
  function ArrivalStep(e: Events, a: Arrival): Result<Events, Raised> {
    if a.fixTime.None? then
      Err(AttributeError("'NoneType' object has no attribute 'find'"))
    else
      var estimated := a.fixTime.value.estimated;
      Ok(e.(arrivalEstimated := if estimated.Some? then estimated.value.timestamp else e.arrivalEstimated))
  }

  function FoldDepartures(init: Events, ds: seq<Departure>): Result<Events, Raised>
    decreases |ds|
  {
    if ds == [] then Ok(init)
    else
      var e :- FoldDepartures(init, ds[..|ds| - 1]);
      DepartureStep(e, ds[|ds| - 1])
  }

  function FoldArrivals(init: Events, as_: seq<Arrival>): Result<Events, Raised>
    decreases |as_|
  {
    if as_ == [] then Ok(init)
    else
      var e :- FoldArrivals(init, as_[..|as_| - 1]);
      ArrivalStep(e, as_[|as_| - 1])
  }

  /** What `get_events` returns for a flight element, or the exception it raises. */
  function ExtractEvents(flight: Flight): Result<Events, Raised> {
    var departed :- FoldDepartures(NoEvents, flight.departures);
    FoldArrivals(departed, flight.arrivals)
  }

  /** `departure_actual` is the raw attribute of the last departure with an `actual`, or the start value. */
  lemma {:induction false} DepartureActualLastWins(init: Events, ds: seq<Departure>, k: int)
    requires FoldDepartures(init, ds).Ok?
    requires -1 <= k < |ds| && (k >= 0 ==> ActualOf(ds[k].fixTime).Some?)
    requires forall j | k < j < |ds| :: ActualOf(ds[j].fixTime).None?
    ensures FoldDepartures(init, ds).value.departureActual ==
      if k < 0 then init.departureActual else ActualOf(ds[k].fixTime).value.timestamp
  {
    if ds != [] && k < |ds| - 1 {
      DepartureActualLastWins(init, ds[..|ds| - 1], k);
    }
  }

  lemma {:induction false} DepartureEstimatedLastWins(init: Events, ds: seq<Departure>, k: int)
    requires FoldDepartures(init, ds).Ok?
    requires -1 <= k < |ds| && (k >= 0 ==> EstimatedOf(ds[k].fixTime).Some?)
    requires forall j | k < j < |ds| :: EstimatedOf(ds[j].fixTime).None?
    ensures FoldDepartures(init, ds).value.departureEstimated ==
      if k < 0 then init.departureEstimated else EstimatedOf(ds[k].fixTime).value.timestamp
  {
    if ds != [] && k < |ds| - 1 {
      DepartureEstimatedLastWins(init, ds[..|ds| - 1], k);
    }
  }

  lemma {:induction false} ArrivalEstimatedLastWins(init: Events, as_: seq<Arrival>, k: int)
    requires FoldArrivals(init, as_).Ok?
    requires -1 <= k < |as_| && (k >= 0 ==> EstimatedOf(as_[k].fixTime).Some?)
    requires forall j | k < j < |as_| :: EstimatedOf(as_[j].fixTime).None?
    ensures FoldArrivals(init, as_).value.arrivalEstimated ==
      if k < 0 then init.arrivalEstimated else EstimatedOf(as_[k].fixTime).value.timestamp
  {
    if as_ != [] && k < |as_| - 1 {
      ArrivalEstimatedLastWins(init, as_[..|as_| - 1], k);
    }
  }

  /** Neither loop assigns `arrival_actual`, so it stays `None`. */
  lemma {:induction false} ArrivalActualNeverSet(flight: Flight)
    requires ExtractEvents(flight).Ok?
    ensures ExtractEvents(flight).value.arrivalActual.None?
  {
    DeparturesKeepArrivalFields(NoEvents, flight.departures);
    ArrivalsKeepDepartureFields(FoldDepartures(NoEvents, flight.departures).value, flight.arrivals);
  }

  lemma {:induction false} DeparturesKeepArrivalFields(init: Events, ds: seq<Departure>)
    requires FoldDepartures(init, ds).Ok?
    ensures FoldDepartures(init, ds).value.arrivalActual == init.arrivalActual
    ensures FoldDepartures(init, ds).value.arrivalEstimated == init.arrivalEstimated
  {
    if ds != [] {
      DeparturesKeepArrivalFields(init, ds[..|ds| - 1]);
    }
  }

  lemma {:induction false} ArrivalsKeepDepartureFields(init: Events, as_: seq<Arrival>)
    requires FoldArrivals(init, as_).Ok?
    ensures FoldArrivals(init, as_).value.arrivalActual == init.arrivalActual
    ensures FoldArrivals(init, as_).value.departureActual == init.departureActual
    ensures FoldArrivals(init, as_).value.departureEstimated == init.departureEstimated
  {
    if as_ != [] {
      ArrivalsKeepDepartureFields(init, as_[..|as_| - 1]);
    }
  }

  lemma {:induction false} DeparturesStopAt(init: Events, ds: seq<Departure>, i: nat)
    requires i <= |ds| && FoldDepartures(init, ds[..i]).Err?
    ensures FoldDepartures(init, ds) == FoldDepartures(init, ds[..i])
    decreases |ds| - i
  {
    if i < |ds| {
      var n := |ds| - 1;
      assert ds[..n][..i] == ds[..i];
      DeparturesStopAt(init, ds[..n], i);
    } else {
      assert ds[..i] == ds;
    }
  }

  lemma {:induction false} ArrivalsStopAt(init: Events, as_: seq<Arrival>, i: nat)
    requires i <= |as_| && FoldArrivals(init, as_[..i]).Err?
    ensures FoldArrivals(init, as_) == FoldArrivals(init, as_[..i])
    decreases |as_| - i
  {
    if i < |as_| {
      var n := |as_| - 1;
      assert as_[..n][..i] == as_[..i];
      ArrivalsStopAt(init, as_[..n], i);
    } else {
      assert as_[..i] == as_;
    }
  }

  /** `get_events`: the two element loops, proved to compute `ExtractEvents`. */
  method GetEvents(flight: Flight) returns (r: Result<Events, Raised>)
    ensures r == ExtractEvents(flight)
  {
    var result := NoEvents;
    var departures := flight.departures;
    var i := 0;
    while i < |departures|
      invariant i <= |departures|
      invariant FoldDepartures(NoEvents, departures[..i]) == Ok(result)
    {
      var departure := departures[i];
      assert departures[..i + 1][..i] == departures[..i];
      if departure.fixTime.None? {
        DeparturesStopAt(NoEvents, departures, i + 1);
        return Err(AttributeError("'NoneType' object has no attribute 'find'"));
      }
      var fixTime := departure.fixTime.value;
      if fixTime.actual.Some? {
        result := result.(departureActual := fixTime.actual.value.timestamp);
      }
      if fixTime.estimated.Some? {
        result := result.(departureEstimated := fixTime.estimated.value.timestamp);
      }
      i := i + 1;
    }
    assert departures[..i] == departures;
    ghost var departed := result;

    var arrivals := flight.arrivals;
    i := 0;
    while i < |arrivals|
      invariant i <= |arrivals|
      invariant FoldArrivals(departed, arrivals[..i]) == Ok(result)
    {
      var arrival := arrivals[i];
      assert arrivals[..i + 1][..i] == arrivals[..i];
      if arrival.fixTime.None? {
        ArrivalsStopAt(departed, arrivals, i + 1);
        return Err(AttributeError("'NoneType' object has no attribute 'find'"));
      }
      var fixTime := arrival.fixTime.value;
      if fixTime.estimated.Some? {
        result := result.(arrivalEstimated := fixTime.estimated.value.timestamp);
      }
      i := i + 1;
    }
    assert arrivals[..i] == arrivals;
    return Ok(result);
  }

  // ---------------------------------------------------------------------------
  // tweet

  /** Python truthiness of a dictionary value: present and not the empty string. */
  predicate Truthy(s: Option<string>) {
    s.Some? && s.value != ""
  }

  predicate Applies(s: Status, e: Events) {
    match s
    case Landed => Truthy(e.arrivalActual)
    case Departed => Truthy(e.arrivalEstimated) && Truthy(e.departureActual)
    case Scheduled => Truthy(e.departureEstimated)
  }

  /** The branch `tweet` takes: the highest-ranked state that applies, if any. */
  function StatusOf(e: Events): (r: Option<Status>)
    ensures r.None? <==> forall s: Status :: !Applies(s, e)
    ensures r.Some? ==> Applies(r.value, e) && forall s: Status :: Applies(s, e) ==> Rank(s) <= Rank(r.value)
  {
    if Truthy(e.arrivalActual) then
      assert Applies(Landed, e);
      Some(Landed)
    else if Truthy(e.arrivalEstimated) && Truthy(e.departureActual) then
      assert !Applies(Landed, e) && Applies(Departed, e);
      Some(Departed)
    else if Truthy(e.departureEstimated) then
      assert !Applies(Landed, e) && !Applies(Departed, e) && Applies(Scheduled, e);
      Some(Scheduled)
    else
      assert !Applies(Landed, e) && !Applies(Departed, e) && !Applies(Scheduled, e);
      None
  }

  /** The line `tweet` prints, `None` when it prints nothing. */
  function Announcement(e: Events, flight: string): (r: Option<string>)
    ensures r.None? <==> StatusOf(e).None?
    ensures r.Some? ==> StatusOfMessage(r.value, flight) == StatusOf(e)
  {
    match StatusOf(e)
    case None => None
    case Some(Landed) =>
      var m := flight + " has landed at XXXX.";
      assert m[|flight|] == ' ' && m[|flight| + 1] == 'h' && m[..|flight|] == flight;
      Some(m)
    case Some(Departed) =>
      var m := flight + " departed from XXXX at " + e.departureActual.value + ". It should arrive at XXXX at " +
               e.arrivalEstimated.value + ".";
      assert m[|flight|] == ' ' && m[|flight| + 1] == 'd' && m[..|flight|] == flight;
      Some(m)
    case Some(Scheduled) =>
      var m := flight + " is scheduled to depart from XXXX at " + e.departureEstimated.value + ".";
      assert m[|flight|] == ' ' && m[|flight| + 1] == 'i' && m[..|flight|] == flight;
      Some(m)
  }

  /**
   * BEE1534 with an actual departure and an arrival estimate prints the departed
   * line with the raw timestamps; an empty actual departure is not truthy, so the
   * same record then falls back to the scheduled line.
   */
  lemma DepartedThenScheduledLines()
    ensures Announcement(Events(Some("2016-04-17T17:35:00.000Z"), Some("2016-04-17T17:30:00.000Z"), None,
                                Some("2016-04-17T18:35:00.000Z")), "BEE1534") ==
      Some("BEE1534" + " departed from XXXX at " + "2016-04-17T17:35:00.000Z" + ". It should arrive at XXXX at " +
           "2016-04-17T18:35:00.000Z" + ".")
    ensures Announcement(Events(Some(""), Some("2016-04-17T17:30:00.000Z"), None,
                                Some("2016-04-17T18:35:00.000Z")), "BEE1534") ==
      Some("BEE1534" + " is scheduled to depart from XXXX at " + "2016-04-17T17:30:00.000Z" + ".")
  {
    assert StatusOf(Events(Some("2016-04-17T17:35:00.000Z"), Some("2016-04-17T17:30:00.000Z"), None,
                           Some("2016-04-17T18:35:00.000Z"))) == Some(Departed);
    assert StatusOf(Events(Some(""), Some("2016-04-17T17:30:00.000Z"), None,
                           Some("2016-04-17T18:35:00.000Z"))) == Some(Scheduled);
  }

  // ---------------------------------------------------------------------------
  // The script's entry point

  /**
   * The `__main__` block for a given airline and flight number; `listing` is
   * the airline's flight list, `None` for a non-200 reply (which
   * `ElementTree.fromstring` then rejects). It never prints a landed line.
   */
  method RunOnce(listing: Option<seq<Flight>>, airline: string, flightNumber: string)
    returns (printed: Result<Option<string>, Raised>)
    ensures listing.None? ==> printed.Err? && printed.error.TypeError?
    ensures listing.Some? ==>
      printed == match FlightData(airline + flightNumber, listing.value)
        case Err(error) => Err(error)
        case Ok(None) => Ok(None)
        case Ok(Some(f)) =>
          match ExtractEvents(f)
          case Err(error) => Err(error)
          case Ok(e) => Ok(Announcement(e, airline + flightNumber))
    ensures printed.Ok? && printed.value.Some? ==>
      StatusOfMessage(printed.value.value, airline + flightNumber) in {Some(Departed), Some(Scheduled)}
  {
    if listing.None? {
      return Err(TypeError("a bytes-like object is required, not 'NoneType'"));
    }
    var found := GetFlightData(airline + flightNumber, listing.value);
    if found.Err? {
      return Err(found.error);
    }
    if found.value.None? {
      return Ok(None);
    }
    var events := GetEvents(found.value.value);
    if events.Err? {
      return Err(events.error);
    }
    ArrivalActualNeverSet(found.value.value);
    return Ok(Announcement(events.value, airline + flightNumber));
  }
}
