/**
 * Event extraction of edforceone/run.py (`get_events`): the flight document is
 * folded, departure by departure and arrival by arrival, into a fixed record of
 * optional fields. A field is overwritten only by an element that carries it,
 * so the last such element wins.
 */
module EdForceOneEvents {
  import opened Wrappers
  import opened Text
  import opened Fixm

  /** The `result` dictionary of `get_events`, one field per key. */
  datatype Events = Events(
    departureActual: Option<Time>,
    departureEstimated: Option<Time>,
    arrivalActual: Option<Time>,
    arrivalEstimated: Option<Time>,
    arrAerodrome: Option<string>,
    depAerodrome: Option<string>,
    lastPosTime: Option<Time>)

  const NoEvents := Events(None, None, None, None, None, None, None)

  /** Reads the timestamp of an optional time element; an absent element reads as `None`. */
  function ReadOptional(el: Option<TimeElement>, parse: Parser): (r: Result<Option<Time>, Raised>)
    ensures el.None? ==> r == Ok(None)
    ensures el.Some? ==> (r.Ok? <==> ReadStamp(el.value.timestamp, parse).Ok?)
    ensures el.Some? && r.Ok? ==> r.value == ReadStamp(el.value.timestamp, parse).ToOption()
  {
    match el
    case None => Ok(None)
    case Some(x) =>
      var t :- ReadStamp(x.timestamp, parse);
      Ok(Some(t))
  }

  /** The position time under `enRoute`, when there is a position. */
  function ReadPosition(e: Events, enRoute: Option<EnRoute>, parse: Parser): Result<Events, Raised> {
    if enRoute.Some? && enRoute.value.position.Some? then
      var t :- ReadStamp(enRoute.value.position.value.positionTime, parse);
      Ok(e.(lastPosTime := Some(t)))
    else
      Ok(e)
  }

  /** One pass of the departures loop body. */
  function DepartureStep(e: Events, d: Departure, parse: Parser): Result<Events, Raised> {
    if d.fixTime.None? then
      Err(AttributeError("'NoneType' object has no attribute 'find'"))
    else
      var actual :- ReadOptional(ActualOf(d.fixTime), parse);
      var estimated :- ReadOptional(EstimatedOf(d.fixTime), parse);
      Ok(e.(
        departureActual := if actual.Some? then actual else e.departureActual,
        departureEstimated := if estimated.Some? then estimated else e.departureEstimated,
        depAerodrome := if d.aerodrome.Some? then d.aerodrome.value.code else e.depAerodrome))
  }

  /** One pass of the arrivals loop body. */
  function ArrivalStep(e: Events, a: Arrival, parse: Parser): Result<Events, Raised> {
    if a.fixTime.None? then
      Err(AttributeError("'NoneType' object has no attribute 'find'"))
    else
      var actual :- ReadOptional(ActualOf(a.fixTime), parse);
      var estimated :- ReadOptional(EstimatedOf(a.fixTime), parse);
      Ok(e.(
        arrivalActual := if actual.Some? then actual else e.arrivalActual,
        arrivalEstimated := if estimated.Some? then estimated else e.arrivalEstimated,
        arrAerodrome :=
          if a.aerodrome.Some? then a.aerodrome.value.code
          else if a.aerodromeOriginal.Some? then a.aerodromeOriginal.value.code
          else e.arrAerodrome))
  }

  /** The departures loop run over `ds`, starting from `init`; it stops at the first error. */
  function FoldDepartures(init: Events, ds: seq<Departure>, parse: Parser): Result<Events, Raised>
    decreases |ds|
  {
    if ds == [] then Ok(init)
    else
      var e :- FoldDepartures(init, ds[..|ds| - 1], parse);
      DepartureStep(e, ds[|ds| - 1], parse)
  }

  /** The arrivals loop run over `as_`, starting from `init`. */
  function FoldArrivals(init: Events, as_: seq<Arrival>, parse: Parser): Result<Events, Raised>
    decreases |as_|
  {
    if as_ == [] then Ok(init)
    else
      var e :- FoldArrivals(init, as_[..|as_| - 1], parse);
      ArrivalStep(e, as_[|as_| - 1], parse)
  }

  /** What `get_events` returns for a flight document, or the exception it raises. */
  function ExtractEvents(doc: Flight, parse: Parser): Result<Events, Raised> {
    var positioned :- ReadPosition(NoEvents, doc.enRoute, parse);
    var departed :- FoldDepartures(positioned, doc.departures, parse);
    FoldArrivals(departed, doc.arrivals, parse)
  }

  // ---------------------------------------------------------------------------
  // Last element wins: each lemma takes k, the index of the last element carrying
  // the field (or -1 when none does), and gives the field's final value.

  lemma {:induction false} DepartureActualLastWins(init: Events, ds: seq<Departure>, parse: Parser, k: int)
    requires FoldDepartures(init, ds, parse).Ok?
    requires -1 <= k < |ds| && (k >= 0 ==> ActualOf(ds[k].fixTime).Some?)
    requires forall j | k < j < |ds| :: ActualOf(ds[j].fixTime).None?
    ensures FoldDepartures(init, ds, parse).value.departureActual ==
      if k < 0 then init.departureActual
      else ReadStamp(ActualOf(ds[k].fixTime).value.timestamp, parse).ToOption()
  {
    if ds != [] && k < |ds| - 1 {
      DepartureActualLastWins(init, ds[..|ds| - 1], parse, k);
    }
  }

  lemma {:induction false} DepartureEstimatedLastWins(init: Events, ds: seq<Departure>, parse: Parser, k: int)
    requires FoldDepartures(init, ds, parse).Ok?
    requires -1 <= k < |ds| && (k >= 0 ==> EstimatedOf(ds[k].fixTime).Some?)
    requires forall j | k < j < |ds| :: EstimatedOf(ds[j].fixTime).None?
    ensures FoldDepartures(init, ds, parse).value.departureEstimated ==
      if k < 0 then init.departureEstimated
      else ReadStamp(EstimatedOf(ds[k].fixTime).value.timestamp, parse).ToOption()
  {
    if ds != [] && k < |ds| - 1 {
      DepartureEstimatedLastWins(init, ds[..|ds| - 1], parse, k);
    }
  }

  /** `dep_aerodrome` is the `code` of the last `departureAerodrome`, even when that code is missing. */
  lemma {:induction false} DepAerodromeLastWins(init: Events, ds: seq<Departure>, parse: Parser, k: int)
    requires FoldDepartures(init, ds, parse).Ok?
    requires -1 <= k < |ds| && (k >= 0 ==> ds[k].aerodrome.Some?)
    requires forall j | k < j < |ds| :: ds[j].aerodrome.None?
    ensures FoldDepartures(init, ds, parse).value.depAerodrome ==
      if k < 0 then init.depAerodrome else ds[k].aerodrome.value.code
  {
    if ds != [] && k < |ds| - 1 {
      DepAerodromeLastWins(init, ds[..|ds| - 1], parse, k);
    }
  }

  lemma {:induction false} ArrivalActualLastWins(init: Events, as_: seq<Arrival>, parse: Parser, k: int)
    requires FoldArrivals(init, as_, parse).Ok?
    requires -1 <= k < |as_| && (k >= 0 ==> ActualOf(as_[k].fixTime).Some?)
    requires forall j | k < j < |as_| :: ActualOf(as_[j].fixTime).None?
    ensures FoldArrivals(init, as_, parse).value.arrivalActual ==
      if k < 0 then init.arrivalActual
      else ReadStamp(ActualOf(as_[k].fixTime).value.timestamp, parse).ToOption()
  {
    if as_ != [] && k < |as_| - 1 {
      ArrivalActualLastWins(init, as_[..|as_| - 1], parse, k);
    }
  }

  lemma {:induction false} ArrivalEstimatedLastWins(init: Events, as_: seq<Arrival>, parse: Parser, k: int)
    requires FoldArrivals(init, as_, parse).Ok?
    requires -1 <= k < |as_| && (k >= 0 ==> EstimatedOf(as_[k].fixTime).Some?)
    requires forall j | k < j < |as_| :: EstimatedOf(as_[j].fixTime).None?
    ensures FoldArrivals(init, as_, parse).value.arrivalEstimated ==
      if k < 0 then init.arrivalEstimated
      else ReadStamp(EstimatedOf(as_[k].fixTime).value.timestamp, parse).ToOption()
  {
    if as_ != [] && k < |as_| - 1 {
      ArrivalEstimatedLastWins(init, as_[..|as_| - 1], parse, k);
    }
  }

  /** An arrival names an aerodrome when it has `arrivalAerodrome` or `arrivalAerodromeOriginal`. */
  predicate NamesAerodrome(a: Arrival) {
    a.aerodrome.Some? || a.aerodromeOriginal.Some?
  }

  /**
   * `arr_aerodrome` comes from the last arrival naming an aerodrome: its
   * `arrivalAerodrome` code when that element is there, else its
   * `arrivalAerodromeOriginal` code.
   */
  lemma {:induction false} ArrAerodromeLastWins(init: Events, as_: seq<Arrival>, parse: Parser, k: int)
    requires FoldArrivals(init, as_, parse).Ok?
    requires -1 <= k < |as_| && (k >= 0 ==> NamesAerodrome(as_[k]))
    requires forall j | k < j < |as_| :: !NamesAerodrome(as_[j])
    ensures FoldArrivals(init, as_, parse).value.arrAerodrome ==
      if k < 0 then init.arrAerodrome
      else if as_[k].aerodrome.Some? then as_[k].aerodrome.value.code
      else as_[k].aerodromeOriginal.value.code
  {
    if as_ != [] && k < |as_| - 1 {
      ArrAerodromeLastWins(init, as_[..|as_| - 1], parse, k);
    }
  }

  /** The departures loop touches only the departure fields. */
  lemma {:induction false} DeparturesKeepOtherFields(init: Events, ds: seq<Departure>, parse: Parser)
    requires FoldDepartures(init, ds, parse).Ok?
    ensures var e := FoldDepartures(init, ds, parse).value;
      e.arrivalActual == init.arrivalActual && e.arrivalEstimated == init.arrivalEstimated &&
      e.arrAerodrome == init.arrAerodrome && e.lastPosTime == init.lastPosTime
  {
    if ds != [] {
      DeparturesKeepOtherFields(init, ds[..|ds| - 1], parse);
    }
  }

  /** The arrivals loop touches only the arrival fields. */
  lemma {:induction false} ArrivalsKeepOtherFields(init: Events, as_: seq<Arrival>, parse: Parser)
    requires FoldArrivals(init, as_, parse).Ok?
    ensures var e := FoldArrivals(init, as_, parse).value;
      e.departureActual == init.departureActual && e.departureEstimated == init.departureEstimated &&
      e.depAerodrome == init.depAerodrome && e.lastPosTime == init.lastPosTime
  {
    if as_ != [] {
      ArrivalsKeepOtherFields(init, as_[..|as_| - 1], parse);
    }
  }

  /** The loops raise exactly when some element lacks its fix time or has an unreadable timestamp. */
  predicate DepartureReadable(d: Departure, parse: Parser) {
    && d.fixTime.Some?
    && ReadOptional(ActualOf(d.fixTime), parse).Ok?
    && ReadOptional(EstimatedOf(d.fixTime), parse).Ok?
  }

  lemma {:induction false} DeparturesFailIff(init: Events, ds: seq<Departure>, parse: Parser)
    ensures FoldDepartures(init, ds, parse).Ok? <==> forall j | 0 <= j < |ds| :: DepartureReadable(ds[j], parse)
  {
    if ds != [] {
      var n := |ds| - 1;
      DeparturesFailIff(init, ds[..n], parse);
      assert forall j | 0 <= j < n :: ds[..n][j] == ds[j];
    }
  }

  predicate ArrivalReadable(a: Arrival, parse: Parser) {
    && a.fixTime.Some?
    && ReadOptional(ActualOf(a.fixTime), parse).Ok?
    && ReadOptional(EstimatedOf(a.fixTime), parse).Ok?
  }

  lemma {:induction false} ArrivalsFailIff(init: Events, as_: seq<Arrival>, parse: Parser)
    ensures FoldArrivals(init, as_, parse).Ok? <==> forall j | 0 <= j < |as_| :: ArrivalReadable(as_[j], parse)
  {
    if as_ != [] {
      var n := |as_| - 1;
      ArrivalsFailIff(init, as_[..n], parse);
      assert forall j | 0 <= j < n :: as_[..n][j] == as_[j];
    }
  }

  /** A document without departures, arrivals or position yields the all-absent record. */
  lemma EmptyDocumentNoEvents(doc: Flight, parse: Parser)
    requires doc.departures == [] && doc.arrivals == []
    requires doc.enRoute.None? || doc.enRoute.value.position.None?
    ensures ExtractEvents(doc, parse) == Ok(NoEvents)
  {
  }

  // ---------------------------------------------------------------------------
  // The loops of get_events

  /** Once the departures loop has raised, running it further raises the same. */
  lemma {:induction false} DeparturesStopAt(init: Events, ds: seq<Departure>, i: nat, parse: Parser)
    requires i <= |ds| && FoldDepartures(init, ds[..i], parse).Err?
    ensures FoldDepartures(init, ds, parse) == FoldDepartures(init, ds[..i], parse)
    decreases |ds| - i
  {
    if i < |ds| {
      var n := |ds| - 1;
      assert ds[..n][..i] == ds[..i];
      DeparturesStopAt(init, ds[..n], i, parse);
    } else {
      assert ds[..i] == ds;
    }
  }

  lemma {:induction false} ArrivalsStopAt(init: Events, as_: seq<Arrival>, i: nat, parse: Parser)
    requires i <= |as_| && FoldArrivals(init, as_[..i], parse).Err?
    ensures FoldArrivals(init, as_, parse) == FoldArrivals(init, as_[..i], parse)
    decreases |as_| - i
  {
    if i < |as_| {
      var n := |as_| - 1;
      assert as_[..n][..i] == as_[..i];
      ArrivalsStopAt(init, as_[..n], i, parse);
    } else {
      assert as_[..i] == as_;
    }
  }

  /** The departures loop of `get_events`, proved to compute `FoldDepartures`. */
  method RunDepartures(init: Events, departures: seq<Departure>, parse: Parser) returns (r: Result<Events, Raised>)
    ensures r == FoldDepartures(init, departures, parse)
  {
    var result := init;
    var i := 0;
    while i < |departures|
      invariant i <= |departures|
      invariant FoldDepartures(init, departures[..i], parse) == Ok(result)
    {
      var departure := departures[i];
      ghost var before := result;
      assert departures[..i + 1][..i] == departures[..i];
      if departure.fixTime.None? {
        DeparturesStopAt(init, departures, i + 1, parse);
        return Err(AttributeError("'NoneType' object has no attribute 'find'"));
      }
      var fixTime := departure.fixTime.value;
      if fixTime.actual.Some? {
        var t := ReadStamp(fixTime.actual.value.timestamp, parse);
        if t.Err? {
          DeparturesStopAt(init, departures, i + 1, parse);
          return Err(t.error);
        }
        result := result.(departureActual := Some(t.value));
      }
      if fixTime.estimated.Some? {
        var t := ReadStamp(fixTime.estimated.value.timestamp, parse);
        if t.Err? {
          DeparturesStopAt(init, departures, i + 1, parse);
          return Err(t.error);
        }
        result := result.(departureEstimated := Some(t.value));
      }
      if departure.aerodrome.Some? {
        result := result.(depAerodrome := departure.aerodrome.value.code);
      }
      assert DepartureStep(before, departure, parse) == Ok(result);
      i := i + 1;
    }
    assert departures[..i] == departures;
    return Ok(result);
  }

  /** The arrivals loop of `get_events`, proved to compute `FoldArrivals`. */
  method RunArrivals(init: Events, arrivals: seq<Arrival>, parse: Parser) returns (r: Result<Events, Raised>)
    ensures r == FoldArrivals(init, arrivals, parse)
  {
    var result := init;
    var i := 0;
    while i < |arrivals|
      invariant i <= |arrivals|
      invariant FoldArrivals(init, arrivals[..i], parse) == Ok(result)
    {
      var arrival := arrivals[i];
      ghost var before := result;
      assert arrivals[..i + 1][..i] == arrivals[..i];
      if arrival.fixTime.None? {
        ArrivalsStopAt(init, arrivals, i + 1, parse);
        return Err(AttributeError("'NoneType' object has no attribute 'find'"));
      }
      var fixTime := arrival.fixTime.value;
      if fixTime.actual.Some? {
        var t := ReadStamp(fixTime.actual.value.timestamp, parse);
        if t.Err? {
          ArrivalsStopAt(init, arrivals, i + 1, parse);
          return Err(t.error);
        }
        result := result.(arrivalActual := Some(t.value));
      }
      if fixTime.estimated.Some? {
        var t := ReadStamp(fixTime.estimated.value.timestamp, parse);
        if t.Err? {
          ArrivalsStopAt(init, arrivals, i + 1, parse);
          return Err(t.error);
        }
        result := result.(arrivalEstimated := Some(t.value));
      }
      if arrival.aerodrome.Some? {
        result := result.(arrAerodrome := arrival.aerodrome.value.code);
      } else if arrival.aerodromeOriginal.Some? {
        result := result.(arrAerodrome := arrival.aerodromeOriginal.value.code);
      }
      assert ArrivalStep(before, arrival, parse) == Ok(result);
      i := i + 1;
    }
    assert arrivals[..i] == arrivals;
    return Ok(result);
  }

  /** `get_events`: position, then the departures loop, then the arrivals loop. */
  method GetEvents(doc: Flight, parse: Parser) returns (r: Result<Events, Raised>)
    ensures r == ExtractEvents(doc, parse)
  {
    var result := NoEvents;
    if doc.enRoute.Some? && doc.enRoute.value.position.Some? {
      var t := ReadStamp(doc.enRoute.value.position.value.positionTime, parse);
      if t.Err? {
        return Err(t.error);
      }
      result := result.(lastPosTime := Some(t.value));
    }
    r := RunDepartures(result, doc.departures, parse);
    if r.Ok? {
      r := RunArrivals(r.value, doc.arrivals, parse);
    }
  }
}
