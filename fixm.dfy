/**
 * The FIXM 3.0 flight documents the scripts read, as the elements and attributes
 * ElementTree's `find`, `findall` and `get` reach. An absent element or attribute
 * is `None`; children found by `findall` keep document order.
 */
module Fixm {
  import opened Wrappers
  import opened Text

  /** Seconds since the epoch; the provider's times are taken as UTC. */
  type Time = int

  /**
   * `datetime.strptime(s, "%Y-%m-%dT%H:%M:%S")`: the calendar parser is not part of
   * this model, so it is a parameter; `None` is the `ValueError` it raises.
   */
  type Parser = string -> Option<Time>

  /** The exceptions the scripts let escape. */
  datatype Raised =
    | AttributeError(detail: string)  // a method called on a `find` that returned None
    | TypeError(detail: string)       // None sliced, concatenated, compared or written
    | ValueError(detail: string)      // a timestamp strptime cannot read
    | NameError(detail: string)       // a global read before it is assigned

  /** `<fb:estimated>` or `<fb:actual>` with its `timestamp` attribute. */
  datatype TimeElement = TimeElement(timestamp: Option<string>)

  /** `<fx:departureFixTime>` or `<fx:arrivalFixTime>`. */
  datatype FixTime = FixTime(estimated: Option<TimeElement>, actual: Option<TimeElement>)

  /** `<fx:departureAerodrome>`, `<fx:arrivalAerodrome>` or `<fx:arrivalAerodromeOriginal>`. */
  datatype AerodromeElement = AerodromeElement(code: Option<string>)

  datatype Departure = Departure(fixTime: Option<FixTime>, aerodrome: Option<AerodromeElement>)

  datatype Arrival = Arrival(
    fixTime: Option<FixTime>,
    aerodrome: Option<AerodromeElement>,
    aerodromeOriginal: Option<AerodromeElement>)

  /** `<fx:position>` with its `positionTime` attribute. */
  datatype Position = Position(positionTime: Option<string>)

  /**
   * `<fx:enRoute>`. An element is falsy when it has no children; one with a
   * position child is truthy, so only the position matters.
   */
  datatype EnRoute = EnRoute(position: Option<Position>)

  datatype FlightIdentification = FlightIdentification(majorCarrierIdentifier: Option<string>)

  /** `<fx:gufi>` and its text, `None` when the element is empty. */
  datatype GufiElement = GufiElement(text: Option<string>)

  /** `<fx:Flight>`: the root of a flight-by-identifier reply and each entry of a flight list. */
  datatype Flight = Flight(
    timestamp: Option<string>,
    identification: Option<FlightIdentification>,
    gufi: Option<GufiElement>,
    departures: seq<Departure>,
    arrivals: seq<Arrival>,
    enRoute: Option<EnRoute>)

  /** `strptime(attr[:-5], ...)` on an attribute `get` returned. */
  function ReadStamp(attr: Option<string>, parse: Parser): (r: Result<Time, Raised>)
    ensures attr.None? ==> r.Err? && r.error.TypeError?
    ensures attr.Some? ==> r.ToOption() == parse(DropLastFive(attr.value))
  {
    match attr
    case None => Err(TypeError("'NoneType' object is not subscriptable"))
    case Some(raw) =>
      match parse(DropLastFive(raw))
      case None => Err(ValueError(raw))
      case Some(t) => Ok(t)
  }

  /** The `actual` element of a departure's or arrival's fix time, if both exist. */
  function ActualOf(fixTime: Option<FixTime>): Option<TimeElement> {
    if fixTime.Some? then fixTime.value.actual else None
  }

  function EstimatedOf(fixTime: Option<FixTime>): Option<TimeElement> {
    if fixTime.Some? then fixTime.value.estimated else None
  }

  /** The flight's `majorCarrierIdentifier` equals `name`. */
  predicate NamedAs(f: Flight, name: string) {
    f.identification.Some? && f.identification.value.majorCarrierIdentifier == Some(name)
  }
}
