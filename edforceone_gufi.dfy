/**
 * Flight identifier (GUFI) resolution of edforceone/run.py: `check_stored_gufi`
 * keeps the cached identifier unless its document is gone or stale, and
 * `get_gufi` otherwise picks, among the airline's flights with the wanted
 * name, the one with the most recent timestamp.
 */
module EdForceOneGufi {
  import opened Wrappers
  import opened Text
  import opened Fixm
  import opened EdForceOneEvents

  // ---------------------------------------------------------------------------
  // check_stored_gufi

  const OneHour := 3600

  /**
   * The staleness test: `Ok(true)` keeps the stored identifier, `Ok(false)`
   * discards it. Comparing with a missing arrival estimate raises.
   */
  function KeepStored(e: Events, now: Time): (r: Result<bool, Raised>)
    ensures e.lastPosTime.None? ==> r == Ok(true)
    ensures r == Ok(false) <==>
      && e.lastPosTime.Some? && e.lastPosTime.value < now - OneHour
      && e.arrivalEstimated.Some? && e.arrivalEstimated.value < now - OneHour
    ensures r.Err? <==>
      e.lastPosTime.Some? && e.lastPosTime.value < now - OneHour && e.arrivalEstimated.None?
  {
    var anHourAgo := now - OneHour;
    if e.lastPosTime.None? then Ok(true)
    else if !(anHourAgo > e.lastPosTime.value) then Ok(true)
    else if e.arrivalEstimated.None? then
      Err(TypeError("'>' not supported between instances of 'datetime.datetime' and 'NoneType'"))
    else Ok(!(anHourAgo > e.arrivalEstimated.value))
  }

  /** An identifier found stale stays stale as time goes on. */
  lemma StaleStaysStale(e: Events, now: Time, later: Time)
    requires now <= later && KeepStored(e, now) == Ok(false)
    ensures KeepStored(e, later) == Ok(false)
  {
  }

  /** What `check_stored_gufi` returns, and whether it removes gufi.txt. */
  datatype StoredCheck = StoredCheck(gufi: Option<string>, removeCache: bool)

  /**
   * `check_stored_gufi`. `firstLine` is the first line of gufi.txt (`None` when
   * there is no such file); `fetched` is the flight document the provider
   * returns for the stored identifier (`None` for a non-200 reply).
   */
  function CheckStoredGufi(firstLine: Option<string>, fetched: Option<Flight>, parse: Parser, now: Time)
    : (r: Result<StoredCheck, Raised>)
    ensures firstLine.None? ==> r == Ok(StoredCheck(None, false))
    ensures firstLine.Some? && fetched.None? ==> r == Ok(StoredCheck(None, true))
    ensures r.Ok? && r.value.gufi.Some? ==>
      firstLine.Some? && fetched.Some? && r.value.gufi.value == RStrip(firstLine.value)
    ensures r.Ok? ==> (r.value.removeCache <==> firstLine.Some? && r.value.gufi.None?)
    ensures firstLine.Some? && fetched.Some? && ExtractEvents(fetched.value, parse).Ok? && r.Ok? ==>
      (r.value.gufi.Some? <==> KeepStored(ExtractEvents(fetched.value, parse).value, now) == Ok(true))
    ensures r.Err? <==>
      && firstLine.Some? && fetched.Some?
      && (ExtractEvents(fetched.value, parse).Err? || KeepStored(ExtractEvents(fetched.value, parse).value, now).Err?)
  {
    match firstLine
    case None => Ok(StoredCheck(None, false))
    case Some(line) =>
      var stored := RStrip(line);
      match fetched
      case None => Ok(StoredCheck(None, true))
      case Some(doc) =>
        var events :- ExtractEvents(doc, parse);
        var keep :- KeepStored(events, now);
        Ok(if keep then StoredCheck(Some(stored), false) else StoredCheck(None, true))
  }

  /** A position report within the last hour keeps the stored identifier. */
  lemma RecentPositionKeeps(line: string, doc: Flight, parse: Parser, now: Time)
    requires ExtractEvents(doc, parse).Ok?
    requires ExtractEvents(doc, parse).value.lastPosTime.Some?
    requires ExtractEvents(doc, parse).value.lastPosTime.value >= now - OneHour
    ensures CheckStoredGufi(Some(line), Some(doc), parse, now) == Ok(StoredCheck(Some(RStrip(line)), false))
  {
  }

  // ---------------------------------------------------------------------------
  // The selection loop of get_gufi

  /**
   * What the cache write inside the loop writes: as the source is written it
   * writes the global `gufi`, which is not yet bound while
   * `gufi = get_gufi(...)` runs; the evident intent is the current identifier.
   */
  datatype CacheWrite = WritesUnboundGlobal | WritesCurrentGufi

  /** The loop's `most_recent_timestamp` and `current_gufi`, once a flight has matched. */
  datatype Best = Best(timestamp: Time, gufi: string)

  /** One pass of the selection loop over flight `f`. */
  function SelectStep(best: Option<Best>, f: Flight, target: string, parse: Parser, w: CacheWrite)
    : Result<Option<Best>, Raised>
  {
    if f.identification.None? then
      Err(AttributeError("'NoneType' object has no attribute 'get'"))
    else if !NamedAs(f, target) then
      Ok(best)
    else
      var t :- ReadStamp(f.timestamp, parse);
      if best.Some? && t <= best.value.timestamp then Ok(best)
      else if f.gufi.None? then Err(AttributeError("'NoneType' object has no attribute 'text'"))
      else if w == WritesUnboundGlobal then Err(NameError("name 'gufi' is not defined"))
      else if f.gufi.value.text.None? then Err(TypeError("write() argument must be str, not None"))
      else Ok(Some(Best(t, f.gufi.value.text.value)))
  }

  /** The selection loop over `fs`, stopping at the first exception. */
  function Select(fs: seq<Flight>, target: string, parse: Parser, w: CacheWrite): Result<Option<Best>, Raised>
    decreases |fs|
  {
    if fs == [] then Ok(None)
    else
      var best :- Select(fs[..|fs| - 1], target, parse, w);
      SelectStep(best, fs[|fs| - 1], target, parse, w)
  }

  /** The identifier the loop returns. */
  function GufiOf(r: Result<Option<Best>, Raised>): Result<Option<string>, Raised> {
    match r
    case Err(e) => Err(e)
    case Ok(None) => Ok(None)
    case Ok(Some(b)) => Ok(Some(b.gufi))
  }

  function StampOf(f: Flight, parse: Parser): Option<Time> {
    ReadStamp(f.timestamp, parse).ToOption()
  }

  /** When the loop completes, it found an identifier exactly when some flight has the wanted name. */
  lemma {:induction false} SelectNoneIffNoMatch(fs: seq<Flight>, target: string, parse: Parser, w: CacheWrite)
    requires Select(fs, target, parse, w).Ok?
    ensures Select(fs, target, parse, w).value.None? <==> forall j | 0 <= j < |fs| :: !NamedAs(fs[j], target)
  {
    if fs != [] {
      var n := |fs| - 1;
      SelectNoneIffNoMatch(fs[..n], target, parse, w);
      assert forall j | 0 <= j < n :: fs[..n][j] == fs[j];
    }
  }

  /**
   * The loop keeps the matching flight with the strictly greatest timestamp,
   * the first one among equals; `k` is its index.
   */
  lemma {:induction false} SelectPicksFirstLatest(fs: seq<Flight>, target: string, parse: Parser) returns (k: nat)
    requires Select(fs, target, parse, WritesCurrentGufi).Ok?
    requires Select(fs, target, parse, WritesCurrentGufi).value.Some?
    ensures var b := Select(fs, target, parse, WritesCurrentGufi).value.value;
      && k < |fs| && NamedAs(fs[k], target)
      && StampOf(fs[k], parse) == Some(b.timestamp)
      && fs[k].gufi.Some? && fs[k].gufi.value.text == Some(b.gufi)
      && (forall j | 0 <= j < |fs| && NamedAs(fs[j], target) ::
            StampOf(fs[j], parse).Some? && StampOf(fs[j], parse).value <= b.timestamp)
      && (forall j | 0 <= j < k && NamedAs(fs[j], target) :: StampOf(fs[j], parse).value < b.timestamp)
  {
    var n := |fs| - 1;
    var prefix := fs[..n];
    var f := fs[n];
    var prev := Select(prefix, target, parse, WritesCurrentGufi).value;
    var b := Select(fs, target, parse, WritesCurrentGufi).value.value;
    assert forall j | 0 <= j < n :: prefix[j] == fs[j];
    if prev.Some? && (!NamedAs(f, target) || StampOf(f, parse).value <= prev.value.timestamp) {
      k := SelectPicksFirstLatest(prefix, target, parse);
    } else {
      k := n;
      SelectNoneIffNoMatch(prefix, target, parse, WritesCurrentGufi);
      if prev.Some? {
        var m := SelectPicksFirstLatest(prefix, target, parse);
      }
    }
  }

  /** A flight with another name never affects the result, wherever it stands. */
  lemma {:induction false} SelectIgnoresOtherFlights(
    a: seq<Flight>, x: Flight, c: seq<Flight>, target: string, parse: Parser, w: CacheWrite)
    requires x.identification.Some? && !NamedAs(x, target)
    ensures Select(a + [x] + c, target, parse, w) == Select(a + c, target, parse, w)
  {
    if c == [] {
      assert (a + [x] + c)[..|a|] == a + c;
    } else {
      var n := |c| - 1;
      SelectIgnoresOtherFlights(a, x, c[..n], target, parse, w);
      assert (a + [x] + c)[..|a| + 1 + n] == a + [x] + c[..n];
      assert (a + c)[..|a| + n] == a + c[..n];
    }
  }

  /**
   * As written, the cache write raises `NameError` at the first flight that
   * would become the current one: the loop never returns an identifier, and
   * returns at all only when no flight has the wanted name.
   */
  lemma {:induction false} FreshLookupFailsAsWritten(fs: seq<Flight>, target: string, parse: Parser)
    requires Select(fs, target, parse, WritesUnboundGlobal).Ok?
    ensures Select(fs, target, parse, WritesUnboundGlobal).value.None?
    ensures forall j | 0 <= j < |fs| :: !NamedAs(fs[j], target)
  {
    if fs != [] {
      var n := |fs| - 1;
      FreshLookupFailsAsWritten(fs[..n], target, parse);
      assert forall j | 0 <= j < n :: fs[..n][j] == fs[j];
    }
  }

  /** A single well-formed matching flight: as written the lookup raises, corrected it returns the identifier. */
  lemma OneMatchingFlight(f: Flight, target: string, parse: Parser)
    requires NamedAs(f, target) && StampOf(f, parse).Some?
    requires f.gufi.Some? && f.gufi.value.text.Some?
    ensures Select([f], target, parse, WritesUnboundGlobal) == Err(NameError("name 'gufi' is not defined"))
    ensures GufiOf(Select([f], target, parse, WritesCurrentGufi)) == Ok(f.gufi.value.text)
  {
  }

  /** Lemma for the loop's early exit: once raised, the whole loop raises the same. */
  lemma {:induction false} SelectStopsAt(fs: seq<Flight>, i: nat, target: string, parse: Parser, w: CacheWrite)
    requires i <= |fs| && Select(fs[..i], target, parse, w).Err?
    ensures Select(fs, target, parse, w) == Select(fs[..i], target, parse, w)
    decreases |fs| - i
  {
    if i < |fs| {
      var n := |fs| - 1;
      assert fs[..n][..i] == fs[..i];
      SelectStopsAt(fs[..n], i, target, parse, w);
    } else {
      assert fs[..i] == fs;
    }
  }

  /** The loop state as the pair of variables the source keeps. */
  function Pack(mostRecent: Option<Time>, current: Option<string>): Option<Best>
    requires mostRecent.Some? <==> current.Some?
  {
    if mostRecent.Some? then Some(Best(mostRecent.value, current.value)) else None
  }

  /** The selection loop of `get_gufi`, with the cache write taken as writing the current identifier. */
  method SelectMostRecent(flights: seq<Flight>, target: string, parse: Parser) returns (r: Result<Option<string>, Raised>)
    ensures r == GufiOf(Select(flights, target, parse, WritesCurrentGufi))
  {
    var mostRecent: Option<Time> := None;
    var currentGufi: Option<string> := None;
    var i := 0;
    while i < |flights|
      invariant i <= |flights|
      invariant mostRecent.Some? <==> currentGufi.Some?
      invariant Select(flights[..i], target, parse, WritesCurrentGufi) == Ok(Pack(mostRecent, currentGufi))
    {
      var flight := flights[i];
      assert flights[..i + 1][..i] == flights[..i];
      if flight.identification.None? {
        SelectStopsAt(flights, i + 1, target, parse, WritesCurrentGufi);
        return Err(AttributeError("'NoneType' object has no attribute 'get'"));
      }
      if flight.identification.value.majorCarrierIdentifier == Some(target) {
        var t := ReadStamp(flight.timestamp, parse);
        if t.Err? {
          SelectStopsAt(flights, i + 1, target, parse, WritesCurrentGufi);
          return Err(t.error);
        }
        if mostRecent.None? || t.value > mostRecent.value {
          if flight.gufi.None? {
            SelectStopsAt(flights, i + 1, target, parse, WritesCurrentGufi);
            return Err(AttributeError("'NoneType' object has no attribute 'text'"));
          }
          if flight.gufi.value.text.None? {
            SelectStopsAt(flights, i + 1, target, parse, WritesCurrentGufi);
            return Err(TypeError("write() argument must be str, not None"));
          }
          mostRecent := Some(t.value);
          currentGufi := flight.gufi.value.text;
        }
      }
      i := i + 1;
    }
    assert flights[..i] == flights;
    return Ok(currentGufi);
  }

  /**
   * `get_gufi`: the stored identifier when it still works, otherwise the most
   * recent flight of the airline's list whose name is airline + flight number;
   * `listing` is `None` for a non-200 reply.
   */
  method GetGufi(firstLine: Option<string>, fetched: Option<Flight>, now: Time,
                 listing: Option<seq<Flight>>, airline: string, flight: string, parse: Parser)
    returns (r: Result<Option<string>, Raised>)
    ensures var stored := CheckStoredGufi(firstLine, fetched, parse, now);
      r == if stored.Err? then Err(stored.error)
           else if stored.value.gufi.Some? then Ok(stored.value.gufi)
           else if listing.None? then Ok(None)
           else GufiOf(Select(listing.value, airline + flight, parse, WritesCurrentGufi))
  {
    var stored := CheckStoredGufi(firstLine, fetched, parse, now);
    if stored.Err? {
      return Err(stored.error);
    }
    if stored.value.gufi.Some? {
      return Ok(stored.value.gufi);
    }
    if listing.None? {
      return Ok(None);
    }
    r := SelectMostRecent(listing.value, airline + flight, parse);
  }
}
