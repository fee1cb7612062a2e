/**
 * Message derivation and duplicate suppression of edforceone/run.py (`tweet`,
 * `get_airport`): the event record selects one of three states by strict
 * priority, the state's message names the airports from the OpenFlights
 * table, and the message is logged and posted unless a logged line already
 * contains it.
 */
module EdForceOneTweet {
  import opened Wrappers
  import opened Text
  import opened Fixm
  import opened FlightState
  import opened EdForceOneEvents

  // ---------------------------------------------------------------------------
  // The state of the flight

  /** The fields a state's message needs are all present (a datetime is always truthy). */
  predicate Applies(s: Status, e: Events) {
    match s
    case Landed => e.arrivalActual.Some?
    case Departed => e.arrivalEstimated.Some? && e.departureActual.Some?
    case Scheduled => e.departureEstimated.Some?
  }

  /** The state `tweet` announces: the highest-ranked one that applies, if any. */
  function StatusOf(e: Events): (r: Option<Status>)
    ensures r.None? <==> forall s: Status :: !Applies(s, e)
    ensures r.Some? ==> Applies(r.value, e) && forall s: Status :: Applies(s, e) ==> Rank(s) <= Rank(r.value)
  {
    if e.arrivalActual.Some? then
      assert Applies(Landed, e);
      Some(Landed)
    else if e.arrivalEstimated.Some? && e.departureActual.Some? then
      assert !Applies(Landed, e) && Applies(Departed, e);
      Some(Departed)
    else if e.departureEstimated.Some? then
      assert !Applies(Landed, e) && !Applies(Departed, e) && Applies(Scheduled, e);
      Some(Scheduled)
    else
      assert !Applies(Landed, e) && !Applies(Departed, e) && !Applies(Scheduled, e);
      None
  }

  // ---------------------------------------------------------------------------
  // Airport names (get_airport)

  /** A row of airports.dat as `csv.DictReader` reads it with the six field names. */
  datatype AirportRow = AirportRow(id: string, name: string, city: string, country: string, iata: string, icao: string)

  /** The display budget for an airport name. */
  const NameBudget := 30

  function FullName(row: AirportRow, icao: string): string {
    row.name + " (" + row.city + "), " + row.country + " (" + icao + ")"
  }

  function CityCountryName(row: AirportRow, icao: string): string {
    row.city + ", " + row.country + " (" + icao + ")"
  }

  function CityName(row: AirportRow, icao: string): string {
    row.city + " (" + icao + ")"
  }

  predicate EndsWith(s: string, suffix: string) {
    |suffix| <= |s| && s[|s| - |suffix|..] == suffix
  }

  /**
   * The name printed for a matching row: the fullest form that fits the budget,
   * falling back to the city form, which is not checked against the budget.
   */
  function DisplayName(row: AirportRow, icao: string): (r: string)
    ensures |FullName(row, icao)| <= NameBudget ==> r == FullName(row, icao)
    ensures |r| <= NameBudget ||
      (r == CityName(row, icao) && |FullName(row, icao)| > NameBudget && |CityCountryName(row, icao)| > NameBudget)
    ensures |FullName(row, icao)| > NameBudget && |CityCountryName(row, icao)| <= NameBudget ==>
      r == CityCountryName(row, icao)
    ensures |FullName(row, icao)| > NameBudget && |CityCountryName(row, icao)| > NameBudget ==>
      r == CityName(row, icao)
    ensures |CityName(row, icao)| <= NameBudget ==> |r| <= NameBudget
    ensures EndsWith(r, " (" + icao + ")")
  {
    var preferred := FullName(row, icao);
    if |preferred| <= NameBudget then preferred
    else
      var shorter := CityCountryName(row, icao);
      if |shorter| <= NameBudget then shorter else CityName(row, icao)
  }

  /** The first row whose ICAO code is `icao`; an absent code matches no row. */
  function AirportName(rows: seq<AirportRow>, icao: Option<string>): (r: Option<string>)
  {
    if rows == [] || icao.None? then None
    else if rows[0].icao == icao.value then Some(DisplayName(rows[0], icao.value))
    else AirportName(rows[1..], icao)
  }

  /** `AirportName` is the display name of the first matching row, and `None` exactly when no row matches. */
  lemma {:induction false} AirportNameFirstMatch(rows: seq<AirportRow>, icao: Option<string>)
    ensures AirportName(rows, icao).None? <==>
      (icao.None? || forall j | 0 <= j < |rows| :: rows[j].icao != icao.value)
    ensures AirportName(rows, icao).Some? ==>
      exists k | 0 <= k < |rows| ::
        && rows[k].icao == icao.value
        && (forall j | 0 <= j < k :: rows[j].icao != icao.value)
        && AirportName(rows, icao).value == DisplayName(rows[k], icao.value)
  {
    if rows != [] && icao.Some? && rows[0].icao != icao.value {
      AirportNameFirstMatch(rows[1..], icao);
      if AirportName(rows[1..], icao).Some? {
        var k :| 0 <= k < |rows| - 1 && rows[1..][k].icao == icao.value
          && (forall j | 0 <= j < k :: rows[1..][j].icao != icao.value)
          && AirportName(rows[1..], icao).value == DisplayName(rows[1..][k], icao.value);
        assert rows[k + 1] == rows[1..][k];
        assert forall j | 1 <= j < k + 1 :: rows[j] == rows[1..][j - 1];
      }
    } else if rows != [] && icao.Some? {
      assert rows[0].icao == icao.value;
    }
  }

  /** `get_airport`: a scan of the rows that returns at the first match. */
  method GetAirport(rows: seq<AirportRow>, icao: Option<string>) returns (name: Option<string>)
    ensures name == AirportName(rows, icao)
  {
    var i := 0;
    while i < |rows|
      invariant i <= |rows|
      invariant AirportName(rows[i..], icao) == AirportName(rows, icao)
    {
      var row := rows[i];
      assert rows[i..][1..] == rows[i + 1..];
      if icao.Some? && row.icao == icao.value {
        return Some(DisplayName(row, icao.value));
      }
      i := i + 1;
    }
    return None;
  }

  // ---------------------------------------------------------------------------
  // The message

  /** `"..." + get_airport(code)`: concatenating the `None` of an unknown airport raises. */
  function NameOrRaise(rows: seq<AirportRow>, icao: Option<string>): (r: Result<string, Raised>)
    ensures r.ToOption() == AirportName(rows, icao)
    ensures r.Err? ==> r.error.TypeError?
  {
    match AirportName(rows, icao)
    case None => Err(TypeError("can only concatenate str (not \"NoneType\") to str"))
    case Some(name) => Ok(name)
  }

  /** The message `tweet` builds for an event record, `None` when no state applies. */
  function Message(e: Events, flight: string, rows: seq<AirportRow>): (r: Result<Option<string>, Raised>)
    ensures r == Ok(None) <==> StatusOf(e).None?
    ensures r.Err? <==>
      || (StatusOf(e) == Some(Landed) && AirportName(rows, e.arrAerodrome).None?)
      || (StatusOf(e) == Some(Departed) &&
           (AirportName(rows, e.depAerodrome).None? || AirportName(rows, e.arrAerodrome).None?))
      || (StatusOf(e) == Some(Scheduled) && AirportName(rows, e.depAerodrome).None?)
    ensures r.Err? ==> r.error.TypeError?
    ensures r.Ok? && r.value.Some? ==> |flight| + 2 < |r.value.value| && r.value.value[..|flight|] == flight
  {
    match StatusOf(e)
    case None => Ok(None)
    case Some(Landed) =>
      var arr :- NameOrRaise(rows, e.arrAerodrome);
      Ok(Some(flight + " has landed in " + arr + "."))
    case Some(Departed) =>
      var dep :- NameOrRaise(rows, e.depAerodrome);
      var arr :- NameOrRaise(rows, e.arrAerodrome);
      Ok(Some(flight + " departed from " + dep + " at " + FormatClock(e.departureActual.value) +
              " UTC. It should arrive in " + arr + " at " + FormatClock(e.arrivalEstimated.value) + " UTC."))
    case Some(Scheduled) =>
      var dep :- NameOrRaise(rows, e.depAerodrome);
      Ok(Some(flight + " is scheduled to depart from " + dep + " at " + FormatClock(e.departureEstimated.value) + " UTC."))
  }

  /** Every message names its state, so messages of two different states are never equal. */
  lemma MessageNamesStatus(e: Events, flight: string, rows: seq<AirportRow>)
    requires Message(e, flight, rows).Ok? && Message(e, flight, rows).value.Some?
    ensures StatusOfMessage(Message(e, flight, rows).value.value, flight) == StatusOf(e)
  {
  }

  // ---------------------------------------------------------------------------
  // Duplicate suppression and posting

  /** Some logged line contains `m` (`message in line` for a line of tweets.txt). */
  predicate Announced(lines: seq<string>, m: string) {
    exists i | 0 <= i < |lines| :: Contains(lines[i], m)
  }

  /** The scan over tweets.txt that stops at the first line containing the message. */
  method FindDuplicate(lines: seq<string>, m: string) returns (found: bool)
    ensures found <==> Announced(lines, m)
  {
    var i := 0;
    while i < |lines|
      invariant i <= |lines|
      invariant forall j | 0 <= j < i :: !Contains(lines[j], m)
    {
      if Contains(lines[i], m) {
        return true;
      }
      i := i + 1;
    }
    return false;
  }

  /** Once a message is appended, it is announced: the same message is suppressed next time. */
  lemma AnnouncedAfterAppend(lines: seq<string>, m: string)
    ensures Announced(lines + [m + "\n"], m)
  {
    ContainsItself(m, "\n");
    assert (lines + [m + "\n"])[|lines|] == m + "\n";
  }

  /** The log only grows, so an announced message stays announced. */
  lemma AnnouncedStaysAnnounced(lines: seq<string>, more: seq<string>, m: string)
    requires Announced(lines, m)
    ensures Announced(lines + more, m)
  {
    var i :| 0 <= i < |lines| && Contains(lines[i], m);
    assert (lines + more)[i] == lines[i];
  }

  /** What `tweet` raises when there is no message: `None + "\n"`. */
  const AppendNoneError := TypeError("unsupported operand type(s) for +: 'NoneType' and 'str'")

  datatype TweetOutcome = Duplicate | Posted(status: string) | Failed(error: Raised)

  /** tweets.txt, one entry per line with its newline, and the statuses sent to Twitter. */
  class TweetStore {
    var lines: seq<string>
    var statuses: seq<string>

    constructor (lines: seq<string>)
      ensures this.lines == lines && statuses == []
    {
      this.lines := lines;
      statuses := [];
    }

    /**
     * `tweet`: derive the message; if a logged line contains it, do nothing;
     * otherwise append it with a newline and post it. Without a message the
     * append raises and nothing is written.
     */
    method Tweet(e: Events, flight: string, rows: seq<AirportRow>) returns (outcome: TweetOutcome)
      modifies this
      ensures match Message(e, flight, rows)
        case Err(error) =>
          outcome == Failed(error) && lines == old(lines) && statuses == old(statuses)
        case Ok(None) =>
          outcome == Failed(AppendNoneError) && lines == old(lines) && statuses == old(statuses)
        case Ok(Some(m)) =>
          if Announced(old(lines), m) then
            outcome == Duplicate && lines == old(lines) && statuses == old(statuses)
          else
            outcome == Posted(m) && lines == old(lines) + [m + "\n"] && statuses == old(statuses) + [m]
    {
      var message := Message(e, flight, rows);
      if message.Err? {
        return Failed(message.error);
      }
      if message.value.Some? {
        var duplicate := FindDuplicate(lines, message.value.value);
        if duplicate {
          return Duplicate;
        }
      }
      if message.value.None? {
        return Failed(AppendNoneError);
      }
      var m := message.value.value;
      lines := lines + [m + "\n"];
      statuses := statuses + [m];
      return Posted(m);
    }
  }

  /**
   * The same record tweeted twice in a row: the second call is suppressed unless
   * the first raised, in which case it raises the same way; at most one line is
   * ever logged and posted.
   */
  method TweetTwice(store: TweetStore, e: Events, flight: string, rows: seq<AirportRow>)
    returns (first: TweetOutcome, second: TweetOutcome)
    modifies store
    ensures !first.Failed? ==> second == Duplicate
    ensures first.Failed? ==> second == first
    ensures first.Posted? ==>
      && store.lines == old(store.lines) + [first.status + "\n"]
      && store.statuses == old(store.statuses) + [first.status]
    ensures !first.Posted? ==> store.lines == old(store.lines) && store.statuses == old(store.statuses)
  {
    first := store.Tweet(e, flight, rows);
    if first.Posted? {
      AnnouncedAfterAppend(old(store.lines), first.status);
    }
    second := store.Tweet(e, flight, rows);
  }

  /** The scheduled message for ABD666 leaving Aberdeen at 17:30 UTC on 17 April 2016. */
  lemma AberdeenScheduled()
    ensures
      var aberdeen := AirportRow("532", "Aberdeen Dyce Airport", "Aberdeen", "United Kingdom", "ABZ", "EGPD");
      var e := NoEvents.(departureEstimated := Some(1460914200), arrivalEstimated := Some(1460917800),
                         depAerodrome := Some("EGPD"), arrAerodrome := Some("EGCC"));
      Message(e, "ABD666", [aberdeen]) ==
        Ok(Some("ABD666" + " is scheduled to depart from " + "Aberdeen (EGPD)" + " at " + "17:30:00" + " UTC."))
  {
    var aberdeen := AirportRow("532", "Aberdeen Dyce Airport", "Aberdeen", "United Kingdom", "ABZ", "EGPD");
    assert |FullName(aberdeen, "EGPD")| == 55;
    assert |CityCountryName(aberdeen, "EGPD")| == 31;
    assert DisplayName(aberdeen, "EGPD") == CityName(aberdeen, "EGPD") == "Aberdeen (EGPD)";
    assert [aberdeen][0].icao == "EGPD";
    assert AirportName([aberdeen], Some("EGPD")) == Some("Aberdeen (EGPD)");
    assert 1460914200 % SecondsPerDay == 63000;
    assert TwoDigits(17) == "17" && TwoDigits(30) == "30" && TwoDigits(0) == "00";
    assert FormatClock(1460914200) == "17:30:00";
    var e := NoEvents.(departureEstimated := Some(1460914200), arrivalEstimated := Some(1460917800),
                       depAerodrome := Some("EGPD"), arrAerodrome := Some("EGCC"));
    assert StatusOf(e) == Some(Scheduled);
    assert NameOrRaise([aberdeen], e.depAerodrome) == Ok("Aberdeen (EGPD)");
  }

  /**
   * The departed message for ABD666, off Aberdeen at 17:35 and due in Manchester
   * at 18:35 UTC: the actual departure clock comes first, the arrival estimate second.
   */
  lemma AberdeenDeparted()
    ensures
      var aberdeen := AirportRow("532", "Aberdeen Dyce Airport", "Aberdeen", "United Kingdom", "ABZ", "EGPD");
      var manchester := AirportRow("478", "Manchester Airport", "Manchester", "United Kingdom", "MAN", "EGCC");
      var e := NoEvents.(departureActual := Some(1460914500), departureEstimated := Some(1460914200),
                         arrivalEstimated := Some(1460918100),
                         depAerodrome := Some("EGPD"), arrAerodrome := Some("EGCC"));
      Message(e, "ABD666", [aberdeen, manchester]) ==
        Ok(Some("ABD666" + " departed from " + "Aberdeen (EGPD)" + " at " + "17:35:00" +
                " UTC. It should arrive in " + "Manchester (EGCC)" + " at " + "18:35:00" + " UTC."))
  {
    var aberdeen := AirportRow("532", "Aberdeen Dyce Airport", "Aberdeen", "United Kingdom", "ABZ", "EGPD");
    var manchester := AirportRow("478", "Manchester Airport", "Manchester", "United Kingdom", "MAN", "EGCC");
    var rows := [aberdeen, manchester];
    assert |CityCountryName(aberdeen, "EGPD")| == 31;
    assert DisplayName(aberdeen, "EGPD") == "Aberdeen (EGPD)";
    assert |CityCountryName(manchester, "EGCC")| == 33;
    assert DisplayName(manchester, "EGCC") == "Manchester (EGCC)";
    assert rows[0].icao == "EGPD" && rows[1].icao == "EGCC";
    assert rows[1..] == [manchester];
    assert AirportName(rows, Some("EGPD")) == Some("Aberdeen (EGPD)");
    assert AirportName([manchester], Some("EGCC")) == Some("Manchester (EGCC)");
    assert AirportName(rows, Some("EGCC")) == Some("Manchester (EGCC)");
    assert 1460914500 % SecondsPerDay == 63300;
    assert 1460918100 % SecondsPerDay == 66900;
    assert TwoDigits(17) == "17" && TwoDigits(18) == "18" && TwoDigits(35) == "35" && TwoDigits(0) == "00";
    assert FormatClock(1460914500) == "17:35:00";
    assert FormatClock(1460918100) == "18:35:00";
    var e := NoEvents.(departureActual := Some(1460914500), departureEstimated := Some(1460914200),
                       arrivalEstimated := Some(1460918100),
                       depAerodrome := Some("EGPD"), arrAerodrome := Some("EGCC"));
    assert StatusOf(e) == Some(Departed);
    assert NameOrRaise(rows, e.depAerodrome) == Ok("Aberdeen (EGPD)");
    assert NameOrRaise(rows, e.arrAerodrome) == Ok("Manchester (EGCC)");
  }

  /** The landed message for ABD666 once Manchester reports its actual arrival at 18:40 UTC. */
  lemma AberdeenLanded()
    ensures
      var aberdeen := AirportRow("532", "Aberdeen Dyce Airport", "Aberdeen", "United Kingdom", "ABZ", "EGPD");
      var manchester := AirportRow("478", "Manchester Airport", "Manchester", "United Kingdom", "MAN", "EGCC");
      var e := NoEvents.(departureActual := Some(1460914500), departureEstimated := Some(1460914200),
                         arrivalActual := Some(1460918400), arrivalEstimated := Some(1460918100),
                         depAerodrome := Some("EGPD"), arrAerodrome := Some("EGCC"));
      Message(e, "ABD666", [aberdeen, manchester]) ==
        Ok(Some("ABD666" + " has landed in " + "Manchester (EGCC)" + "."))
  {
    var aberdeen := AirportRow("532", "Aberdeen Dyce Airport", "Aberdeen", "United Kingdom", "ABZ", "EGPD");
    var manchester := AirportRow("478", "Manchester Airport", "Manchester", "United Kingdom", "MAN", "EGCC");
    var rows := [aberdeen, manchester];
    assert |CityCountryName(manchester, "EGCC")| == 33;
    assert DisplayName(manchester, "EGCC") == "Manchester (EGCC)";
    assert rows[0].icao == "EGPD" && rows[1..] == [manchester];
    assert AirportName([manchester], Some("EGCC")) == Some("Manchester (EGCC)");
    assert AirportName(rows, Some("EGCC")) == Some("Manchester (EGCC)");
    var e := NoEvents.(departureActual := Some(1460914500), departureEstimated := Some(1460914200),
                       arrivalActual := Some(1460918400), arrivalEstimated := Some(1460918100),
                       depAerodrome := Some("EGPD"), arrAerodrome := Some("EGCC"));
    assert StatusOf(e) == Some(Landed);
    assert NameOrRaise(rows, e.arrAerodrome) == Ok("Manchester (EGCC)");
  }

  /** The city form is the last resort and is not checked: a long city name overruns the budget. */
  lemma LongCityOverrunsBudget()
    ensures
      var row := AirportRow("5", "Anglesey Airport", "Llanfairpwllgwyngyllgogerychwyrndrobwll", "United Kingdom", "", "EGOV");
      |DisplayName(row, "EGOV")| > NameBudget
  {
  }
}
