# EdForceOne flight tracker, modelled in Dafny

The tracker follows one commercial flight through its states: scheduled, departed (airborne) and landed. It polls an aviation-data provider for FIXM 3.0 flight documents. It folds the departure and arrival elements into a record of optional event fields, derives one status message by strict priority, and posts that message unless it was already logged. The repository holds two versions of the script, and both are modelled.

- `edforceone/run.py` is the full tracker:
  - a cached flight identifier (GUFI), checked for staleness;
  - a fresh lookup that picks the most recent matching flight;
  - event extraction with aerodromes and the last position time;
  - airport names shortened to a 30-character budget;
  - a `tweets.txt` log that suppresses a message when a logged line already contains it.
- `run.py` is the first version. It finds the flight in the airline's list by a first-match search, folds three raw timestamp strings into a four-field record, and prints at most one line by the same priority.

Modules, one per file:

| file | module | models |
|---|---|---|
| wrappers.dfy | `Wrappers` | `Option` (Python's `None`) and `Result` (a raised exception) |
| text.dfy | `Text` | `in` on strings, `rstrip()`, `[:-5]`, `strftime("%H:%M:%S")` and its inverse |
| fixm.dfy | `Fixm` | the FIXM elements and attributes the scripts read; the exceptions they raise; `strptime` of `timestamp[:-5]` |
| flight_state.dfy | `FlightState` | the three states, their rank, reading the state back from a message |
| edforceone_events.dfy | `EdForceOneEvents` | `get_events` of edforceone/run.py |
| edforceone_tweet.dfy | `EdForceOneTweet` | `tweet` and `get_airport` of edforceone/run.py |
| edforceone_gufi.dfy | `EdForceOneGufi` | `check_stored_gufi` and `get_gufi` of edforceone/run.py |
| run.dfy | `Run` | `get_flight_data`, `get_events`, `tweet` and the entry point of run.py |

The model represents the program's inputs and effects like this:

- Every way the scripts can crash is an `Err` of `Fixm.Raised`, carrying the Python exception class. A `find` that returned `None` and is then used gives an `AttributeError`. A missing attribute that is sliced, or a `None` that is concatenated, compared or written, gives a `TypeError`. A timestamp that `strptime` rejects gives a `ValueError`. A global read before assignment gives a `NameError`.
- Times are integers: seconds since the epoch, taken as UTC.
- The calendar parser is a parameter.
- The log `tweets.txt` is a sequence of lines, each with its newline.
- Posting to Twitter appends to a sequence of sent statuses.
- The loops of the source are methods with loop invariants, each proved equal to a fold function. The lemmas state what each fold computes.

Three behaviours of the code are worth knowing before reading the model:

- **Duplicate check.** A message is suppressed when any logged line contains it as a substring. There is no time window and no comparison of aerodrome and state.
- **Airport names.** The last form, "city (icao)", is not checked against the 30-character budget (`EdForceOneTweet.LongCityOverrunsBudget`).
- **Parse errors.** A document missing a fix time, or carrying a timestamp `strptime` rejects, raises; extraction never falls back to an all-absent record.

## Model

| member | source | states |
|---|---|---|
| `Text.RStrip` | edforceone/run.py:15 | the stored identifier is a prefix of the line, every dropped character is whitespace, and it does not end in whitespace |
| `Text.DropLastFive` | edforceone/run.py:120-121 | `[:-5]` drops exactly the last five characters, and gives the empty string for shorter strings |
| `Text.ClockRoundTrip` | edforceone/run.py:160-166 | the `%H:%M:%S` clock printed for a time reads back as that time's second of the day |
| `Fixm.ReadStamp` | edforceone/run.py:119-125 | a missing `timestamp` attribute raises `TypeError`; otherwise the result is what the parser makes of the attribute minus its last five characters |
| `EdForceOneEvents.ReadOptional` | edforceone/run.py:116-125 | an absent time element reads as nothing; a present one reads as its parsed timestamp or raises |
| `EdForceOneEvents.DepartureActualLastWins` | edforceone/run.py:112-121 | `departure_actual` is the parsed `actual` of the last departure carrying one; a departure without one leaves the earlier value |
| `EdForceOneEvents.DepartureEstimatedLastWins` | edforceone/run.py:123-125 | `departure_estimated` is the parsed `estimated` of the last departure carrying one, else the earlier value |
| `EdForceOneEvents.DepAerodromeLastWins` | edforceone/run.py:127-128 | `dep_aerodrome` is the `code` of the last `departureAerodrome`, even when that code is absent |
| `EdForceOneEvents.ArrivalActualLastWins` | edforceone/run.py:138-139 | `arrival_actual` is the parsed `actual` of the last arrival carrying one, else the earlier value |
| `EdForceOneEvents.ArrivalEstimatedLastWins` | edforceone/run.py:141-143 | `arrival_estimated` is the parsed `estimated` of the last arrival carrying one, else the earlier value |
| `EdForceOneEvents.ArrAerodromeLastWins` | edforceone/run.py:145-148 | `arr_aerodrome` comes from the last arrival naming an aerodrome: its `arrivalAerodrome` code when present, and `arrivalAerodromeOriginal` only when the primary is absent |
| `EdForceOneEvents.DeparturesKeepOtherFields` | edforceone/run.py:112-128 | the departures loop leaves the arrival fields and the position time unchanged |
| `EdForceOneEvents.ArrivalsFailIff` | edforceone/run.py:130-143 | the arrivals loop raises exactly when some arrival lacks its fix time or has an unreadable timestamp |
| `EdForceOneEvents.ArrivalsKeepOtherFields` | edforceone/run.py:130-148 | the arrivals loop leaves the departure fields and the position time unchanged |
| `EdForceOneEvents.DeparturesFailIff` | edforceone/run.py:113-125 | the departures loop raises exactly when some departure lacks its fix time or has an unreadable timestamp |
| `EdForceOneEvents.EmptyDocumentNoEvents` | edforceone/run.py:100-106 | a document without departures, arrivals or a position gives the all-absent record |
| `EdForceOneEvents.RunDepartures` | edforceone/run.py:112-128 | the departures loop, stopping at the first exception, computes the departures fold |
| `EdForceOneEvents.RunArrivals` | edforceone/run.py:130-148 | the arrivals loop, with its primary/fallback aerodrome choice, computes the arrivals fold |
| `EdForceOneEvents.GetEvents` | edforceone/run.py:94-150 | `get_events` reads the position time, then folds the departures, then folds the arrivals, and raises what the first bad element raises |
| `EdForceOneTweet.StatusOf` | edforceone/run.py:156-166 | the chosen state is the highest-ranked one whose fields are present (landed, then departed with both fields, then scheduled), and none exactly when no state applies |
| `EdForceOneTweet.DisplayName` | edforceone/run.py:195-199 | the full form whenever it fits 30 characters; otherwise "city, country (icao)" when that fits; otherwise "city (icao)", unchecked against the budget; within budget whenever the city form fits; always ends in "(icao)" |
| `EdForceOneTweet.AirportNameFirstMatch` | edforceone/run.py:191-201 | the name comes from the first row whose ICAO code matches; there is none exactly when no row matches or the code is absent |
| `EdForceOneTweet.GetAirport` | edforceone/run.py:188-201 | the scan with early return computes the first-match name |
| `EdForceOneTweet.NameOrRaise` | edforceone/run.py:157-166 | concatenating an unknown airport raises `TypeError` |
| `EdForceOneTweet.Message` | edforceone/run.py:153-166 | there is no message exactly when no state applies; the call raises exactly when an airport the chosen message needs is unknown; a message starts with the flight name |
| `EdForceOneTweet.MessageNamesStatus` | edforceone/run.py:156-166 | the chosen state can be read back from the message, so messages of different states differ |
| `EdForceOneTweet.FindDuplicate` | edforceone/run.py:168-174 | the scan reports a duplicate exactly when some logged line contains the message |
| `EdForceOneTweet.AnnouncedAfterAppend` | edforceone/run.py:178-179 | once `message + "\n"` is appended, the same message counts as a duplicate |
| `EdForceOneTweet.AnnouncedStaysAnnounced` | edforceone/run.py:168-180 | the log only grows, so a suppressed message stays suppressed |
| `EdForceOneTweet.TweetStore.Tweet` | edforceone/run.py:153-184 | on a duplicate, nothing changes; otherwise exactly one line `message + "\n"` is appended and the message is posted; without a message, or with an unknown airport, it raises and nothing is written |
| `EdForceOneTweet.TweetTwice` | edforceone/run.py:168-180 | the same record tweeted twice: the second call is suppressed unless the first raised, and then it raises the same error; the log and the posted statuses gain exactly the first message when it was posted, and are unchanged otherwise |
| `EdForceOneTweet.AberdeenLanded` | edforceone/run.py:156-157 | an actual arrival at EGCC gives "ABD666 has landed in Manchester (EGCC)." whatever the departure fields hold |
| `EdForceOneTweet.AberdeenDeparted` | edforceone/run.py:158-163 | ABD666 off EGPD at 17:35 and due at EGCC at 18:35 gives "ABD666 departed from Aberdeen (EGPD) at 17:35:00 UTC. It should arrive in Manchester (EGCC) at 18:35:00 UTC." |
| `EdForceOneTweet.AberdeenScheduled` | edforceone/run.py:164-166 | ABD666 scheduled from EGPD at 17:30 gives "ABD666 is scheduled to depart from Aberdeen (EGPD) at 17:30:00 UTC." |
| `EdForceOneTweet.LongCityOverrunsBudget` | edforceone/run.py:196-199 | the city form is not length-checked: a long city name gives a name over 30 characters |
| `EdForceOneGufi.KeepStored` | edforceone/run.py:27-36 | the identifier is kept when there is no position time; it is discarded exactly when both the position time and the arrival estimate are over an hour old; a missing estimate after an old position raises |
| `EdForceOneGufi.StaleStaysStale` | edforceone/run.py:27-34 | an identifier found stale stays stale later |
| `EdForceOneGufi.CheckStoredGufi` | edforceone/run.py:11-36 | with no file, nothing is returned or removed; with a failed fetch, the file is removed; an identifier is returned only as the stripped first line, and never together with a removal; after a successful fetch it is returned exactly when `KeepStored` keeps it; an exception is raised exactly when extraction or the staleness test raises |
| `EdForceOneGufi.RecentPositionKeeps` | edforceone/run.py:29-36 | a position report within the last hour keeps the stored identifier |
| `EdForceOneGufi.SelectNoneIffNoMatch` | edforceone/run.py:64-78 | a completed lookup finds an identifier exactly when some flight has the wanted name |
| `EdForceOneGufi.SelectPicksFirstLatest` | edforceone/run.py:64-73 | the kept flight matches and has the greatest timestamp of all matching flights, strictly greater than every earlier match (the first among equals wins) |
| `EdForceOneGufi.SelectIgnoresOtherFlights` | edforceone/run.py:66-69 | a flight with another name, inserted anywhere, does not change the result |
| `EdForceOneGufi.FreshLookupFailsAsWritten` | edforceone/run.py:71-76 | as written, the lookup never returns an identifier, and it completes only when no flight matches |
| `EdForceOneGufi.OneMatchingFlight` | edforceone/run.py:71-76 | one matching flight: as written the lookup raises `NameError`; corrected, it returns that flight's identifier |
| `EdForceOneGufi.SelectMostRecent` | edforceone/run.py:64-78 | the loop over `most_recent_timestamp`/`current_gufi` computes the selection fold |
| `EdForceOneGufi.GetGufi` | edforceone/run.py:39-78 | a working stored identifier wins; a failed list request gives none; otherwise the most recent matching flight |
| `Run.FlightDataFirstMatch` | run.py:31-41 | the search finds the first flight whose `majorCarrierIdentifier` equals the id; none exactly when every flight has another name; raises exactly when a flight without identification comes first |
| `Run.GetFlightData` | run.py:31-41 | the loop performs the `FlightData` search, so it returns the first named flight, none exactly when every flight has another name, and raises exactly when a flight without identification comes first |
| `Run.DepartureActualLastWins` | run.py:49-57 | `departure_actual` is the raw attribute of the last departure with an `actual` element, unchanged (even when absent) |
| `Run.DepartureEstimatedLastWins` | run.py:49-60 | `departure_estimated` is the raw attribute of the last departure with an `estimated` element |
| `Run.ArrivalEstimatedLastWins` | run.py:62-72 | `arrival_estimated` is the raw attribute of the last arrival with an `estimated` element |
| `Run.DeparturesKeepArrivalFields` | run.py:49-60 | the departures loop leaves both arrival fields unchanged |
| `Run.ArrivalsKeepDepartureFields` | run.py:62-72 | the arrivals loop assigns neither `arrival_actual` nor the departure fields |
| `Run.ArrivalActualNeverSet` | run.py:45 | `arrival_actual` starts as `None` and stays `None` |
| `Run.GetEvents` | run.py:44-74 | the two loops compute the four-field fold, raising at a missing fix time |
| `Run.StatusOf` | run.py:77-84 | the branch taken is the highest-ranked state whose strings are truthy, or none |
| `Run.Announcement` | run.py:77-84 | a line is printed exactly when some state applies, and the line names that state |
| `Run.DepartedThenScheduledLines` | run.py:77-84 | a record with an actual departure and an arrival estimate prints the departed line with the raw timestamps; with an empty actual departure it prints the scheduled line |
| `Run.RunOnce` | run.py:87-94 | a failed list request raises; otherwise the result is the search's error, nothing when no flight is found, the extraction's error, or the announcement of the found flight's events; a printed line is never the landed one |

## Findings

| source | as written | input that shows it | evidently intended | confidence | as-written member | corrected member |
|---|---|---|---|---|---|---|
| edforceone/run.py:74-76 | the cache write inside the selection loop writes the global `gufi`. That global is unbound while `gufi = get_gufi(...)` (line 227) runs, so `NameError` is raised at the first flight that becomes current, and a fresh lookup never returns an identifier | no usable gufi.txt, and an airline list with one flight named ABD666 that has a timestamp and a `gufi` element | write `current_gufi`, so the lookup returns the most recent matching flight's identifier | high; not executed | `EdForceOneGufi.FreshLookupFailsAsWritten` | `EdForceOneGufi.SelectPicksFirstLatest` |

`GetGufi` and `SelectMostRecent` use the corrected write.

## Left out

- HTTP requests (`get_source_xml` in both scripts, and the list request in `get_gufi`) are not modelled. Their replies are inputs, with `None` for a non-200 status.
- XML parsing by ElementTree is not modelled. A document is given as its elements. The `ParseError` raised for malformed text is not modelled.
- `strptime` is the `Parser` parameter, so the calendar arithmetic is not modelled. `datetime.now()` is the `now` parameter. The source compares local time with UTC timestamps; the model takes both on one scale.
- Posting through Twython is not modelled beyond appending to the list of sent statuses. Client failures are not modelled. The `print` output is not modelled.
- File handling is not modelled:
  - gufi.txt is given as its first line, and its removal is the `removeCache` flag.
  - Truncating gufi.txt before the failing write in the selection loop is not modelled.
  - A missing tweets.txt behaves as an empty log. The model assumes that every stored line ends with a newline, which holds for every line the script writes itself.
- `EdForceOneTweet.TweetStore.Tweet` appends each message as one log entry, so the model assumes messages hold no line break (`\n` or `\r`). Python reads the file back split at every line break, so a message holding one would never be found again. The fixed flight name and the airports.dat names hold none.
- `EdForceOneTweet.TweetTwice` promises that the second call is suppressed only under that same assumption of no line break in the message.
- `EdForceOneTweet.AnnouncedAfterAppend` treats the appended message and newline as one logged line, under that same assumption.
- airports.dat rows are taken as complete six-field records. Short rows and Latin-1 decoding are not modelled.
- `Text.RStrip` strips only whitespace in the Latin-1 range. Other Unicode whitespace is not modelled.
- The argument parsing, the credential globals and the `__main__` block of edforceone/run.py (lines 204-235) are not modelled. That block chains `GetGufi`, a fetch, `GetEvents` and `TweetStore.Tweet` through I/O.
- `EdForceOneGufi.GetGufi` returns only the identifier. Whether the cache file is removed is stated by `EdForceOneGufi.CheckStoredGufi`.
- Behaviour expected only by the tests, not by the code, is not modelled:
  - a three-argument `tweet` returning "Duplicate";
  - the "#EdForceOne" suffix;
  - a three-argument `get_gufi`;
  - an all-absent record for unparseable XML.
