/** The three announced states of a flight, their priority, and how a message names them. */
module FlightState {
  import opened Wrappers

  datatype Status = Landed | Departed | Scheduled

  /** Landed outranks departed, which outranks scheduled. */
  function Rank(s: Status): nat {
    match s
    case Landed => 3
    case Departed => 2
    case Scheduled => 1
  }

  /**
   * Reads the state back from a message: every message is the flight name, a
   * space, then "has landed", "departed" or "is scheduled".
   */
  function StatusOfMessage(m: string, flight: string): Option<Status> {
    if |m| <= |flight| + 1 || m[..|flight|] != flight || m[|flight|] != ' ' then None
    else if m[|flight| + 1] == 'h' then Some(Landed)
    else if m[|flight| + 1] == 'd' then Some(Departed)
    else if m[|flight| + 1] == 'i' then Some(Scheduled)
    else None
  }
}
