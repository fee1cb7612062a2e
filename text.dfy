/** The string operations of Python that the scripts rely on. */
module Text {
  import opened Wrappers

  /** `needle` starts at offset `i` of `haystack`. */
  predicate OccursAt(haystack: string, needle: string, i: int) {
    0 <= i && i + |needle| <= |haystack| && haystack[i..i + |needle|] == needle
  }

  /** Python's `needle in haystack` on two strings. */
  predicate Contains(haystack: string, needle: string) {
    exists i | 0 <= i <= |haystack| - |needle| :: OccursAt(haystack, needle, i)
  }

  lemma ContainsItself(s: string, suffix: string)
    ensures Contains(s + suffix, s)
  {
    assert (s + suffix)[0..|s|] == s;
    assert OccursAt(s + suffix, s, 0);
  }

  /** The characters `str.rstrip()` removes, restricted to the Latin-1 range. */
  predicate IsSpace(c: char) {
    c == ' ' || 9 <= c as int <= 13 || 28 <= c as int <= 31 || c as int == 0x85 || c as int == 0xA0
  }

  /** Python's `s.rstrip()`: drops the trailing whitespace. */
  function RStrip(s: string): (r: string)
    ensures r <= s
    ensures r == [] || !IsSpace(r[|r| - 1])
    ensures forall i | |r| <= i < |s| :: IsSpace(s[i])
  {
    if s == [] || !IsSpace(s[|s| - 1]) then s else RStrip(s[..|s| - 1])
  }

  /** Python's `s[:-5]`: the string without its last five characters, empty when shorter. */
  function DropLastFive(s: string): (r: string)
    ensures |s| >= 5 ==> |r| == |s| - 5 && r + s[|s| - 5..] == s
    ensures |s| < 5 ==> r == []
  {
    if |s| >= 5 then s[..|s| - 5] else []
  }

  const SecondsPerDay := 86400

  function Digit(d: nat): (c: char)
    requires d < 10
  {
    (48 + d) as char
  }

  function TwoDigits(n: nat): string
    requires n < 100
  {
    [Digit(n / 10), Digit(n % 10)]
  }

  /** `strftime(t, "%H:%M:%S")` for a time given in seconds since the epoch. */
  function FormatClock(t: int): (s: string)
    ensures |s| == 8 && s[2] == ':' && s[5] == ':'
  {
    var day := t % SecondsPerDay;
    TwoDigits(day / 3600) + ":" + TwoDigits(day % 3600 / 60) + ":" + TwoDigits(day % 60)
  }

  function DigitValue(c: char): Option<nat> {
    if '0' <= c <= '9' then Some(c as int - 48) else None
  }

  function TwoDigitValue(s: string): Option<nat>
    requires |s| == 2
  {
    match (DigitValue(s[0]), DigitValue(s[1]))
    case (Some(h), Some(l)) => Some(10 * h + l)
    case _ => None
  }

  /** Reads back an `HH:MM:SS` clock as seconds since midnight. */
  function ParseClock(s: string): Option<nat> {
    if |s| != 8 || s[2] != ':' || s[5] != ':' then None
    else
      match (TwoDigitValue(s[0..2]), TwoDigitValue(s[3..5]), TwoDigitValue(s[6..8]))
      case (Some(h), Some(m), Some(sec)) =>
        if h < 24 && m < 60 && sec < 60 then Some(3600 * h + 60 * m + sec) else None
      case _ => None
  }

  /** The clock printed for `t` reads back as the time of day of `t`. */
  lemma ClockRoundTrip(t: int)
    ensures ParseClock(FormatClock(t)) == Some(t % SecondsPerDay)
  {
  }
}
