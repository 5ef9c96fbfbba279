/**
 * `log`: a timestamp built from the local date fields, and a level gate that
 * always lets INFO through and lets any other level through only when it is
 * exactly the configured `LOG_LEVEL`.
 */
module Log {
  import opened Wrappers
  import opened JsText

  const Info := "INFO"
  const Debug := "DEBUG"

  /** `console.log` or `console.debug`. */
  datatype Channel = Console | ConsoleDebug

  datatype LogLine = LogLine(channel: Channel, text: string)

  /**
   * `YYYY-MM-DD HH:MM:SS` from the fields of a JavaScript `Date`: the year as
   * `String` prints it, the zero-based month plus one, and the other fields
   * padded to two digits.
   */
  function Timestamp(year: int, monthIndex: nat, day: nat, hours: nat, minutes: nat, seconds: nat): (ts: string)
    requires monthIndex < 12 && 1 <= day <= 31 && hours < 24 && minutes < 60 && seconds < 60
    ensures |ts| == |IntText(year)| + 15
  {
    IntText(year) + "-" + TwoDigits(monthIndex + 1) + "-" + TwoDigits(day) + " "
      + TwoDigits(hours) + ":" + TwoDigits(minutes) + ":" + TwoDigits(seconds)
  }

  /** Where the pieces of a `year-mo-d h:mi:se` template land. */
  lemma {:induction false} TemplateLayout(yt: string, mo: string, d: string, h: string, mi: string, se: string)
    requires |mo| == 2 && |d| == 2 && |h| == 2 && |mi| == 2 && |se| == 2
    ensures var ts := yt + "-" + mo + "-" + d + " " + h + ":" + mi + ":" + se;
      var y := |yt|;
      && |ts| == y + 15 && ts[..y] == yt
      && ts[y] == '-' && ts[y + 3] == '-' && ts[y + 6] == ' ' && ts[y + 9] == ':' && ts[y + 12] == ':'
      && ts[y + 1..y + 3] == mo && ts[y + 4..y + 6] == d && ts[y + 7..y + 9] == h
      && ts[y + 10..y + 12] == mi && ts[y + 13..y + 15] == se
  {
    var y := |yt|;
    var ts := yt + "-" + mo + "-" + d + " " + h + ":" + mi + ":" + se;
    var tail := "-" + mo + "-" + d + " " + h + ":" + mi + ":" + se;
    assert ts == yt + tail;
    assert tail == ['-', mo[0], mo[1], '-', d[0], d[1], ' ', h[0], h[1], ':', mi[0], mi[1], ':', se[0], se[1]];
  }

  /**
   * The timestamp can be read back: the year comes first, the separators sit
   * at fixed offsets after it, and each two-character field is the padded
   * text of the value it was built from (the month one-based), which
   * `TwoDigits` guarantees reads back as that value.
   */
  lemma TimestampFields(year: int, monthIndex: nat, day: nat, hours: nat, minutes: nat, seconds: nat)
    requires monthIndex < 12 && 1 <= day <= 31 && hours < 24 && minutes < 60 && seconds < 60
    ensures var ts := Timestamp(year, monthIndex, day, hours, minutes, seconds);
      var y := |IntText(year)|;
      && |ts| == y + 15 && ts[..y] == IntText(year)
      && ts[y] == '-' && ts[y + 3] == '-' && ts[y + 6] == ' ' && ts[y + 9] == ':' && ts[y + 12] == ':'
      && ts[y + 1..y + 3] == TwoDigits(monthIndex + 1)
      && ts[y + 4..y + 6] == TwoDigits(day)
      && ts[y + 7..y + 9] == TwoDigits(hours)
      && ts[y + 10..y + 12] == TwoDigits(minutes)
      && ts[y + 13..y + 15] == TwoDigits(seconds)
  {
    var yt := IntText(year);
    var mo, d, h, mi, se := TwoDigits(monthIndex + 1), TwoDigits(day), TwoDigits(hours), TwoDigits(minutes), TwoDigits(seconds);
    var ts := Timestamp(year, monthIndex, day, hours, minutes, seconds);
    assert ts == yt + "-" + mo + "-" + d + " " + h + ":" + mi + ":" + se;
    TemplateLayout(yt, mo, d, h, mi, se);
  }

  /** Whether a message at `level` is written, given the environment's `LOG_LEVEL` (if set). */
  function Emits(level: string, envLogLevel: Option<string>): (b: bool)
  {
    level == Info || envLogLevel == Some(level)
  }

  /** The line `log(message, level)` writes, if any. */
  function LogMessage(timestamp: string, message: string, level: string, envLogLevel: Option<string>): (r: Option<LogLine>)
    ensures r.Some? <==> Emits(level, envLogLevel)
    ensures level == Info ==> r == Some(LogLine(Console, timestamp + " - " + message))
    ensures r.Some? && level != Info ==> r == Some(LogLine(ConsoleDebug, timestamp + " - \U{1FAB2} " + message))
  {
    if level == Info then Some(LogLine(Console, timestamp + " - " + message))
    else if Some(level) == envLogLevel then Some(LogLine(ConsoleDebug, timestamp + " - \U{1FAB2} " + message))
    else None
  }

  /** With `LOG_LEVEL` at its default, debug messages are never written. */
  lemma DefaultLevelHidesDebug()
    ensures !Emits(Debug, Some(Info))
    ensures forall level :: Emits(level, Some(Info)) <==> level == Info
  {
  }
}
