/**
 * MessageUtil (utils/MessageUtil.java), the two duration formatters:
 * formatTime renders a number of seconds with at most two units, and
 * formatTimestamp renders how long ago an epoch-millisecond timestamp was,
 * in Portuguese. The clock reading is the parameter `now`.
 */
module MessageUtil {
  import opened Common

  // ---------------------------------------------------------------------------
  // formatTime
  // ---------------------------------------------------------------------------

  /** formatTime(seconds), branch for branch. */
  function FormatTime(seconds: int): string {
    if seconds < 60 then IntToString(seconds) + "s"
    else
      var minutes := seconds / 60;
      var remainingSeconds := seconds % 60;
      if minutes < 60 then
        if remainingSeconds > 0 then NatToString(minutes) + "m " + NatToString(remainingSeconds) + "s"
        else NatToString(minutes) + "m"
      else
        var hours := minutes / 60;
        var remainingMinutes := minutes % 60;
        if hours < 24 then
          if remainingMinutes > 0 then NatToString(hours) + "h " + NatToString(remainingMinutes) + "m"
          else NatToString(hours) + "h"
        else
          var days := hours / 24;
          var remainingHours := hours % 24;
          if remainingHours > 0 then NatToString(days) + "d " + NatToString(remainingHours) + "h"
          else NatToString(days) + "d"
  }

  /** A time unit and its length in seconds. */
  datatype Unit = Second | Minute | Hour | Day

  function Length(u: Unit): (n: nat)
    ensures n >= 1
  {
    match u
    case Second => 1
    case Minute => 60
    case Hour => 3600
    case Day => 86400
  }

  function Symbol(u: Unit): char {
    match u
    case Second => 's'
    case Minute => 'm'
    case Hour => 'h'
    case Day => 'd'
  }

  /** The next smaller unit. */
  function Smaller(u: Unit): Unit {
    match u
    case Second => Second
    case Minute => Second
    case Hour => Minute
    case Day => Hour
  }

  /** What a formatted duration of at least a minute shows: a count of a major
      unit and a count of the next smaller unit, the latter omitted when 0. */
  datatype Reading = Reading(major: Unit, majorCount: nat, minorCount: nat)

  function Show(r: Reading): string {
    NatToString(r.majorCount) + [Symbol(r.major)] +
    (if r.minorCount > 0 then " " + NatToString(r.minorCount) + [Symbol(Smaller(r.major))] else "")
  }

  /** The largest unit, among minutes, hours and days, that fits into
      `seconds`; formatTime and formatTimestamp both choose it. */
  function MajorUnit(seconds: nat): (u: Unit)
    requires seconds >= 60
    ensures u != Second && Length(u) <= seconds
  {
    if seconds < 3600 then Minute else if seconds < 86400 then Hour else Day
  }

  /** The reading of `seconds`: whole major units, then whole smaller units of what is left. */
  function ReadingOf(seconds: nat): (r: Reading)
    requires seconds >= 60
    ensures r.majorCount >= 1
  {
    var u := MajorUnit(seconds);
    Reading(u, seconds / Length(u), (seconds % Length(u)) / Length(Smaller(u)))
  }

  /** The value a reading stands for, in seconds. */
  function Value(r: Reading): nat {
    r.majorCount * Length(r.major) + r.minorCount * Length(Smaller(r.major))
  }

  /** Below a minute formatTime prints the number of seconds; from a minute on
      it prints the reading of the duration. */
  lemma {:induction false} FormatTimeIsReading(seconds: int)
    ensures seconds < 60 ==> FormatTime(seconds) == IntToString(seconds) + "s"
    ensures seconds >= 60 ==> FormatTime(seconds) == Show(ReadingOf(seconds))
  {
    if seconds >= 60 {
      var minutes := seconds / 60;
      var hours := minutes / 60;
      assert hours == seconds / 3600;
      assert minutes % 60 == (seconds % 3600) / 60;
      assert hours / 24 == seconds / 86400;
      assert hours % 24 == (seconds % 86400) / 3600;
    }
  }

  /** A reading is the duration rounded down to its smaller unit: it never
      overstates, it is short by less than one smaller unit, and the smaller
      count stays below one major unit (under 60 minutes, under 24 hours). */
  lemma ReadingRoundsDown(seconds: nat)
    requires seconds >= 60
    ensures Value(ReadingOf(seconds)) <= seconds < Value(ReadingOf(seconds)) + Length(Smaller(ReadingOf(seconds).major))
    ensures ReadingOf(seconds).minorCount * Length(Smaller(ReadingOf(seconds).major)) < Length(ReadingOf(seconds).major)
    ensures ReadingOf(seconds).major == Minute ==> ReadingOf(seconds).majorCount < 60 && ReadingOf(seconds).minorCount < 60
    ensures ReadingOf(seconds).major == Hour ==> ReadingOf(seconds).majorCount < 24 && ReadingOf(seconds).minorCount < 60
    ensures ReadingOf(seconds).major == Day ==> ReadingOf(seconds).minorCount < 24
  {
  }

  /** The documented example "3665 seconds -> 1h 1m 5s" is not what the code
      does: in the hour range the seconds are dropped. */
  lemma FormatTimeExample()
    ensures FormatTime(3665) == "1h 1m"
    ensures FormatTime(3665) != "1h 1m 5s"
  {
    assert NatToString(1) == "1";
  }

  // ---------------------------------------------------------------------------
  // formatTimestamp
  // ---------------------------------------------------------------------------

  /** "<count> <word>[s] atrás", the plural s exactly when count > 1. */
  function Ago(count: nat, word: string): string {
    NatToString(count) + " " + word + (if count > 1 then "s" else "") + " atrás"
  }

  /** formatTimestamp(timestamp) read at time `now` (both epoch milliseconds). */
  function FormatTimestamp(timestamp: int, now: int): string {
    var seconds := JavaDiv(now - timestamp, 1000);
    if seconds < 60 then "agora mesmo"
    else if seconds < 3600 then Ago(seconds / 60, "minuto")
    else if seconds < 86400 then Ago(seconds / 3600, "hora")
    else Ago(seconds / 86400, "dia")
  }

  function Word(u: Unit): string {
    match u
    case Second => "segundo"
    case Minute => "minuto"
    case Hour => "hora"
    case Day => "dia"
  }

  /** Less than a minute ago, or in the future, reads "agora mesmo". From a
      minute on, the text counts the whole units elapsed of the largest unit
      that fits, at least one of them. */
  lemma FormatTimestampMeaning(timestamp: int, now: int)
    ensures FormatTimestamp(timestamp, now) == "agora mesmo" <==> now - timestamp < 60000
    ensures now - timestamp >= 60000 ==>
      var seconds := (now - timestamp) / 1000;
      var u := MajorUnit(seconds);
      exists count: nat :: 1 <= count && count * Length(u) <= seconds < (count + 1) * Length(u) &&
                           FormatTimestamp(timestamp, now) == Ago(count, Word(u))
  {
    var seconds := JavaDiv(now - timestamp, 1000);
    if now - timestamp >= 60000 {
      assert seconds >= 60;
      var u := MajorUnit(seconds);
      var count := seconds / Length(u);
      assert FormatTimestamp(timestamp, now) == Ago(count, Word(u));
      AgoIsNotNow(count, Word(u));
    } else {
      assert seconds < 60;
    }
  }

  /** A count of units never reads "agora mesmo": the one ends in 's', the other in 'o'. */
  lemma AgoIsNotNow(count: nat, word: string)
    ensures Ago(count, word) != "agora mesmo"
  {
    var a := Ago(count, word);
    assert a[|a| - 1] == 's';
  }
}
