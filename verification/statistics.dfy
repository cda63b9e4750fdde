/**
 * The Android statistics screen (StatisticsFragment.kt): the uptime clock, the
 * date label, the recent-sessions list and the log entries added at the top.
 * The uptime ticker overwrites the whole log with one UPTIME line every second,
 * so an entry lasts only until the next tick; that overwrite is not modelled.
 */
module Statistics {
  import opened Strings
  import opened ParkingModels

  // ---------------------------------------------------------------- uptime

  datatype Clock = Clock(hours: int, mins: int, secs: int)

  /**
   * The uptime ticker's fields: whole hours, minutes within the hour and
   * seconds within the minute of the elapsed milliseconds (Long division).
   */
  function Uptime(elapsedMs: int): (c: Clock)
    ensures elapsedMs >= 0 ==> c.hours >= 0 && 0 <= c.mins < 60 && 0 <= c.secs < 60
    ensures elapsedMs >= 0 ==>
      c.hours * 3600000 + c.mins * 60000 + c.secs * 1000 == elapsedMs - elapsedMs % 1000
  {
    var c := Clock(TruncDiv(elapsedMs, 3600000),
                   TruncDiv(TruncMod(elapsedMs, 3600000), 60000),
                   TruncDiv(TruncMod(elapsedMs, 60000), 1000));
    if elapsedMs >= 0 then (UptimeFields(elapsedMs); c) else c
  }

  /** For a non-negative count the fields are Euclidean quotients, and they add back up. */
  lemma UptimeFields(e: nat)
    ensures var h, r1 := e / 3600000, e % 3600000;
      var m, r2 := r1 / 60000, r1 % 60000;
      && e % 60000 == r2
      && h * 3600000 + m * 60000 + r2 / 1000 * 1000 == e - e % 1000
      && 0 <= m < 60 && 0 <= r2 / 1000 < 60
  {
    var h, r1 := e / 3600000, e % 3600000;
    var m, r2 := r1 / 60000, r1 % 60000;
    assert e == 60000 * (60 * h + m) + r2;
    MinutesRemainder(e, 60 * h + m, r2);
    var s, r3 := r2 / 1000, r2 % 1000;
    assert e == 1000 * (3600 * h + 60 * m + s) + r3;
    SecondsRemainder(e, 3600 * h + 60 * m + s, r3);
  }

  /** The remainder modulo 1000 of 1000 * q + r, for r within [0, 1000), is r. */
  lemma SecondsRemainder(a: int, q: int, r: int)
    requires a == 1000 * q + r && 0 <= r < 1000
    ensures a % 1000 == r
  {
    var k := a / 1000;
    assert 1000 * (q - k) == a % 1000 - r;
  }

  /** The remainder modulo 60000 of 60000 * q + r, for r within [0, 60000), is r. */
  lemma MinutesRemainder(a: int, q: int, r: int)
    requires a == 60000 * q + r && 0 <= r < 60000
    ensures a % 60000 == r
  {
    var k := a / 60000;
    assert 60000 * (q - k) == a % 60000 - r;
  }

  /** "%02d:%02d:%02d" of the uptime fields. */
  function UptimeText(elapsedMs: int): string {
    var c := Uptime(elapsedMs);
    Pad2(c.hours) + ":" + Pad2(c.mins) + ":" + Pad2(c.secs)
  }

  /** The clock moves only with whole seconds: milliseconds within a second are not shown. */
  lemma UptimeIgnoresMillis(seconds: nat, millis: int)
    requires 0 <= millis < 1000
    ensures Uptime(1000 * seconds + millis) == Uptime(1000 * seconds)
  {
    var e := 1000 * seconds;
    SecondsRemainder(e + millis, seconds, millis);
    SecondsRemainder(e, seconds, 0);
    ClockUnique(Uptime(e + millis), Uptime(e));
  }

  /** Two in-range clocks that stand for the same milliseconds are the same clock. */
  lemma ClockUnique(c1: Clock, c2: Clock)
    requires 0 <= c1.mins < 60 && 0 <= c1.secs < 60 && 0 <= c2.mins < 60 && 0 <= c2.secs < 60
    requires c1.hours * 3600000 + c1.mins * 60000 + c1.secs * 1000
          == c2.hours * 3600000 + c2.mins * 60000 + c2.secs * 1000
    ensures c1 == c2
  {
    var low1, low2 := c1.mins * 60000 + c1.secs * 1000, c2.mins * 60000 + c2.secs * 1000;
    assert 0 <= low1 < 3600000 && 0 <= low2 < 3600000;
    assert c1.hours == c2.hours;
    assert c1.mins == c2.mins;
  }

  // ---------------------------------------------------------------- date label

  const MONTHS: seq<string> := ["JAN", "FEB", "MAR", "APR", "MAY", "JUN", "JUL", "AUG", "SEP", "OCT", "NOV", "DEC"]

  /**
   * updateDate: "MON:DD:YYYY" from the calendar's month (0 to 11), day of the
   * month and year.
   */
  function DateLabel(month: int, day: int, year: int): (r: string)
    requires 0 <= month < 12
    ensures MONTHS[month] + ":" <= r
  {
    MONTHS[month] + ":" + Pad2(day) + ":" + IntToString(year)
  }

  /** The label splits back on ':' into the month word, the two-digit day and the year. */
  lemma DateLabelFields(month: int, day: int, year: nat)
    requires 0 <= month < 12 && 1 <= day <= 31
    ensures Split(DateLabel(month, day, year), ':') == [MONTHS[month], Pad2(day), NatToString(year)]
    ensures |Pad2(day)| == 2 && DigitsValue(Pad2(day)) == day
  {
    var d := Pad2(day);
    assert AllDigits(d) && |d| == 2 && DigitsValue(d) == day by {
      if day < 10 {
        assert d == ['0', DigitChar(day)];
      } else {
        assert d == NatToString(day) == NatToString(day / 10) + [DigitChar(day % 10)];
      }
    }
    assert ':' !in MONTHS[month] by { MonthWords(month); }
    ThreeFields(MONTHS[month], d, NatToString(year));
  }

  lemma MonthWords(month: int)
    requires 0 <= month < 12
    ensures |MONTHS[month]| == 3 && ':' !in MONTHS[month]
  {
  }

  /** Digits never hold the separator. */
  lemma DigitsHaveNoColon(s: string)
    requires AllDigits(s)
    ensures ':' !in s
  {
    forall i | 0 <= i < |s|
      ensures s[i] != ':'
    {
      assert IsDigit(s[i]);
    }
  }

  lemma ThreeFields(word: string, d: string, y: string)
    requires ':' !in word && AllDigits(d) && AllDigits(y)
    ensures Split(word + ":" + d + ":" + y, ':') == [word, d, y]
  {
    DigitsHaveNoColon(d);
    DigitsHaveNoColon(y);
    assert word + ":" + d + ":" + y == word + [':'] + (d + [':'] + y);
    SplitFirst(word, ':', d + [':'] + y);
    SplitFirst(d, ':', y);
    SplitNone(y, ':');
  }

  // ---------------------------------------------------------------- recent list and log

  /** What updateUI shows under the stats: the first four sessions, or the empty state. */
  datatype RecentView = EmptyState | Sessions(shown: seq<ParkingSession>)

  function RecentSessions(sessions: seq<ParkingSession>): (v: RecentView)
    ensures v.EmptyState? <==> sessions == []
    ensures v.Sessions? ==> 1 <= |v.shown| <= 4 && v.shown <= sessions
    ensures v.Sessions? && |sessions| >= 4 ==> |v.shown| == 4
    ensures v.Sessions? && |sessions| < 4 ==> v.shown == sessions
  {
    var recent := Take(sessions, 4);
    if recent == [] then EmptyState else Sessions(recent)
  }

  /** One log entry: "<time> ● [<type>] <message>" and a newline. */
  function LogEntry(time: string, kind: string, message: string): string {
    time + " \U{25CF} [" + kind + "] " + message + "\n"
  }

  /** addLog: the new entry goes before everything logged so far. */
  function AddLog(logs: string, time: string, kind: string, message: string): (r: string)
    ensures r == LogEntry(time, kind, message) + logs
    ensures logs <= r[|r| - |logs|..]
  {
    LogEntry(time, kind, message) + logs
  }

  /** The newest entry reads back as the first line of the log. */
  lemma NewestFirst(logs: string, time: string, kind: string, message: string)
    requires '\n' !in time && '\n' !in kind && '\n' !in message
    ensures Split(AddLog(logs, time, kind, message), '\n')[0]
         == time + " \U{25CF} [" + kind + "] " + message
  {
    var line := time + " \U{25CF} [" + kind + "] " + message;
    assert '\n' !in line;
    assert AddLog(logs, time, kind, message) == line + ['\n'] + logs;
    SplitFirst(line, '\n', logs);
  }
}
