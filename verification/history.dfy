/**
 * The web client's session history (use-parking-history.ts): per-day totals
 * over a list of sessions, newest day first, today's totals, and the
 * all-zero fallback when there is nothing for today.
 */
module History {
  import opened Wrappers
  import opened Strings

  datatype HistorySession = HistorySession(
    id: string,
    slotName: string,
    startedAt: string,
    endedAt: string,
    durationMinutes: int,
    amountCharged: real,
    wasOvertime: bool)

  datatype DailyStats = DailyStats(
    date: string,
    totalSessions: int,
    totalRevenue: real,
    totalDurationMinutes: int,
    overtimeSessions: int)

  /** The day a session is filed under: ended_at up to the first 'T'. */
  function DateOf(s: HistorySession): string {
    Split(s.endedAt, 'T')[0]
  }

  lemma DateOfShape(s: HistorySession)
    ensures DateOf(s) == SubstringBefore(s.endedAt, 'T')
    ensures DateOf(s) <= s.endedAt && 'T' !in DateOf(s)
  {
  }

  function Zero(date: string): DailyStats {
    DailyStats(date, 0, 0.0, 0, 0)
  }

  /** One more session counted into a day's record. */
  function Count(d: DailyStats, s: HistorySession): DailyStats {
    d.(totalSessions := d.totalSessions + 1,
       totalRevenue := d.totalRevenue + s.amountCharged,
       totalDurationMinutes := d.totalDurationMinutes + s.durationMinutes,
       overtimeSessions := d.overtimeSessions + if s.wasOvertime then 1 else 0)
  }

  /** Every session counted into a record for the given date, in order. */
  function Tally(date: string, ss: seq<HistorySession>): (d: DailyStats)
    ensures d.date == date && d.totalSessions == |ss|
    ensures 0 <= d.overtimeSessions <= d.totalSessions
  {
    if ss == [] then Zero(date) else Count(Tally(date, ss[..|ss| - 1]), ss[|ss| - 1])
  }

  /** The sessions filed under a date, in order. */
  function OnDate(ss: seq<HistorySession>, date: string): (r: seq<HistorySession>)
    ensures |r| <= |ss|
    ensures forall s :: s in r <==> s in ss && DateOf(s) == date
    ensures (forall s :: s in ss ==> DateOf(s) != date) ==> r == []
  {
    if ss == [] then []
    else OnDate(ss[..|ss| - 1], date) + (if DateOf(ss[|ss| - 1]) == date then [ss[|ss| - 1]] else [])
  }

  /** What the per-day record of a date should hold: the tally of that date's sessions. */
  function Summarize(date: string, ss: seq<HistorySession>): DailyStats {
    Tally(date, OnDate(ss, date))
  }

  // ---------------------------------------------------------------- the day list

  /** Newest day first, each day once (ISO dates of one length order as text does). */
  predicate NewerFirst(stats: seq<DailyStats>) {
    forall i, j :: 0 <= i < j < |stats| ==> LexLess(stats[j].date, stats[i].date)
  }

  function Dates(stats: seq<DailyStats>): set<string> {
    set r | r in stats :: r.date
  }

  function SumTotals(stats: seq<DailyStats>): int {
    if stats == [] then 0 else stats[0].totalSessions + SumTotals(stats[1..])
  }

  /** The record kept so far for a date, or a fresh zero record (statsMap.get(date) || {...}). */
  function Existing(stats: seq<DailyStats>, date: string): (d: DailyStats)
    ensures date in Dates(stats) ==> d in stats && d.date == date
    ensures date !in Dates(stats) ==> d == Zero(date)
  {
    if stats == [] then Zero(date)
    else if stats[0].date == date then stats[0]
    else
      var d := Existing(stats[1..], date);
      assert Dates(stats) == {stats[0].date} + Dates(stats[1..]) by {
        assert stats == [stats[0]] + stats[1..];
      }
      d
  }

  /**
   * statsMap.set(date, existing + session), with the map held as its final sorted
   * order: the day's record is replaced, or a new one is placed by date.
   */
  function Record(stats: seq<DailyStats>, s: HistorySession): seq<DailyStats> {
    var date := DateOf(s);
    if stats == [] then [Count(Zero(date), s)]
    else if stats[0].date == date then [Count(stats[0], s)] + stats[1..]
    else if LexLess(stats[0].date, date) then [Count(Zero(date), s)] + stats
    else [stats[0]] + Record(stats[1..], s)
  }

  /** The days of a session list, each session recorded in turn. */
  function Aggregate(ss: seq<HistorySession>): seq<DailyStats> {
    if ss == [] then [] else Record(Aggregate(ss[..|ss| - 1]), ss[|ss| - 1])
  }

  lemma DatesCons(stats: seq<DailyStats>)
    requires stats != []
    ensures Dates(stats) == {stats[0].date} + Dates(stats[1..])
  {
    assert stats == [stats[0]] + stats[1..];
  }

  /** Recording adds the session's date to the days and one session to the total. */
  lemma RecordDatesAndTotal(stats: seq<DailyStats>, s: HistorySession)
    ensures Dates(Record(stats, s)) == Dates(stats) + {DateOf(s)}
    ensures SumTotals(Record(stats, s)) == SumTotals(stats) + 1
  {
    RecordDates(stats, s);
    RecordTotal(stats, s);
  }

  lemma {:induction false} RecordDates(stats: seq<DailyStats>, s: HistorySession)
    ensures Dates(Record(stats, s)) == Dates(stats) + {DateOf(s)}
    decreases |stats|
  {
    var date := DateOf(s);
    var r := Record(stats, s);
    if stats == [] {
      assert r == [Count(Zero(date), s)];
    } else {
      DatesCons(stats);
      DatesCons(r);
      if stats[0].date == date {
        assert r[1..] == stats[1..];
      } else if LexLess(stats[0].date, date) {
        assert r[1..] == stats;
      } else {
        RecordDates(stats[1..], s);
        assert r[1..] == Record(stats[1..], s);
      }
    }
  }

  lemma {:induction false} RecordTotal(stats: seq<DailyStats>, s: HistorySession)
    ensures SumTotals(Record(stats, s)) == SumTotals(stats) + 1
    decreases |stats|
  {
    var date := DateOf(s);
    var r := Record(stats, s);
    if stats != [] {
      if stats[0].date == date {
        assert r[1..] == stats[1..];
      } else if LexLess(stats[0].date, date) {
        assert r[1..] == stats;
      } else {
        RecordTotal(stats[1..], s);
        assert r[1..] == Record(stats[1..], s);
      }
    }
  }

  /** Recording keeps newest-first order. */
  lemma {:induction false} RecordNewerFirst(stats: seq<DailyStats>, s: HistorySession)
    requires NewerFirst(stats)
    ensures NewerFirst(Record(stats, s))
    decreases |stats|
  {
    var date := DateOf(s);
    if stats != [] {
      if stats[0].date == date {
        assert forall j :: 0 <= j < |stats[1..]| ==> LexLess(stats[1..][j].date, date);
        NewerFirstCons(Count(stats[0], s), stats[1..]);
      } else if LexLess(stats[0].date, date) {
        forall j | 0 <= j < |stats|
          ensures LexLess(stats[j].date, date)
        {
          if j > 0 {
            LexLessTransitive(stats[j].date, stats[0].date, date);
          }
        }
        NewerFirstCons(Count(Zero(date), s), stats);
      } else {
        LexLessTotal(stats[0].date, date);
        RecordNewerFirst(stats[1..], s);
        assert forall j :: 0 <= j < |stats[1..]| ==> LexLess(stats[1..][j].date, stats[0].date);
        RecordKeepsUpperBound(stats[1..], s, stats[0].date);
        NewerFirstCons(stats[0], Record(stats[1..], s));
      }
    }
  }

  /** A day newer than every day of a newest-first list can go in front of it. */
  lemma NewerFirstCons(head: DailyStats, rest: seq<DailyStats>)
    requires NewerFirst(rest)
    requires forall j :: 0 <= j < |rest| ==> LexLess(rest[j].date, head.date)
    ensures NewerFirst([head] + rest)
  {
    var r := [head] + rest;
    forall i, j | 0 <= i < j < |r|
      ensures LexLess(r[j].date, r[i].date)
    {
      assert r[j] == rest[j - 1];
      if i > 0 {
        assert r[i] == rest[i - 1];
      }
    }
  }

  /** A date newer than every kept day and than the session's day stays newer after recording. */
  lemma {:induction false} RecordKeepsUpperBound(stats: seq<DailyStats>, s: HistorySession, top: string)
    requires forall j :: 0 <= j < |stats| ==> LexLess(stats[j].date, top)
    requires LexLess(DateOf(s), top)
    ensures forall j :: 0 <= j < |Record(stats, s)| ==> LexLess(Record(stats, s)[j].date, top)
    decreases |stats|
  {
    var date := DateOf(s);
    var r := Record(stats, s);
    if stats != [] && stats[0].date != date && !LexLess(stats[0].date, date) {
      var rest := Record(stats[1..], s);
      assert forall j :: 0 <= j < |stats[1..]| ==> LexLess(stats[1..][j].date, top);
      RecordKeepsUpperBound(stats[1..], s, top);
      assert r == [stats[0]] + rest;
      forall j | 0 < j < |r|
        ensures LexLess(r[j].date, top)
      {
        assert r[j] == rest[j - 1];
      }
    } else if stats != [] {
      forall j | 0 < j < |r|
        ensures LexLess(r[j].date, top)
      {
        if stats[0].date == date {
          assert r[j] == stats[j];
        } else {
          assert r[j] == stats[j - 1];
        }
      }
    }
  }

  /** Recording changes only the session's day, to the kept record plus the session. */
  lemma {:induction false} RecordContents(stats: seq<DailyStats>, s: HistorySession)
    requires NewerFirst(stats)
    ensures forall r :: r in Record(stats, s) && r.date != DateOf(s) ==> r in stats
    ensures forall r :: r in Record(stats, s) && r.date == DateOf(s) ==> r == Count(Existing(stats, DateOf(s)), s)
    decreases |stats|
  {
    var date := DateOf(s);
    if stats != [] {
      if stats[0].date == date {
        forall j | 1 <= j < |stats|
          ensures stats[j].date != date
        {
          LexLessIrreflexive(date);
        }
      } else if LexLess(stats[0].date, date) {
        assert date !in Dates(stats) by {
          forall j | 0 <= j < |stats|
            ensures stats[j].date != date
          {
            if j > 0 {
              LexLessTransitive(stats[j].date, stats[0].date, date);
            }
            LexLessIrreflexive(date);
          }
        }
      } else {
        RecordContents(stats[1..], s);
        assert Existing(stats, date) == Existing(stats[1..], date);
      }
    }
  }

  // ---------------------------------------------------------------- what the day list holds

  /**
   * The day list of a session list: newest first, exactly the dates of the
   * sessions, each record the tally of that day's sessions, and one count per session.
   */
  predicate Represents(stats: seq<DailyStats>, ss: seq<HistorySession>) {
    && NewerFirst(stats)
    && (forall r :: r in stats ==> r == Summarize(r.date, ss))
    && Dates(stats) == (set s | s in ss :: DateOf(s))
    && SumTotals(stats) == |ss|
  }

  lemma SummarizeStep(ss: seq<HistorySession>, s: HistorySession, date: string)
    ensures Summarize(date, ss + [s]) == if DateOf(s) == date then Count(Summarize(date, ss), s) else Summarize(date, ss)
  {
    var full := ss + [s];
    assert full[..|ss|] == ss && full[|full| - 1] == s;
    var on := OnDate(ss, date);
    assert OnDate(full, date) == on + (if DateOf(s) == date then [s] else []);
    if DateOf(s) == date {
      assert (on + [s])[..|on|] == on;
    } else {
      assert on + [] == on;
    }
  }

  lemma SummarizeAbsent(ss: seq<HistorySession>, date: string)
    requires forall s :: s in ss ==> DateOf(s) != date
    ensures Summarize(date, ss) == Zero(date)
  {
  }

  lemma RecordRepresents(stats: seq<DailyStats>, ss: seq<HistorySession>, s: HistorySession)
    requires Represents(stats, ss)
    ensures Represents(Record(stats, s), ss + [s])
  {
    RecordNewerFirst(stats, s);
    RecordDatesAndTotal(stats, s);
    RecordContents(stats, s);
    forall r | r in Record(stats, s)
      ensures r == Summarize(r.date, ss + [s])
    {
      RecordedDay(stats, ss, s, r);
    }
    SessionDatesAppend(ss, s);
  }

  /** A record of the new day list is the tally of its date over the sessions so far. */
  lemma RecordedDay(stats: seq<DailyStats>, ss: seq<HistorySession>, s: HistorySession, r: DailyStats)
    requires Represents(stats, ss)
    requires r.date != DateOf(s) ==> r in stats
    requires r.date == DateOf(s) ==> r == Count(Existing(stats, DateOf(s)), s)
    ensures r == Summarize(r.date, ss + [s])
  {
    var date := DateOf(s);
    SummarizeStep(ss, s, r.date);
    if r.date == date {
      if date in Dates(stats) {
        assert Existing(stats, date) == Summarize(date, ss);
      } else {
        SummarizeAbsent(ss, date);
      }
    }
  }

  lemma SessionDatesAppend(ss: seq<HistorySession>, s: HistorySession)
    ensures (set x | x in ss + [s] :: DateOf(x)) == (set x | x in ss :: DateOf(x)) + {DateOf(s)}
  {
  }

  /** calculateDailyStats, stated on the whole list: its day list represents the sessions. */
  lemma {:induction false} AggregateRepresents(ss: seq<HistorySession>)
    ensures Represents(Aggregate(ss), ss)
    decreases |ss|
  {
    if ss != [] {
      var init := ss[..|ss| - 1];
      AggregateRepresents(init);
      assert ss == init + [ss[|ss| - 1]];
      RecordRepresents(Aggregate(init), init, ss[|ss| - 1]);
    }
  }

  /** Per day, overtime sessions never exceed sessions; no day is listed without a session. */
  lemma AggregateRecords(ss: seq<HistorySession>)
    ensures forall r :: r in Aggregate(ss) ==> 0 <= r.overtimeSessions <= r.totalSessions && r.totalSessions >= 1
  {
    AggregateRepresents(ss);
    forall r | r in Aggregate(ss)
      ensures r.totalSessions >= 1
    {
      assert r.date in Dates(Aggregate(ss));
      var s :| s in ss && DateOf(s) == r.date;
      assert s in OnDate(ss, r.date);
    }
  }

  /** calculateDailyStats: each session recorded into the day map in order, then newest day first. */
  method CalculateDailyStats(sessions: seq<HistorySession>) returns (stats: seq<DailyStats>)
    ensures stats == Aggregate(sessions)
    ensures Represents(stats, sessions)
  {
    stats := [];
    for i := 0 to |sessions|
      invariant stats == Aggregate(sessions[..i])
    {
      assert sessions[..i + 1][..i] == sessions[..i];
      stats := Record(stats, sessions[i]);
    }
    assert sessions[..|sessions|] == sessions;
    AggregateRepresents(sessions);
  }

  // ---------------------------------------------------------------- today

  /** The sessions whose end time parses into [dayStart, dayEnd); an unparsable time is never in range. */
  function InWindow(ss: seq<HistorySession>, dayStart: int, dayEnd: int, parse: string -> Option<int>): (r: seq<HistorySession>)
    ensures |r| <= |ss|
    ensures forall s :: s in r <==> s in ss && parse(s.endedAt).Some? && dayStart <= parse(s.endedAt).value < dayEnd
  {
    if ss == [] then []
    else
      var s := ss[|ss| - 1];
      InWindow(ss[..|ss| - 1], dayStart, dayEnd, parse)
      + (if parse(s.endedAt).Some? && dayStart <= parse(s.endedAt).value < dayEnd then [s] else [])
  }

  /**
   * calculateTodayStats: counters over the sessions that ended today, filed under
   * today's date; they hold the tally of those sessions.
   */
  method CalculateTodayStats(sessions: seq<HistorySession>, today: string, dayStart: int, dayEnd: int,
                             parse: string -> Option<int>)
    returns (stats: DailyStats)
    ensures stats == Tally(today, InWindow(sessions, dayStart, dayEnd, parse))
    ensures stats.date == today && 0 <= stats.overtimeSessions <= stats.totalSessions
    ensures stats.totalSessions <= |sessions|
  {
    var todays := InWindow(sessions, dayStart, dayEnd, parse);
    stats := CountAll(today, todays);
  }

  /** The forEach over today's sessions: the four counters of a record, filed under the date. */
  method CountAll(date: string, todays: seq<HistorySession>) returns (stats: DailyStats)
    ensures stats == Tally(date, todays)
  {
    var totalSessions, totalRevenue, totalDuration, overtime := 0, 0.0, 0, 0;
    for i := 0 to |todays|
      invariant Tally(date, todays[..i]) == DailyStats(date, totalSessions, totalRevenue, totalDuration, overtime)
    {
      TallyStep(date, todays, i);
      totalSessions := totalSessions + 1;
      totalRevenue := totalRevenue + todays[i].amountCharged;
      totalDuration := totalDuration + todays[i].durationMinutes;
      if todays[i].wasOvertime {
        overtime := overtime + 1;
      }
    }
    assert todays[..|todays|] == todays;
    stats := DailyStats(date, totalSessions, totalRevenue, totalDuration, overtime);
  }

  lemma TallyStep(date: string, ss: seq<HistorySession>, i: nat)
    requires i < |ss|
    ensures Tally(date, ss[..i + 1]) == Count(Tally(date, ss[..i]), ss[i])
  {
    assert ss[..i + 1][..i] == ss[..i];
  }

  /** stats[0] || zero record: the newest day of the fetched sessions, or zeros for today. */
  function TodayOrZero(stats: seq<DailyStats>, today: string): (d: DailyStats)
    ensures stats == [] ==> d == Zero(today)
    ensures stats != [] ==> d == stats[0]
  {
    if stats != [] then stats[0] else Zero(today)
  }

  /**
   * getTodayStats: from the cached sessions when asked to and there are some;
   * otherwise from the sessions fetched for today's range, falling back to zeros.
   */
  method GetTodayStats(useCache: bool, cached: seq<HistorySession>, fetched: seq<HistorySession>,
                       today: string, dayStart: int, dayEnd: int, parse: string -> Option<int>)
    returns (stats: DailyStats)
    ensures useCache && cached != [] ==> stats == Tally(today, InWindow(cached, dayStart, dayEnd, parse))
    ensures !(useCache && cached != []) ==> stats == TodayOrZero(Aggregate(fetched), today)
    ensures !(useCache && cached != []) && fetched == [] ==> stats == Zero(today)
    ensures 0 <= stats.overtimeSessions <= stats.totalSessions
  {
    if useCache && cached != [] {
      stats := CalculateTodayStats(cached, today, dayStart, dayEnd, parse);
      return;
    }
    var days := CalculateDailyStats(fetched);
    AggregateRecords(fetched);
    stats := TodayOrZero(days, today);
  }
}
