/**
 * The Android client's repository (ParkingRepository.kt): today's statistics,
 * the manual slot-table operations, and the status update the Bluetooth link
 * drives, with the parking session it writes when a slot is vacated.
 *
 * The two remote tables (parking_slots joined with slot_status) are held as one
 * sequence of joined rows in the order the listing query returns them, by name
 * ascending; the parking_sessions table is the sequence of written sessions.
 * Random identifiers and the clock are parameters.
 */
module Repository {
  import opened Wrappers
  import opened Strings
  import opened ParkingModels

  const DEFAULT_ALLOWED_MINUTES := 60
  /** Twenty sessions a day count as full use. */
  const DAILY_CAPACITY := 20
  const BASE_FEE: real := 20.0
  const OVERTIME_FEE_PER_MINUTE: real := 0.5

  /** The three characters the source holds between slot name and status in the traffic message. */
  const ARROW := "\U{E2}\U{2020}\U{2019}"

  // ---------------------------------------------------------------- today's statistics

  datatype TodayStats = TodayStats(totalSessions: int, totalRevenue: real, usageRate: int)

  /** The sessions whose ended_at text starts with the given date, in order. */
  function EndedOn(sessions: seq<ParkingSession>, today: string): (r: seq<ParkingSession>)
    ensures |r| <= |sessions|
    ensures forall s :: s in r ==> s in sessions && today <= s.endedAt
    ensures forall s :: s in sessions && today <= s.endedAt ==> s in r
  {
    if sessions == [] then []
    else
      var last := sessions[|sessions| - 1];
      EndedOn(sessions[..|sessions| - 1], today) + (if today <= last.endedAt then [last] else [])
  }

  function SumCharged(sessions: seq<ParkingSession>): real {
    if sessions == [] then 0.0 else sessions[0].amountCharged + SumCharged(sessions[1..])
  }

  /**
   * calculateTodayStats: the count and revenue of today's sessions, and a usage
   * rate of five percent per session that stops at 100.
   */
  function CalculateTodayStats(sessions: seq<ParkingSession>, today: string): (t: TodayStats)
    ensures t.totalSessions == |EndedOn(sessions, today)| <= |sessions|
    ensures t.totalRevenue == SumCharged(EndedOn(sessions, today))
    ensures 0 <= t.usageRate <= 100
    ensures t.usageRate == 100 <==> t.totalSessions >= DAILY_CAPACITY
    ensures t.totalSessions < DAILY_CAPACITY ==> t.usageRate == 5 * t.totalSessions
  {
    var today_ := EndedOn(sessions, today);
    var n := |today_|;
    var rate := TruncDiv(n * 100, DAILY_CAPACITY);
    TodayStats(n, SumCharged(today_), if rate < 100 then rate else 100)
  }

  lemma EndedOnAppend(sessions: seq<ParkingSession>, s: ParkingSession, today: string)
    ensures EndedOn(sessions + [s], today) == EndedOn(sessions, today) + (if today <= s.endedAt then [s] else [])
  {
    assert (sessions + [s])[..|sessions|] == sessions;
  }

  /** One more finished session never lowers the usage rate, and one ending today raises the count. */
  lemma UsageRateMonotone(sessions: seq<ParkingSession>, s: ParkingSession, today: string)
    ensures CalculateTodayStats(sessions, today).usageRate <= CalculateTodayStats(sessions + [s], today).usageRate
    ensures today <= s.endedAt ==>
      CalculateTodayStats(sessions + [s], today).totalSessions == CalculateTodayStats(sessions, today).totalSessions + 1
  {
    EndedOnAppend(sessions, s, today);
  }

  // ---------------------------------------------------------------- session billing

  datatype SessionBill = SessionBill(amount: real, wasOvertime: bool)

  /** Whole minutes from start to end, truncated toward zero as Kotlin's Long division does, with no clamp. */
  function DurationMinutes(startMs: int, endMs: int): (m: int)
    ensures startMs <= endMs ==> m * 60000 <= endMs - startMs < (m + 1) * 60000
    ensures endMs < startMs ==> m <= 0 && (m - 1) * 60000 < endMs - startMs
  {
    TruncDiv(endMs - startMs, 60000)
  }

  /** The session fee: 20.00 within the allowed time, plus 0.50 for every minute beyond it. */
  function SessionCharge(durationMinutes: int, allowedMinutes: int): (b: SessionBill)
    ensures b.wasOvertime <==> durationMinutes > allowedMinutes
    ensures !b.wasOvertime ==> b.amount == BASE_FEE
    ensures b.wasOvertime ==> b.amount >= BASE_FEE + OVERTIME_FEE_PER_MINUTE
  {
    if durationMinutes > allowedMinutes then
      SessionBill(BASE_FEE + (durationMinutes - allowedMinutes) as real * OVERTIME_FEE_PER_MINUTE, true)
    else SessionBill(BASE_FEE, false)
  }

  function Excess(durationMinutes: int, allowedMinutes: int): nat {
    if durationMinutes > allowedMinutes then durationMinutes - allowedMinutes else 0
  }

  /** The fee is the base plus half a unit per minute of excess, so it is continuous and never below the base. */
  lemma SessionChargeByExcess(durationMinutes: int, allowedMinutes: int)
    ensures SessionCharge(durationMinutes, allowedMinutes).amount
         == BASE_FEE + Excess(durationMinutes, allowedMinutes) as real * OVERTIME_FEE_PER_MINUTE
  {
  }

  /** A longer stay never costs less. */
  lemma SessionChargeMonotone(d1: int, d2: int, allowedMinutes: int)
    requires d1 <= d2
    ensures SessionCharge(d1, allowedMinutes).amount <= SessionCharge(d2, allowedMinutes).amount
  {
    SessionChargeByExcess(d1, allowedMinutes);
    SessionChargeByExcess(d2, allowedMinutes);
    assert Excess(d1, allowedMinutes) <= Excess(d2, allowedMinutes);
  }

  /** The allowed time exactly is 20.00; one minute more is overtime at 20.50. */
  lemma SessionChargeBoundary(allowedMinutes: int)
    ensures SessionCharge(allowedMinutes, allowedMinutes) == SessionBill(20.0, false)
    ensures SessionCharge(allowedMinutes + 1, allowedMinutes) == SessionBill(20.5, true)
  {
  }

  /**
   * createParkingSessionRecord: the start time parsed from occupied_since with any
   * offset or 'Z' cut off; no session when it does not parse. The session runs
   * from that start to now and is billed by SessionCharge against the slot's
   * allowed minutes.
   */
  function SessionRecord(slot: ParkingSlot, occupiedSince: string, nowMs: int, sessionId: string,
                         fmt: int -> string, parse: string -> Option<int>): (r: Option<ParkingSession>)
    ensures var start := parse(LocalTimestamp(occupiedSince));
      && (r.None? <==> start.None?)
      && (r.Some? ==>
        var d := DurationMinutes(start.value, nowMs);
        && r.value.id == sessionId && r.value.slotId == Some(slot.id) && r.value.slotName == slot.name
        && r.value.startedAt == fmt(start.value) && r.value.endedAt == fmt(nowMs) && r.value.createdAt == fmt(nowMs)
        && r.value.durationMinutes == d
        && SessionBill(r.value.amountCharged, r.value.wasOvertime) == SessionCharge(d, slot.allowedMinutes))
  {
    match parse(LocalTimestamp(occupiedSince))
    case None => None
    case Some(start) =>
      var d := DurationMinutes(start, nowMs);
      var bill := SessionCharge(d, slot.allowedMinutes);
      Some(ParkingSession(sessionId, Some(slot.id), slot.name, fmt(start), fmt(nowMs), d,
                          bill.amount, bill.wasOvertime, fmt(nowMs)))
  }

  /**
   * The formatter the Android repository parses the start time with has the
   * pattern yyyy-MM-dd'T'HH:mm:ss.SSS'Z', whose last element is a literal 'Z':
   * it accepts only text that holds a 'Z'.
   */
  ghost predicate NeedsLiteralZ(parse: string -> Option<int>) {
    forall t :: parse(t).Some? ==> 'Z' in t
  }

  /**
   * As written, the start time is cut before '+' and 'Z' and then handed to
   * that formatter, so it never parses and no session is ever recorded.
   */
  lemma NoSessionAsWritten(slot: ParkingSlot, occupiedSince: string, nowMs: int, sessionId: string,
                           fmt: int -> string, parse: string -> Option<int>)
    requires NeedsLiteralZ(parse)
    ensures SessionRecord(slot, occupiedSince, nowMs, sessionId, fmt, parse).None?
  {
    var local := LocalTimestamp(occupiedSince);
    assert 'Z' !in local;
    assert parse(local).None?;
  }

  // ---------------------------------------------------------------- the status update

  /** A status row has a start time exactly while the slot is occupied or overtime. */
  predicate SinceMatches(row: SlotStatus) {
    row.occupiedSince.Some? <==> IsParked(row.status)
  }

  /**
   * The update body: the status written verbatim with the new update time;
   * "occupied" restarts the start time (even on an already occupied slot),
   * "vacant" clears it, anything else leaves it as it was.
   */
  function UpdateBody(row: SlotStatus, status: string, nowText: string): (r: SlotStatus)
    ensures r.id == row.id && r.slotId == row.slotId && r.status == status && r.updatedAt == nowText
    ensures status == OCCUPIED ==> r.occupiedSince == Some(nowText)
    ensures status == VACANT ==> r.occupiedSince == None
    ensures status != OCCUPIED && status != VACANT ==> r.occupiedSince == row.occupiedSince
  {
    if status == OCCUPIED then row.(status := status, occupiedSince := Some(nowText), updatedAt := nowText)
    else if status == VACANT then row.(status := status, occupiedSince := None, updatedAt := nowText)
    else row.(status := status, updatedAt := nowText)
  }

  /**
   * "occupied" and "vacant" always leave a consistent row; "overtime" does so only
   * on a row that already had a start time; any other word keeps a consistent row
   * only when it had none.
   */
  lemma UpdateBodySince(row: SlotStatus, status: string, nowText: string)
    requires SinceMatches(row)
    ensures status == OCCUPIED || status == VACANT ==> SinceMatches(UpdateBody(row, status, nowText))
    ensures status == OVERTIME ==> (SinceMatches(UpdateBody(row, status, nowText)) <==> IsParked(row.status))
    ensures !IsParked(status) && status != VACANT ==>
      (SinceMatches(UpdateBody(row, status, nowText)) <==> !IsParked(row.status))
  {
  }

  /** The update applied to a joined row; a slot without a status row is matched by no row and stays as it is. */
  function UpdateRow(slot: ParkingSlot, status: string, nowText: string): (r: ParkingSlot)
    ensures r.id == slot.id && r.name == slot.name && r.allowedMinutes == slot.allowedMinutes
    ensures r.isDisabled == slot.isDisabled && r.isPlaceholder == slot.isPlaceholder
    ensures r.slotStatus.None? <==> slot.slotStatus.None?
    ensures slot.slotStatus.Some? ==> r.slotStatus.value == UpdateBody(slot.slotStatus.value, status, nowText)
  {
    match slot.slotStatus
    case None => slot
    case Some(row) => slot.(slotStatus := Some(UpdateBody(row, status, nowText)))
  }

  /** A session is due when a slot with a running, timed stay is set to exactly "vacant". */
  predicate SessionDue(slot: ParkingSlot, status: string) {
    && status == VACANT
    && slot.slotStatus.Some?
    && IsParked(slot.slotStatus.value.status)
    && slot.slotStatus.value.occupiedSince.Some?
  }

  /** The first slot whose name equals the given one, ignoring case. */
  function FindByName(rows: seq<ParkingSlot>, name: string): (r: Option<nat>)
    ensures r.None? <==> forall i :: 0 <= i < |rows| ==> !EqualsIgnoreCase(rows[i].name, name)
    ensures r.Some? ==> r.value < |rows| && EqualsIgnoreCase(rows[r.value].name, name)
    ensures r.Some? ==> forall i :: 0 <= i < r.value ==> !EqualsIgnoreCase(rows[i].name, name)
  {
    if rows == [] then None
    else if EqualsIgnoreCase(rows[0].name, name) then Some(0)
    else match FindByName(rows[1..], name)
      case None => None
      case Some(k) => Some(k + 1)
  }

  // ---------------------------------------------------------------- the listing order

  /** Rows in the listing order: names ascending. */
  predicate SortedByName(rows: seq<ParkingSlot>) {
    forall i, j :: 0 <= i < j < |rows| ==> LexLessEq(rows[i].name, rows[j].name)
  }

  /** A new row placed after every row whose name does not sort after its own. */
  function InsertByName(rows: seq<ParkingSlot>, x: ParkingSlot): (r: seq<ParkingSlot>)
    ensures multiset(r) == multiset(rows) + multiset{x}
    ensures |r| == |rows| + 1
  {
    if rows == [] then [x]
    else if LexLess(x.name, rows[0].name) then [x] + rows
    else
      assert rows == [rows[0]] + rows[1..];
      [rows[0]] + InsertByName(rows[1..], x)
  }

  lemma LexLessEqTransitive(a: string, b: string, c: string)
    requires LexLessEq(a, b) && LexLessEq(b, c)
    ensures LexLessEq(a, c)
  {
    if a != b && b != c {
      LexLessTransitive(a, b, c);
    }
  }

  lemma {:induction false} InsertByNameSorted(rows: seq<ParkingSlot>, x: ParkingSlot)
    requires SortedByName(rows)
    ensures SortedByName(InsertByName(rows, x))
    decreases |rows|
  {
    if rows != [] {
      if LexLess(x.name, rows[0].name) {
        forall j | 0 <= j < |rows|
          ensures LexLessEq(x.name, rows[j].name)
        {
          if j > 0 {
            LexLessEqTransitive(x.name, rows[0].name, rows[j].name);
          }
        }
        SortedCons(x, rows);
      } else {
        LexLessTotal(x.name, rows[0].name);
        var tail := InsertByName(rows[1..], x);
        InsertByNameSorted(rows[1..], x);
        assert forall i :: 0 <= i < |rows[1..]| ==> LexLessEq(rows[0].name, rows[1..][i].name);
        InsertKeepsLowerBound(rows[1..], x, rows[0].name);
        SortedCons(rows[0], tail);
      }
    }
  }

  /** A row whose name sorts no later than any name of a sorted list can go in front of it. */
  lemma SortedCons(head: ParkingSlot, rows: seq<ParkingSlot>)
    requires SortedByName(rows)
    requires forall j :: 0 <= j < |rows| ==> LexLessEq(head.name, rows[j].name)
    ensures SortedByName([head] + rows)
  {
    var r := [head] + rows;
    forall i, j | 0 <= i < j < |r|
      ensures LexLessEq(r[i].name, r[j].name)
    {
      assert r[j] == rows[j - 1];
      if i > 0 {
        assert r[i] == rows[i - 1];
      }
    }
  }

  /** A name no row and not the new row sorts before stays a lower bound after the insertion. */
  lemma InsertKeepsLowerBound(rows: seq<ParkingSlot>, x: ParkingSlot, low: string)
    requires forall i :: 0 <= i < |rows| ==> LexLessEq(low, rows[i].name)
    requires LexLessEq(low, x.name)
    ensures forall j :: 0 <= j < |InsertByName(rows, x)| ==> LexLessEq(low, InsertByName(rows, x)[j].name)
  {
    var r := InsertByName(rows, x);
    forall j | 0 <= j < |r|
      ensures LexLessEq(low, r[j].name)
    {
      assert r[j] in multiset(r);
      if r[j] != x {
        assert r[j] in multiset(rows);
        var k :| 0 <= k < |rows| && rows[k] == r[j];
      }
    }
  }

  /** A row whose name sorts last is appended at the end. */
  lemma {:induction false} InsertByNameAtEnd(rows: seq<ParkingSlot>, x: ParkingSlot)
    requires forall i :: 0 <= i < |rows| ==> LexLessEq(rows[i].name, x.name)
    ensures InsertByName(rows, x) == rows + [x]
    decreases |rows|
  {
    if rows != [] {
      if LexLess(x.name, rows[0].name) {
        if rows[0].name == x.name {
          LexLessIrreflexive(x.name);
        } else {
          LexLessTransitive(x.name, rows[0].name, x.name);
          LexLessIrreflexive(x.name);
        }
        assert false;
      }
      InsertByNameAtEnd(rows[1..], x);
      assert rows == [rows[0]] + rows[1..];
    }
  }

  // ---------------------------------------------------------------- manual operations on rows

  /** The slot addVirtualSlot writes for a table of k slots: "P{k+1}", 60 minutes, a placeholder, the given status. */
  function VirtualSlot(k: nat, status: string, slotId: string, statusId: string, nowText: string): (s: ParkingSlot)
    ensures s.name == "P" + IntToString(k + 1) && s.id == slotId
    ensures s.allowedMinutes == DEFAULT_ALLOWED_MINUTES && !s.isDisabled && s.isPlaceholder
    ensures s.slotStatus == Some(SlotStatus(statusId, slotId, status, None, nowText))
  {
    ParkingSlot(slotId, "P" + IntToString(k + 1), DEFAULT_ALLOWED_MINUTES, false, true,
                Some(SlotStatus(statusId, slotId, status, None, nowText)))
  }

  /** vacateAllSlots on one row: an occupied or overtime status becomes vacant with no start time. */
  function VacateRow(slot: ParkingSlot, nowText: string): (r: ParkingSlot)
    ensures r.name == slot.name && r.id == slot.id
    ensures r.slotStatus.None? <==> slot.slotStatus.None?
    ensures r.slotStatus.Some? ==> !IsParked(r.slotStatus.value.status)
    ensures r.slotStatus.Some? && IsParked(slot.slotStatus.value.status) ==>
      r.slotStatus.value.status == VACANT && r.slotStatus.value.occupiedSince.None?
    ensures slot.slotStatus.Some? && !IsParked(slot.slotStatus.value.status) ==> r == slot
  {
    match slot.slotStatus
    case Some(row) =>
      if IsParked(row.status) then slot.(slotStatus := Some(row.(status := VACANT, occupiedSince := None, updatedAt := nowText)))
      else slot
    case None => slot
  }

  /** simulateTraffic's toggle: a vacant or missing status turns occupied from now, anything else turns vacant. */
  function ToggledStatus(slot: ParkingSlot): (status: string)
    ensures StatusOrVacant(slot) == VACANT ==> status == OCCUPIED
    ensures StatusOrVacant(slot) != VACANT ==> status == VACANT
  {
    if StatusOrVacant(slot) == VACANT then OCCUPIED else VACANT
  }

  /** The toggle applied to the slot's status row, which it leaves consistent; without a row nothing changes. */
  function ToggleRow(slot: ParkingSlot, nowText: string): (r: ParkingSlot)
    ensures r.name == slot.name && r.id == slot.id
    ensures slot.slotStatus.None? ==> r == slot
    ensures slot.slotStatus.Some? ==>
      r.slotStatus.Some? && r.slotStatus.value.status == ToggledStatus(slot) && SinceMatches(r.slotStatus.value)
      && r.slotStatus.value.status != slot.slotStatus.value.status
    ensures r.slotStatus.Some? && r.slotStatus.value.status == OCCUPIED ==> r.slotStatus.value.occupiedSince == Some(nowText)
  {
    match slot.slotStatus
    case None => slot
    case Some(row) =>
      var status := ToggledStatus(slot);
      slot.(slotStatus := Some(row.(status := status,
                                    occupiedSince := if status == OCCUPIED then Some(nowText) else None,
                                    updatedAt := nowText)))
  }

  /** Two toggles bring a slot with a status row back to its vacant-or-not side. */
  lemma ToggleTwice(slot: ParkingSlot, t1: string, t2: string)
    requires slot.slotStatus.Some?
    ensures StatusOrVacant(ToggleRow(ToggleRow(slot, t1), t2)) == VACANT <==> StatusOrVacant(slot) == VACANT
  {
  }

  /** The slot resetParkingSlots writes as P{i}: 60 minutes, not a placeholder, vacant. */
  function DefaultSlot(i: nat, slotId: string, statusId: string, nowText: string): (s: ParkingSlot)
    requires 1 <= i <= 5
    ensures s.name == "P" + [DigitChar(i)] && s.id == slotId
    ensures s.allowedMinutes == DEFAULT_ALLOWED_MINUTES && !s.isDisabled && !s.isPlaceholder
    ensures s.slotStatus == Some(SlotStatus(statusId, slotId, VACANT, None, nowText))
  {
    ParkingSlot(slotId, "P" + [DigitChar(i)], DEFAULT_ALLOWED_MINUTES, false, false,
                Some(SlotStatus(statusId, slotId, VACANT, None, nowText)))
  }

  /** The first n of P1..P5. */
  function DefaultSlots(n: nat, slotIds: seq<string>, statusIds: seq<string>, nowText: string): (r: seq<ParkingSlot>)
    requires n <= 5 && |slotIds| == 5 && |statusIds| == 5
    ensures |r| == n
    ensures forall i :: 0 <= i < n ==> r[i] == DefaultSlot(i + 1, slotIds[i], statusIds[i], nowText)
  {
    if n == 0 then [] else DefaultSlots(n - 1, slotIds, statusIds, nowText) + [DefaultSlot(n, slotIds[n - 1], statusIds[n - 1], nowText)]
  }

  lemma DigitNamesOrdered(i: nat, j: nat)
    requires 1 <= i < j <= 5
    ensures LexLess("P" + [DigitChar(i)], "P" + [DigitChar(j)])
  {
    var a, b := "P" + [DigitChar(i)], "P" + [DigitChar(j)];
    assert a[1..] == [DigitChar(i)] && b[1..] == [DigitChar(j)];
  }

  /** P1..P5 are listed in that order. */
  lemma DefaultSlotsSorted(n: nat, slotIds: seq<string>, statusIds: seq<string>, nowText: string)
    requires n <= 5 && |slotIds| == 5 && |statusIds| == 5
    ensures SortedByName(DefaultSlots(n, slotIds, statusIds, nowText))
  {
    var r := DefaultSlots(n, slotIds, statusIds, nowText);
    forall i, j | 0 <= i < j < |r|
      ensures LexLessEq(r[i].name, r[j].name)
    {
      DigitNamesOrdered(i + 1, j + 1);
    }
  }

  /** Inserting P{n} after P1..P{n-1} appends it. */
  lemma DefaultSlotsGrow(n: nat, slotIds: seq<string>, statusIds: seq<string>, nowText: string)
    requires 1 <= n <= 5 && |slotIds| == 5 && |statusIds| == 5
    ensures InsertByName(DefaultSlots(n - 1, slotIds, statusIds, nowText), DefaultSlot(n, slotIds[n - 1], statusIds[n - 1], nowText))
         == DefaultSlots(n, slotIds, statusIds, nowText)
  {
    var rows := DefaultSlots(n - 1, slotIds, statusIds, nowText);
    var slot := DefaultSlot(n, slotIds[n - 1], statusIds[n - 1], nowText);
    forall k | 0 <= k < |rows|
      ensures LexLessEq(rows[k].name, slot.name)
    {
      DigitNamesOrdered(k + 1, n);
    }
    InsertByNameAtEnd(rows, slot);
  }

  /** The rows without the one with the given id. */
  function RemoveId(rows: seq<ParkingSlot>, id: string): (r: seq<ParkingSlot>)
    ensures forall s :: s in r <==> s in rows && s.id != id
    ensures multiset(r) <= multiset(rows)
  {
    if rows == [] then []
    else
      assert rows == [rows[0]] + rows[1..];
      (if rows[0].id == id then [] else [rows[0]]) + RemoveId(rows[1..], id)
  }

  /** Deleting the next listed id leaves only rows from the ones still to be deleted. */
  lemma RemovalStep(rows: seq<ParkingSlot>, existing: seq<ParkingSlot>, i: nat)
    requires i < |existing| && multiset(rows) <= multiset(existing[i..])
    ensures multiset(RemoveId(rows, existing[i].id)) <= multiset(existing[i + 1..])
  {
    assert existing[i..] == [existing[i]] + existing[i + 1..];
    var r := RemoveId(rows, existing[i].id);
    assert existing[i] !in r;
  }

  // ---------------------------------------------------------------- the repository

  class ParkingRepository {
    /** parking_slots joined with slot_status, in listing order. */
    var rows: seq<ParkingSlot>
    /** parking_sessions, in the order they were written. */
    var sessions: seq<ParkingSession>

    predicate Valid()
      reads this
    {
      SortedByName(rows)
    }

    constructor ()
      ensures Valid() && rows == [] && sessions == []
    {
      rows, sessions := [], [];
    }

    /**
     * addVirtualSlot: a placeholder slot "P{k+1}" for k listed slots, with a status
     * row holding the requested status and no start time; the answer is the created
     * slot row, which carries no status.
     */
    method AddVirtualSlot(status: string, slotId: string, statusId: string, nowText: string)
      returns (r: Result<ParkingSlot>)
      requires Valid()
      modifies this
      ensures Valid()
      ensures var slot := VirtualSlot(|old(rows)|, status, slotId, statusId, nowText);
        rows == InsertByName(old(rows), slot) && slot in rows && r == Success(slot.(slotStatus := None))
      ensures |rows| == |old(rows)| + 1 && sessions == old(sessions)
    {
      var slot := VirtualSlot(|rows|, status, slotId, statusId, nowText);
      InsertByNameSorted(rows, slot);
      rows := InsertByName(rows, slot);
      assert slot in multiset(rows);
      r := Success(slot.(slotStatus := None));
    }

    /** removeLastSlot: fails on an empty table; otherwise deletes the slot listed last, status row first. */
    method RemoveLastSlot() returns (r: Result<()>)
      requires Valid()
      modifies this
      ensures Valid() && sessions == old(sessions)
      ensures old(rows) == [] ==> r == Failure("No slots to remove") && rows == old(rows)
      ensures old(rows) != [] ==> r == Success(()) && rows == old(rows)[..|old(rows)| - 1]
      ensures old(rows) != [] ==> forall i :: 0 <= i < |rows| ==> LexLessEq(rows[i].name, old(rows)[|old(rows)| - 1].name)
    {
      if rows == [] {
        return Failure("No slots to remove");
      }
      rows := rows[..|rows| - 1];
      r := Success(());
    }

    /** vacateAllSlots: every occupied or overtime status becomes vacant with no start time; others are untouched. */
    method VacateAllSlots(nowText: string) returns (r: Result<()>)
      requires Valid()
      modifies this
      ensures Valid() && sessions == old(sessions) && r == Success(())
      ensures |rows| == |old(rows)| && forall i :: 0 <= i < |rows| ==> rows[i] == VacateRow(old(rows)[i], nowText)
      ensures forall i :: 0 <= i < |rows| && rows[i].slotStatus.Some? ==> !IsParked(rows[i].slotStatus.value.status)
    {
      rows := seq(|rows|, i requires 0 <= i < |rows| reads this => VacateRow(rows[i], nowText));
      r := Success(());
    }

    /**
     * simulateTraffic with the randomly chosen slot given as an index: fails on an
     * empty table; otherwise toggles the chosen slot's status and reports it.
     */
    method SimulateTraffic(pick: nat, nowText: string) returns (r: Result<string>)
      requires Valid()
      requires rows == [] || pick < |rows|
      modifies this
      ensures Valid() && sessions == old(sessions)
      ensures old(rows) == [] ==> r == Failure("No slots available") && rows == old(rows)
      ensures old(rows) != [] ==>
        var slot := old(rows)[pick];
        && rows == old(rows)[pick := ToggleRow(slot, nowText)]
        && r == Success(slot.name + " " + ARROW + " " + ToggledStatus(slot))
    {
      if rows == [] {
        return Failure("No slots available");
      }
      var slot := rows[pick];
      var newStatus := ToggledStatus(slot);
      rows := rows[pick := ToggleRow(slot, nowText)];
      r := Success(slot.name + " " + ARROW + " " + newStatus);
    }

    /** resetParkingSlots: deletes every listed slot, then writes P1..P5, all vacant. */
    method ResetParkingSlots(slotIds: seq<string>, statusIds: seq<string>, nowText: string) returns (r: Result<()>)
      requires Valid()
      requires |slotIds| == 5 && |statusIds| == 5
      modifies this
      ensures Valid() && sessions == old(sessions) && r == Success(())
      ensures rows == DefaultSlots(5, slotIds, statusIds, nowText)
      ensures forall i :: 0 <= i < |rows| ==> rows[i].slotStatus.Some? && rows[i].slotStatus.value.status == VACANT
    {
      var existing := rows;
      for i := 0 to |existing|
        invariant multiset(rows) <= multiset(existing[i..])
        invariant sessions == old(sessions)
      {
        RemovalStep(rows, existing, i);
        rows := RemoveId(rows, existing[i].id);
      }
      assert |multiset(rows)| == 0;
      for i := 1 to 6
        invariant rows == DefaultSlots(i - 1, slotIds, statusIds, nowText)
        invariant sessions == old(sessions)
      {
        DefaultSlotsGrow(i, slotIds, statusIds, nowText);
        rows := InsertByName(rows, DefaultSlot(i, slotIds[i - 1], statusIds[i - 1], nowText));
      }
      DefaultSlotsSorted(5, slotIds, statusIds, nowText);
      r := Success(());
    }

    /**
     * updateSlotStatusByName: fails, changing nothing, when no slot has the name
     * (ignoring case); otherwise writes a session first when one is due and its
     * start time parses, then applies the update body to the first matching slot.
     */
    method UpdateSlotStatusByName(slotName: string, status: string, nowMs: int, sessionId: string,
                                  fmt: int -> string, parse: string -> Option<int>)
      returns (r: Result<()>)
      requires Valid()
      modifies this
      ensures Valid()
      ensures FindByName(old(rows), slotName).None? ==>
        r == Failure("Slot " + slotName + " not found") && rows == old(rows) && sessions == old(sessions)
      ensures FindByName(old(rows), slotName).Some? ==>
        var i := FindByName(old(rows), slotName).value;
        var slot := old(rows)[i];
        && r == Success(())
        && rows == old(rows)[i := UpdateRow(slot, status, fmt(nowMs))]
        && (!SessionDue(slot, status) ==> sessions == old(sessions))
        && (SessionDue(slot, status) ==>
              var rec := SessionRecord(slot, slot.slotStatus.value.occupiedSince.value, nowMs, sessionId, fmt, parse);
              sessions == old(sessions) + (if rec.Some? then [rec.value] else []))
    {
      var found := FindByName(rows, slotName);
      if found.None? {
        return Failure("Slot " + slotName + " not found");
      }
      var i := found.value;
      var slot := rows[i];
      if SessionDue(slot, status) {
        var rec := SessionRecord(slot, slot.slotStatus.value.occupiedSince.value, nowMs, sessionId, fmt, parse);
        if rec.Some? {
          sessions := sessions + [rec.value];
        }
      }
      rows := rows[i := UpdateRow(slot, status, fmt(nowMs))];
      r := Success(());
    }
  }
}
