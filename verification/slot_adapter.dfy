/**
 * The Android slot list (SlotAdapter.kt): the list of slots it shows, and what
 * one row shows for a slot: its name, its status in capitals and colour, and a
 * timer of whole minutes for a running stay.
 */
module SlotAdapter {
  import opened Wrappers
  import opened Strings
  import opened ParkingModels
  import Repository
  import SlotCard
  import SlotDetails

  const GREEN := "#42bc2b"
  const RED := "#ba2d2d"
  const LIGHT_GREY := "#d1d1d1"
  const GREY := "#444444"
  /** The timer of a slot with no running stay. */
  const TIMER_ZERO := "00h:00m:00s"

  /**
   * calculateElapsedMinutes: the whole minutes, truncated toward zero, from the
   * parsed start to now; a timestamp the parser rejects gives 0.
   */
  function ElapsedMinutes(occupiedSince: string, nowMs: int, parse: string -> Option<int>): (m: int)
    ensures parse(LocalTimestamp(occupiedSince)).None? ==> m == 0
    ensures parse(LocalTimestamp(occupiedSince)).Some? ==>
      m == Repository.DurationMinutes(parse(LocalTimestamp(occupiedSince)).value, nowMs)
    ensures parse(LocalTimestamp(occupiedSince)).Some? && parse(LocalTimestamp(occupiedSince)).value <= nowMs ==>
      m * 60000 <= nowMs - parse(LocalTimestamp(occupiedSince)).value < (m + 1) * 60000
  {
    match parse(LocalTimestamp(occupiedSince))
    case None => 0
    case Some(start) => Repository.DurationMinutes(start, nowMs)
  }

  /** formatDuration: "%02dh:%02dm:00s" of the hours and the minutes within the hour. */
  function FormatDuration(minutes: int): string {
    Pad2(TruncDiv(minutes, 60)) + "h:" + Pad2(TruncMod(minutes, 60)) + "m:00s"
  }

  /**
   * For whole, non-negative minutes the Android row shows the same text as the
   * web client's slot tile.
   */
  lemma FormatDurationAgreesWithCard(minutes: nat)
    ensures FormatDuration(minutes) == SlotCard.FormatDuration(minutes as real)
  {
    var hours, mins := Pad2(minutes / 60), Pad2(minutes % 60);
    SlotDetails.PartsOfMinutes(minutes);
    assert SlotCard.FormatDuration(minutes as real) == hours + "h:" + mins + "m:" + Pad2(0) + "s";
    assert TruncDiv(minutes, 60) == minutes / 60;
    assert TruncMod(minutes, 60) == minutes % 60;
    assert FormatDuration(minutes) == hours + "h:" + mins + "m:00s";
    assert Pad2(0) == "00";
    TimerLayout(hours, mins);
  }

  lemma TimerLayout(hours: string, mins: string)
    ensures hours + "h:" + mins + "m:" + "00" + "s" == hours + "h:" + mins + "m:00s"
  {
    assert "m:" + "00" + "s" == "m:00s";
  }

  /** A slot without a running stay shows the text of a zero-minute stay. */
  lemma TimerZeroIsZeroMinutes()
    ensures FormatDuration(0) == TIMER_ZERO
  {
    assert TruncDiv(0, 60) == 0 && TruncMod(0, 60) == 0;
    assert Pad2(0) == "00";
    assert "00" + "h:" + "00" + "m:00s" == TIMER_ZERO;
  }

  /** The status colour: green, red and light grey for the three marked statuses, grey otherwise. */
  function StatusColor(status: string): (color: string)
    ensures status == OCCUPIED ==> color == GREEN
    ensures status == OVERTIME ==> color == RED
    ensures status == DISABLED ==> color == LIGHT_GREY
    ensures status != OCCUPIED && status != OVERTIME && status != DISABLED ==> color == GREY
  {
    if status == OCCUPIED then GREEN
    else if status == OVERTIME then RED
    else if status == DISABLED then LIGHT_GREY
    else GREY
  }

  /** The texts and colour of one row. */
  datatype SlotRow = SlotRow(name: string, statusText: string, statusColor: string, timerText: string)

  /**
   * bind: a slot without a status row reads as vacant; a running stay with a
   * start shows its elapsed minutes, a running stay without one leaves the
   * previous timer text in place, and every other slot shows the zero timer.
   */
  function Bind(slot: ParkingSlot, previousTimer: string, nowMs: int, parse: string -> Option<int>): (row: SlotRow)
    ensures row.name == slot.name
    ensures row.statusText == ToUpper(StatusOrVacant(slot))
    ensures row.statusColor == StatusColor(StatusOrVacant(slot))
    ensures !IsParked(StatusOrVacant(slot)) ==> row.timerText == TIMER_ZERO
    ensures IsParked(StatusOrVacant(slot)) && slot.slotStatus.value.occupiedSince.None? ==>
      row.timerText == previousTimer
    ensures IsParked(StatusOrVacant(slot)) && slot.slotStatus.value.occupiedSince.Some? ==>
      row.timerText == FormatDuration(ElapsedMinutes(slot.slotStatus.value.occupiedSince.value, nowMs, parse))
  {
    var status := StatusOrVacant(slot);
    var timer :=
      if status == OCCUPIED || status == OVERTIME then
        match slot.slotStatus.value.occupiedSince
        case Some(since) => FormatDuration(ElapsedMinutes(since, nowMs, parse))
        case None => previousTimer
      else TIMER_ZERO;
    SlotRow(slot.name, ToUpper(status), StatusColor(status), timer)
  }

  /** A slot the status table has no row for is shown as a vacant slot with the zero timer. */
  lemma MissingStatusShowsVacant(slot: ParkingSlot, previousTimer: string, nowMs: int, parse: string -> Option<int>)
    requires slot.slotStatus.None?
    ensures Bind(slot, previousTimer, nowMs, parse) == SlotRow(slot.name, "VACANT", GREY, "00h:00m:00s")
  {
    assert ToUpper(VACANT) == "VACANT";
  }

  class SlotListAdapter {
    var slots: seq<ParkingSlot>

    constructor(slots: seq<ParkingSlot>)
      ensures this.slots == slots
    {
      this.slots := slots;
    }

    /** getItemCount: one row per slot. */
    function ItemCount(): nat
      reads this
    {
      |slots|
    }

    /** updateSlots: the list shown is exactly the new list. */
    method UpdateSlots(newSlots: seq<ParkingSlot>)
      modifies this
      ensures slots == newSlots && ItemCount() == |newSlots|
    {
      slots := newSlots;
    }

    /** onBindViewHolder: the row at a position shows the slot at that position. */
    function RowAt(position: int, previousTimer: string, nowMs: int, parse: string -> Option<int>): (row: SlotRow)
      reads this
      requires 0 <= position < ItemCount()
      ensures row == Bind(slots[position], previousTimer, nowMs, parse)
      ensures row.name == slots[position].name
      ensures row.statusText == ToUpper(StatusOrVacant(slots[position]))
      ensures row.statusColor == StatusColor(StatusOrVacant(slots[position]))
    {
      Bind(slots[position], previousTimer, nowMs, parse)
    }
  }
}
