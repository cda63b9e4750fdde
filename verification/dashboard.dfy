/**
 * The Android dashboard's slot dialog (DashboardFragment.kt): the duration,
 * the flat-fee bill and its rate label for a running stay, the status colour,
 * and the command the enable/disable button sends.
 */
module Dashboard {
  import opened Wrappers
  import opened Strings
  import opened ParkingModels
  import BillingConfig
  import BluetoothLink
  import SlotAdapter
  import SlotDetails

  /** The duration shown when no stay is running. */
  const DURATION_ZERO := "00h : 00m : 00s"
  const FLAT := "flat"
  const OVERTIME_RATE := "overtime"

  /** formatDuration: "%02dh : %02dm : %02ds" of the hours, the minutes within the hour and 0 seconds. */
  function FormatDuration(minutes: int): string {
    Pad2(TruncDiv(minutes, 60)) + "h : " + Pad2(TruncMod(minutes, 60)) + "m : " + Pad2(0) + "s"
  }

  /**
   * For whole, non-negative minutes the Android dialog shows the same text as
   * the web client's details sheet.
   */
  lemma FormatDurationAgreesWithSheet(minutes: nat)
    ensures FormatDuration(minutes) == SlotDetails.FormatDuration(minutes as real)
  {
    SlotDetails.PartsOfMinutes(minutes);
    assert TruncDiv(minutes, 60) == minutes / 60;
    assert TruncMod(minutes, 60) == minutes % 60;
  }

  /** The idle duration is the text of a zero-minute stay. */
  lemma DurationZeroIsZeroMinutes()
    ensures FormatDuration(0) == DURATION_ZERO
  {
    assert TruncDiv(0, 60) == 0 && TruncMod(0, 60) == 0;
    assert Pad2(0) == "00";
    assert "00" + "h : " + "00" + "m : " + "00" + "s" == DURATION_ZERO;
  }

  /** What updateDialogTime shows: the duration, the bill and its rate label. */
  datatype DialogTime = DialogTime(duration: string, amount: real, rate: string)

  /** The dialog shows a bill only for a running stay that has a start. */
  predicate Billed(slot: ParkingSlot) {
    slot.slotStatus.Some? && slot.slotStatus.value.occupiedSince.Some? && IsParked(slot.slotStatus.value.status)
  }

  /**
   * updateDialogTime: for a running stay with a start, the elapsed minutes,
   * the flat-fee bill for them and "overtime" exactly when that bill is the
   * overtime fee; otherwise zeros and "flat".
   */
  function UpdateDialogTime(slot: ParkingSlot, nowMs: int, parse: string -> Option<int>): (d: DialogTime)
    ensures !Billed(slot) ==> d == DialogTime(DURATION_ZERO, 0.0, FLAT)
    ensures Billed(slot) ==>
      var m := SlotAdapter.ElapsedMinutes(slot.slotStatus.value.occupiedSince.value, nowMs, parse);
      && d.duration == FormatDuration(m)
      && d.amount == BillingConfig.CalculateBilling(m).amount
      && (d.rate == OVERTIME_RATE <==> m > BillingConfig.OVERTIME_THRESHOLD_MINUTES)
      && (d.rate == OVERTIME_RATE || d.rate == FLAT)
  {
    if Billed(slot) then
      var m := SlotAdapter.ElapsedMinutes(slot.slotStatus.value.occupiedSince.value, nowMs, parse);
      var billing := BillingConfig.CalculateBilling(m);
      DialogTime(FormatDuration(m), billing.amount, if billing.isOvertime then OVERTIME_RATE else FLAT)
    else
      DialogTime(DURATION_ZERO, 0.0, FLAT)
  }

  /** The rate label says "overtime" exactly when the amount shown is the overtime fee. */
  lemma RateLabelMatchesAmount(slot: ParkingSlot, nowMs: int, parse: string -> Option<int>)
    ensures var d := UpdateDialogTime(slot, nowMs, parse);
      d.rate == OVERTIME_RATE <==> d.amount == BillingConfig.OVERTIME_RATE
  {
  }

  /**
   * The dialog's status colour (a slot without a status row reads as vacant):
   * the colour the web client's details sheet uses for the same status.
   */
  function StatusColor(slot: ParkingSlot): (color: string)
    ensures color == SlotDetails.StatusColor(StatusOrVacant(slot))
    ensures slot.slotStatus.None? ==> color == "#444444"
  {
    var status := StatusOrVacant(slot);
    if status == OCCUPIED then "#42bc2b"
    else if status == OVERTIME then "#ba2d2d"
    else if status == VACANT then "#444444"
    else "#444444"
  }

  /**
   * The enable/disable button: nothing is sent without a connection; otherwise
   * ENABLE for a disabled slot and DISABLE for any other.
   */
  function ToggleCommand(slot: ParkingSlot, isConnected: bool): (sent: Option<string>)
    ensures !isConnected <==> sent.None?
    ensures isConnected && slot.isDisabled ==> sent == Some(BluetoothLink.EnableCommand(slot.name))
    ensures isConnected && !slot.isDisabled ==> sent == Some(BluetoothLink.DisableCommand(slot.name))
  {
    if !isConnected then None
    else if slot.isDisabled then Some(BluetoothLink.EnableCommand(slot.name))
    else Some(BluetoothLink.DisableCommand(slot.name))
  }

  /**
   * What the button sends reaches the Arduino's line framer as exactly one line
   * whose verb is the opposite of the slot's current state.
   */
  lemma ToggleSendsOneLine(slot: ParkingSlot)
    requires BluetoothLink.NoNewline(slot.name)
    ensures var verb := if slot.isDisabled then "ENABLE" else "DISABLE";
      BluetoothLink.SplitLines(ToggleCommand(slot, true).value) == ([verb + ":" + slot.name], [])
  {
    var verb := if slot.isDisabled then "ENABLE" else "DISABLE";
    assert BluetoothLink.NoNewline(verb + ":" + slot.name);
    BluetoothLink.CommandFramesAsOneLine(verb + ":" + slot.name);
  }
}
