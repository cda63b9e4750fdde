/**
 * The Android client's records (ParkingSlot.kt, ParkingSession.kt): a slot joined
 * with its optional status row, and a finished parking session. Timestamps are
 * kept as the text the database stores.
 */
module ParkingModels {
  import opened Wrappers
  import opened Strings

  const VACANT := "vacant"
  const OCCUPIED := "occupied"
  const OVERTIME := "overtime"
  const DISABLED := "disabled"

  /** A row of slot_status; status is free text ("vacant", "occupied", "overtime", "disabled", ...). */
  datatype SlotStatus = SlotStatus(
    id: string,
    slotId: string,
    status: string,
    occupiedSince: Option<string>,
    updatedAt: string)

  /** A row of parking_slots with its embedded status row, if it has one. */
  datatype ParkingSlot = ParkingSlot(
    id: string,
    name: string,
    allowedMinutes: int,
    isDisabled: bool,
    isPlaceholder: bool,
    slotStatus: Option<SlotStatus>)

  /** A row of parking_sessions. */
  datatype ParkingSession = ParkingSession(
    id: string,
    slotId: Option<string>,
    slotName: string,
    startedAt: string,
    endedAt: string,
    durationMinutes: int,
    amountCharged: real,
    wasOvertime: bool,
    createdAt: string)

  /** `slot.slotStatus?.status ?: "vacant"`: a slot without a status row reads as vacant. */
  function StatusOrVacant(slot: ParkingSlot): (status: string)
    ensures slot.slotStatus.None? ==> status == VACANT
    ensures slot.slotStatus.Some? ==> status == slot.slotStatus.value.status
  {
    if slot.slotStatus.Some? then slot.slotStatus.value.status else VACANT
  }

  /** Occupied or overtime: the two statuses during which a stay is running. */
  predicate IsParked(status: string) {
    status == OCCUPIED || status == OVERTIME
  }

  /**
   * substringBefore('+').substringBefore('Z'): a stored timestamp without its
   * zone suffix, the text the Android screens hand to the date parser.
   */
  function LocalTimestamp(stored: string): (local: string)
    ensures local <= stored && '+' !in local && 'Z' !in local
    ensures '+' !in stored && 'Z' !in stored ==> local == stored
  {
    SubstringBefore(SubstringBefore(stored, '+'), 'Z')
  }
}
