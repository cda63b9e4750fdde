/**
 * The web client's slot table operations (use-parking.ts). The remote tables
 * parking_slots, slot_status and device_commands become fields of a store; the
 * list the screens show is a snapshot the store refreshes after most operations.
 * Slot ids are handed out in creation order, so "by created_at" is "by id".
 */
module WebParking {
  import opened Wrappers
  import opened Strings

  const VACANT := "vacant"
  const OCCUPIED := "occupied"
  const DISABLED := "disabled"
  const DEFAULT_ALLOWED_MINUTES := 60
  /** How many of the oldest slots a reset keeps. */
  const KEEP_ON_RESET := 5
  /** How many sensor readings the details sheet keeps. */
  const MAX_READINGS := 10
  const DISABLE_SLOT := "DISABLE_SLOT"
  const ENABLE_SLOT := "ENABLE_SLOT"
  /** The error a single-row query reports when the table is empty. */
  const NO_ROW := "JSON object requested, multiple (or no) rows returned"

  /** A row of parking_slots; id doubles as the creation order. */
  datatype SlotRow = SlotRow(id: nat, name: string, allowedMinutes: int, isDisabled: bool, isPlaceholder: bool)

  /** A row of slot_status, keyed by its slot's id. */
  datatype StatusRow = StatusRow(status: string, occupiedSince: Option<int>)

  /** A slot as fetched, with its status row if it has one. */
  datatype SlotWithStatus = SlotWithStatus(slot: SlotRow, status: Option<StatusRow>)

  /** A row of device_commands: the command and its blink_indefinitely payload. */
  datatype DeviceCommand = DeviceCommand(slotId: nat, commandType: string, blinkIndefinitely: bool)

  // ---------------------------------------------------------------- specification functions

  /** Ids strictly increase along the table: rows are kept in creation order. */
  predicate IncreasingIds(slots: seq<SlotRow>) {
    forall i, j :: 0 <= i < j < |slots| ==> slots[i].id < slots[j].id
  }

  /** A start time is stored exactly for an occupied or overtime row. */
  predicate SinceConsistent(statuses: map<nat, StatusRow>) {
    forall k :: k in statuses ==>
      (statuses[k].occupiedSince.Some? <==> statuses[k].status in {OCCUPIED, "overtime"})
  }

  /** fetchSlots: every slot with its status row, if any. */
  function Joined(slots: seq<SlotRow>, statuses: map<nat, StatusRow>): (view: seq<SlotWithStatus>)
    ensures |view| == |slots|
    ensures forall i :: 0 <= i < |slots| ==> view[i].slot == slots[i]
    ensures forall i :: 0 <= i < |slots| ==>
      (view[i].status.Some? <==> slots[i].id in statuses) &&
      (slots[i].id in statuses ==> view[i].status == Some(statuses[slots[i].id]))
  {
    seq(|slots|, i requires 0 <= i < |slots| =>
      SlotWithStatus(slots[i], if slots[i].id in statuses then Some(statuses[slots[i].id]) else None))
  }

  /** `slot_status?.status || 'vacant'`: a missing row or an empty status reads as vacant. */
  function CurrentStatus(v: SlotWithStatus): (status: string)
    ensures status != ""
    ensures v.status.None? ==> status == VACANT
    ensures v.status.Some? && v.status.value.status != "" ==> status == v.status.value.status
  {
    if v.status.Some? && v.status.value.status != "" then v.status.value.status else VACANT
  }

  /** The status row a new or simulated slot gets: a start time exactly when occupied. */
  function InitialRow(status: string, now: int): (row: StatusRow)
    ensures row.status == status
    ensures row.occupiedSince.Some? <==> status == OCCUPIED
    ensures row.occupiedSince.Some? ==> row.occupiedSince.value == now
  {
    StatusRow(status, if status == OCCUPIED then Some(now) else None)
  }

  /** simulateTraffic's flip: vacant becomes occupied, anything else vacant. */
  function Flipped(current: string): (next: string)
    ensures next == OCCUPIED <==> current == VACANT
    ensures next == VACANT || next == OCCUPIED
  {
    if current == VACANT then OCCUPIED else VACANT
  }

  /** Flipping twice restores vacant and occupied; every other status goes to vacant, then to occupied. */
  lemma FlipTwice(current: string)
    ensures current == VACANT || current == OCCUPIED ==> Flipped(Flipped(current)) == current
    ensures current != VACANT && current != OCCUPIED ==> Flipped(Flipped(current)) == OCCUPIED && Flipped(current) == VACANT
  {
  }

  /** vacateAllSlots: every row whose status is not vacant, disabled ones included, becomes vacant with no start. */
  function VacateAll(statuses: map<nat, StatusRow>): (m: map<nat, StatusRow>)
    ensures m.Keys == statuses.Keys
    ensures forall k :: k in m ==> m[k].status == VACANT
    ensures forall k :: k in statuses && statuses[k].status != VACANT ==> m[k] == StatusRow(VACANT, None)
    ensures forall k :: k in statuses && statuses[k].status == VACANT ==> m[k] == statuses[k]
  {
    map k | k in statuses :: if statuses[k].status != VACANT then StatusRow(VACANT, None) else statuses[k]
  }

  /** A second vacate-all changes nothing, and a consistent table stays consistent. */
  lemma VacateAllSettles(statuses: map<nat, StatusRow>)
    ensures VacateAll(VacateAll(statuses)) == VacateAll(statuses)
    ensures SinceConsistent(statuses) ==> SinceConsistent(VacateAll(statuses))
  {
  }

  /**
   * resetParkingSlots: the five oldest slots stay; with five or fewer, all do.
   * Every slot kept is older than every slot dropped.
   */
  function KeepOldest(slots: seq<SlotRow>): (kept: seq<SlotRow>)
    requires IncreasingIds(slots)
    ensures kept <= slots && IncreasingIds(kept)
    ensures |slots| <= KEEP_ON_RESET ==> kept == slots
    ensures |slots| > KEEP_ON_RESET ==> |kept| == KEEP_ON_RESET
    ensures forall i, j :: 0 <= i < |kept| <= j < |slots| ==> kept[i].id < slots[j].id
  {
    if |slots| <= KEEP_ON_RESET then slots else slots[..KEEP_ON_RESET]
  }

  /** removeLastSlot's target: the newest slot, and every other slot is older. */
  function DropNewest(slots: seq<SlotRow>): (rest: seq<SlotRow>)
    requires slots != [] && IncreasingIds(slots)
    ensures rest + [slots[|slots| - 1]] == slots && IncreasingIds(rest)
    ensures forall i :: 0 <= i < |rest| ==> rest[i].id < slots[|slots| - 1].id
  {
    slots[..|slots| - 1]
  }

  /** The is_disabled update: the slot with the id takes the flag, every other row is untouched. */
  function SetDisabled(slots: seq<SlotRow>, slotId: nat, disable: bool): (updated: seq<SlotRow>)
    ensures |updated| == |slots|
    ensures forall i :: 0 <= i < |slots| ==>
      updated[i] == if slots[i].id == slotId then slots[i].(isDisabled := disable) else slots[i]
  {
    seq(|slots|, i requires 0 <= i < |slots| =>
      if slots[i].id == slotId then slots[i].(isDisabled := disable) else slots[i])
  }

  /** Setting the flag keeps the ids, so the creation order is unchanged. */
  lemma SetDisabledKeepsIds(slots: seq<SlotRow>, slotId: nat, disable: bool)
    requires IncreasingIds(slots)
    ensures IncreasingIds(SetDisabled(slots, slotId, disable))
    ensures forall i :: 0 <= i < |slots| ==> SetDisabled(slots, slotId, disable)[i].id == slots[i].id
  {
  }

  /** The status row an enable or disable leaves: disabled or vacant, without a start. */
  function DisableRow(disable: bool): (row: StatusRow)
    ensures row.occupiedSince.None?
    ensures row.status == DISABLED <==> disable
    ensures row.status == VACANT <==> !disable
  {
    StatusRow(if disable then DISABLED else VACANT, None)
  }

  // ---------------------------------------------------------------- sensor readings

  /** A realtime reading goes in front, and the list is cut to the ten newest. */
  function PrependReading<T>(readings: seq<T>, reading: T): (r: seq<T>)
    ensures |r| == if |readings| < MAX_READINGS then |readings| + 1 else MAX_READINGS
    ensures r[0] == reading
    ensures r[1..] <= readings
  {
    Take([reading] + readings, MAX_READINGS)
  }

  /** The elements of s in the opposite order. */
  function Reverse<T>(s: seq<T>): (r: seq<T>)
    ensures |r| == |s|
    ensures forall i :: 0 <= i < |s| ==> r[i] == s[|s| - 1 - i]
  {
    if s == [] then [] else [s[|s| - 1]] + Reverse(s[..|s| - 1])
  }

  /** The readings list after a run of inserts, oldest insert first. */
  function PrependAll<T>(readings: seq<T>, arrivals: seq<T>): seq<T> {
    if arrivals == [] then readings
    else PrependReading(PrependAll(readings, arrivals[..|arrivals| - 1]), arrivals[|arrivals| - 1])
  }

  /** After any run of inserts the list is the ten newest readings, newest first. */
  lemma {:induction false} PrependAllNewest<T>(readings: seq<T>, arrivals: seq<T>)
    requires |readings| <= MAX_READINGS
    ensures PrependAll(readings, arrivals) == Take(Reverse(arrivals) + readings, MAX_READINGS)
  {
    if arrivals != [] {
      var init, last := arrivals[..|arrivals| - 1], arrivals[|arrivals| - 1];
      PrependAllNewest(readings, init);
      var all := Reverse(init) + readings;
      assert Reverse(arrivals) + readings == [last] + all;
      TakeCons(last, all, MAX_READINGS);
    }
  }

  lemma TakeCons<T>(x: T, s: seq<T>, n: nat)
    requires n >= 1
    ensures Take([x] + Take(s, n), n) == Take([x] + s, n)
  {
    if n < |s| {
      assert ([x] + s)[..n] == [x] + s[..n - 1];
      assert ([x] + s[..n])[..n] == [x] + s[..n - 1];
    }
  }

  // ---------------------------------------------------------------- the store

  class ParkingStore {
    /** parking_slots, in creation order. */
    var slots: seq<SlotRow>
    /** slot_status, keyed by slot id (slot_id is unique: upserts conflict on it). */
    var statuses: map<nat, StatusRow>
    /** device_commands, in insertion order. */
    var commands: seq<DeviceCommand>
    /** The list the screens show: the result of the last fetch. */
    var cache: seq<SlotWithStatus>
    /** The id the next inserted slot receives. */
    var nextId: nat

    predicate Valid()
      reads this
    {
      && IncreasingIds(slots)
      && (forall i :: 0 <= i < |slots| ==> slots[i].id < nextId)
      && SinceConsistent(statuses)
    }

    constructor ()
      ensures Valid() && slots == [] && statuses == map[] && commands == [] && cache == []
    {
      slots, statuses, commands, cache, nextId := [], map[], [], [], 0;
    }

    /** fetchSlots: the shown list becomes the current tables. */
    method FetchSlots()
      modifies this`cache
      ensures cache == Joined(slots, statuses)
    {
      cache := Joined(slots, statuses);
    }

    /**
     * addVirtualSlot: a slot "P{k+1}" for k shown slots, with 60 allowed minutes,
     * neither disabled nor a placeholder, and a status row with the requested
     * status and a start time exactly when it is occupied; then a refresh.
     */
    method AddVirtualSlot(initialStatus: string, now: int) returns (added: SlotRow)
      requires Valid()
      requires initialStatus == VACANT || initialStatus == OCCUPIED
      modifies this
      ensures Valid()
      ensures added == SlotRow(old(nextId), "P" + IntToString(|old(cache)| + 1), DEFAULT_ALLOWED_MINUTES, false, false)
      ensures slots == old(slots) + [added]
      ensures statuses == old(statuses)[added.id := InitialRow(initialStatus, now)]
      ensures commands == old(commands) && cache == Joined(slots, statuses)
    {
      added := SlotRow(nextId, "P" + IntToString(|cache| + 1), DEFAULT_ALLOWED_MINUTES, false, false);
      slots := slots + [added];
      statuses := statuses[added.id := InitialRow(initialStatus, now)];
      nextId := nextId + 1;
      FetchSlots();
    }

    /**
     * removeLastSlot: fails with nothing deleted when the shown list is empty;
     * otherwise deletes the newest slot (a failing lookup when the table is
     * already empty) and refreshes. Its status row is not touched.
     */
    method RemoveLastSlot() returns (r: Result<SlotRow>)
      requires Valid()
      modifies this
      ensures Valid()
      ensures old(cache) == [] ==> r == Failure("No slots to remove") && slots == old(slots) && cache == old(cache)
      ensures old(cache) != [] && old(slots) == [] ==> r == Failure(NO_ROW) && slots == old(slots) && cache == old(cache)
      ensures old(cache) != [] && old(slots) != [] ==>
        && r == Success(old(slots)[|old(slots)| - 1])
        && slots == DropNewest(old(slots))
        && cache == Joined(slots, statuses)
      ensures statuses == old(statuses) && commands == old(commands)
    {
      if |cache| == 0 {
        return Failure("No slots to remove");
      }
      if slots == [] {
        return Failure(NO_ROW);
      }
      r := Success(slots[|slots| - 1]);
      slots := DropNewest(slots);
      FetchSlots();
    }

    /** resetParkingSlots: keep the five oldest slots; with five or fewer nothing happens at all. */
    method ResetParkingSlots()
      requires Valid()
      modifies this
      ensures Valid()
      ensures slots == KeepOldest(old(slots))
      ensures |old(slots)| <= KEEP_ON_RESET ==> cache == old(cache)
      ensures |old(slots)| > KEEP_ON_RESET ==> cache == Joined(slots, statuses)
      ensures statuses == old(statuses) && commands == old(commands)
    {
      if |slots| <= KEEP_ON_RESET {
        return;
      }
      slots := KeepOldest(slots);
      FetchSlots();
    }

    /**
     * simulateTraffic: fails on an empty shown list; otherwise flips the picked
     * slot (vacant or missing to occupied with a start, anything else to vacant
     * without one) by an upsert, and reports its name and new status. The shown
     * list is left to the change subscription.
     */
    method SimulateTraffic(pick: nat, now: int) returns (r: Result<(string, string)>)
      requires Valid()
      requires cache == [] || pick < |cache|
      modifies this
      ensures Valid()
      ensures old(cache) == [] ==> r == Failure("No slots available") && statuses == old(statuses)
      ensures old(cache) != [] ==>
        var chosen := old(cache)[pick];
        var next := Flipped(CurrentStatus(chosen));
        && statuses == old(statuses)[chosen.slot.id := InitialRow(next, now)]
        && r == Success((chosen.slot.name, next))
      ensures slots == old(slots) && cache == old(cache) && commands == old(commands)
    {
      if |cache| == 0 {
        return Failure("No slots available");
      }
      var chosen := cache[pick];
      var next := Flipped(CurrentStatus(chosen));
      statuses := statuses[chosen.slot.id := InitialRow(next, now)];
      r := Success((chosen.slot.name, next));
    }

    /** vacateAllSlots: every non-vacant status row becomes vacant without a start; then a refresh. */
    method VacateAllSlots()
      requires Valid()
      modifies this
      ensures Valid()
      ensures statuses == VacateAll(old(statuses))
      ensures slots == old(slots) && commands == old(commands) && cache == Joined(slots, statuses)
    {
      VacateAllSettles(statuses);
      statuses := VacateAll(statuses);
      FetchSlots();
    }

    /**
     * sendDisableCommand: record DISABLE_SLOT or ENABLE_SLOT, set the slot's
     * is_disabled flag, and set its status row to disabled or vacant without a
     * start, inserting the row when the update matched none.
     */
    method SendDisableCommand(slotId: nat, disable: bool) returns (sent: DeviceCommand)
      requires Valid()
      modifies this
      ensures Valid()
      ensures sent == DeviceCommand(slotId, if disable then DISABLE_SLOT else ENABLE_SLOT, disable)
      ensures commands == old(commands) + [sent]
      ensures slots == SetDisabled(old(slots), slotId, disable)
      ensures statuses == old(statuses)[slotId := DisableRow(disable)]
      ensures slotId in statuses && statuses[slotId].status == (if disable then DISABLED else VACANT)
      ensures cache == old(cache)
    {
      sent := DeviceCommand(slotId, if disable then DISABLE_SLOT else ENABLE_SLOT, disable);
      commands := commands + [sent];
      SetDisabledKeepsIds(slots, slotId, disable);
      slots := SetDisabled(slots, slotId, disable);
      if slotId in statuses {
        statuses := statuses[slotId := statuses[slotId].(status := DisableRow(disable).status, occupiedSince := None)];
      } else {
        statuses := statuses[slotId := DisableRow(disable)];
      }
    }
  }
}
