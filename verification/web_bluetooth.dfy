/**
 * The web client's Bluetooth hook (frontend/hooks/use-bluetooth.ts): the decoder
 * for SENSOR, STATUS, PONG and RSSI lines, the per-slot occupancy map it keeps,
 * the parking sessions it saves when a slot is vacated, and the command sender.
 */
module WebBluetooth {
  import opened Wrappers
  import opened Strings
  import Theme
  import BluetoothLink

  const RATE_PER_HOUR: real := 25.0
  const OVERTIME_RATE_PER_HOUR: real := 100.0
  const OVERTIME_THRESHOLD_MINUTES: int := 180

  /** A sensor reading below this means something covers the light sensor: the slot is occupied. */
  const OCCUPIED_BELOW: int := 500

  datatype SlotState = Occupied | Vacant | Overtime

  datatype SlotData = SlotData(
    slotName: string,
    sensorValue: int,
    status: SlotState,
    lastUpdated: int,
    occupiedSince: Option<int>)

  /** The row saveParkingSession inserts into parking_sessions (the slot id lookup is not modelled). */
  datatype SessionRecord = SessionRecord(
    slotName: string,
    startedAt: int,
    endedAt: int,
    durationMinutes: int,
    amountCharged: real,
    wasOvertime: bool)

  // ---------------------------------------------------------------- session billing

  /** Hourly billing of a finished stay: 25 per hour, and 100 per hour beyond three hours. */
  function SessionCharge(durationMinutes: int): real {
    if durationMinutes <= OVERTIME_THRESHOLD_MINUTES then
      durationMinutes as real / 60.0 * RATE_PER_HOUR
    else
      var regularMinutes := OVERTIME_THRESHOLD_MINUTES;
      var overtimeMinutes := durationMinutes - OVERTIME_THRESHOLD_MINUTES;
      regularMinutes as real / 60.0 * RATE_PER_HOUR + overtimeMinutes as real / 60.0 * OVERTIME_RATE_PER_HOUR
  }

  /**
   * saveParkingSession: whole minutes between start and end (rounded down),
   * overtime beyond three hours, and the hourly charge rounded to cents; it bills
   * exactly what the live display (theme.ts calculateBilling) showed at the end time.
   */
  function SaveParkingSession(slotName: string, occupiedSince: int, endedAt: int): (r: SessionRecord)
    ensures r.slotName == slotName && r.startedAt == occupiedSince && r.endedAt == endedAt
    ensures r.durationMinutes * 60000 <= endedAt - occupiedSince < (r.durationMinutes + 1) * 60000
    ensures r.wasOvertime <==> r.durationMinutes > OVERTIME_THRESHOLD_MINUTES
    ensures var live := Theme.CalculateBilling(Some(occupiedSince), endedAt);
      r.amountCharged == live.amount && r.wasOvertime == live.isOvertime && r.durationMinutes == live.minutesParked
  {
    var durationMinutes := (endedAt - occupiedSince) / 60000;
    var amount := SessionCharge(durationMinutes);
    assert amount == Theme.HourlyCharge(durationMinutes as real);
    SessionRecord(slotName, occupiedSince, endedAt, durationMinutes, RoundCents(amount),
                  durationMinutes > OVERTIME_THRESHOLD_MINUTES)
  }

  // ---------------------------------------------------------------- the slot map

  /** The parts of the hook's state the decoder touches, plus the sessions it has saved so far. */
  datatype LinkState = LinkState(rssi: Option<int>, slots: map<string, SlotData>, saved: seq<SessionRecord>)

  /** occupiedSince is set exactly for occupied and overtime slots. */
  predicate SinceMatchesStatus(slots: map<string, SlotData>) {
    forall name :: name in slots ==> (slots[name].occupiedSince.Some? <==> slots[name].status != Vacant)
  }

  /**
   * The start time kept for a slot that enters `newStatus` from `previous`:
   * now when it has just become occupied, the stored time (or now, if none) while
   * it stays occupied or overtime, and none once vacant.
   */
  function NextSince(previous: SlotState, stored: Option<int>, newStatus: SlotState, now: int): (since: Option<int>)
    ensures since.Some? <==> newStatus != Vacant
    ensures since == Some(now) <==> newStatus != Vacant && ((previous == Vacant && newStatus == Occupied) || stored.None? || stored == Some(now))
    ensures since.Some? && since != Some(now) ==> since == stored
  {
    if newStatus == Occupied && previous == Vacant then Some(now)
    else if newStatus == Occupied || newStatus == Overtime then (if stored.Some? then stored else Some(now))
    else assert newStatus == Vacant; None
  }

  /**
   * The map update of a SENSOR or STATUS line for slot `name`: a session is saved
   * when a slot that was not vacant (an absent slot counts as vacant) becomes vacant
   * and had a start time; then the entry is replaced, or added for an unknown name.
   * `reading` is the parsed SENSOR value; STATUS keeps the stored one (0 if none).
   */
  function UpdateSlot(s: LinkState, name: string, newStatus: SlotState, reading: Option<int>, now: int): LinkState {
    var existing := if name in s.slots then Some(s.slots[name]) else None;
    var previous := if existing.Some? then existing.value.status else Vacant;
    var stored := if existing.Some? then existing.value.occupiedSince else None;
    var saved :=
      if previous != Vacant && newStatus == Vacant && stored.Some?
      then s.saved + [SaveParkingSession(name, stored.value, now)]
      else s.saved;
    var sensorValue :=
      if reading.Some? then reading.value
      else if existing.Some? then existing.value.sensorValue
      else 0;
    s.(slots := s.slots[name := SlotData(name, sensorValue, newStatus, now, NextSince(previous, stored, newStatus, now))],
       saved := saved)
  }

  /** Status text of a STATUS line, compared after lower-casing. */
  function StatusWord(field: Option<string>): Option<SlotState> {
    if field.None? then None
    else
      var w := ToLower(field.value);
      if w == "occupied" then Some(Occupied)
      else if w == "vacant" then Some(Vacant)
      else if w == "overtime" then Some(Overtime)
      else None
  }

  /** parts[i], or undefined past the end. */
  function Field(parts: seq<string>, i: nat): Option<string> {
    if i < |parts| then Some(parts[i]) else None
  }

  /** What a line means to the decoder. */
  datatype Message =
    | SensorReading(slotName: string, value: int)
    | StatusReport(slotName: string, status: SlotState)
    | Pong(pinged: Option<string>)
    | Signal(rssi: int)
    | Ignored

  /**
   * One line of a chunk: trimmed, split on ':', and dispatched on its upper-cased
   * tag. Fewer than two fields, an unknown tag, a non-numeric SENSOR or RSSI value
   * and an unknown STATUS word all mean nothing.
   */
  function Decode(line: string): Message {
    DecodeFields(Split(Trim(line), ':'))
  }

  /** The dispatch on the ':'-separated fields of a trimmed line. */
  function DecodeFields(parts: seq<string>): Message {
    if |parts| < 2 then Ignored
    else
      var command := ToUpper(parts[0]);
      if command == "SENSOR" then
        match JsParseInt(Field(parts, 2))
        case None => Ignored
        case Some(value) => SensorReading(parts[1], value)
      else if command == "STATUS" then
        match StatusWord(Field(parts, 2))
        case None => Ignored
        case Some(status) => StatusReport(parts[1], status)
      else if command == "PONG" then Pong(Field(parts, 1))
      else if command == "RSSI" then
        match JsParseInt(Field(parts, 1))
        case None => Ignored
        case Some(rssi) => Signal(rssi)
      else Ignored
  }

  /** The state change a message causes; a PONG is only logged. */
  function Apply(s: LinkState, m: Message, now: int): LinkState {
    match m
    case SensorReading(name, value) =>
      UpdateSlot(s, name, if value < OCCUPIED_BELOW then Occupied else Vacant, Some(value), now)
    case StatusReport(name, status) => UpdateSlot(s, name, status, None, now)
    case Signal(rssi) => s.(rssi := Some(rssi))
    case Pong(_) => s
    case Ignored => s
  }

  function ApplyLine(s: LinkState, line: string, now: int): LinkState {
    Apply(s, Decode(line), now)
  }

  /** The lines of one chunk, applied in order. */
  function ApplyLines(s: LinkState, lines: seq<string>, now: int): LinkState
    decreases |lines|
  {
    if |lines| == 0 then s else ApplyLine(ApplyLines(s, lines[..|lines| - 1], now), lines[|lines| - 1], now)
  }

  /** A chunk as parseArduinoData sees it: trimmed and split on '\n', with nothing kept for the next chunk. */
  function ChunkLines(data: string): seq<string> {
    Split(Trim(data), '\n')
  }

  // ---------------------------------------------------------------- properties of the update

  /**
   * A session is saved exactly when the slot was not vacant, becomes vacant, and
   * had a start time; it runs from that start time to now. Nothing else is saved.
   */
  lemma SessionSavedIff(s: LinkState, name: string, newStatus: SlotState, reading: Option<int>, now: int)
    ensures var t := UpdateSlot(s, name, newStatus, reading, now);
      var vacating := name in s.slots && s.slots[name].status != Vacant && newStatus == Vacant
                      && s.slots[name].occupiedSince.Some?;
      (vacating ==> t.saved == s.saved + [SaveParkingSession(name, s.slots[name].occupiedSince.value, now)])
      && (!vacating ==> t.saved == s.saved)
  {
  }

  /**
   * After an update the named slot holds the new status, a start time exactly
   * when it is occupied or overtime, and every other slot is untouched; an unknown
   * name is added.
   */
  lemma UpdateOnlyTouchesSlot(s: LinkState, name: string, newStatus: SlotState, reading: Option<int>, now: int)
    ensures var t := UpdateSlot(s, name, newStatus, reading, now);
      name in t.slots && t.slots[name].status == newStatus && t.slots[name].lastUpdated == now
      && (t.slots[name].occupiedSince.Some? <==> newStatus != Vacant)
      && t.slots.Keys == s.slots.Keys + {name}
      && (forall other :: other in s.slots && other != name ==> t.slots[other] == s.slots[other])
      && t.rssi == s.rssi
  {
  }

  /** Every update keeps "a start time exactly for occupied and overtime slots". */
  lemma UpdateKeepsSinceInvariant(s: LinkState, name: string, newStatus: SlotState, reading: Option<int>, now: int)
    requires SinceMatchesStatus(s.slots)
    ensures SinceMatchesStatus(UpdateSlot(s, name, newStatus, reading, now).slots)
    ensures s.saved <= UpdateSlot(s, name, newStatus, reading, now).saved
  {
  }

  /** A slot that stays occupied keeps the time it was first seen occupied. */
  lemma OccupiedKeepsStart(s: LinkState, name: string, reading: Option<int>, now: int)
    requires name in s.slots && s.slots[name].status != Vacant && s.slots[name].occupiedSince.Some?
    ensures UpdateSlot(s, name, Occupied, reading, now).slots[name].occupiedSince == s.slots[name].occupiedSince
  {
  }

  /** Every message keeps the invariant. */
  lemma ApplyKeepsSinceInvariant(s: LinkState, m: Message, now: int)
    requires SinceMatchesStatus(s.slots)
    ensures SinceMatchesStatus(Apply(s, m, now).slots)
    ensures s.saved <= Apply(s, m, now).saved
  {
    match m
    case SensorReading(name, value) =>
      UpdateKeepsSinceInvariant(s, name, if value < OCCUPIED_BELOW then Occupied else Vacant, Some(value), now);
    case StatusReport(name, status) =>
      UpdateKeepsSinceInvariant(s, name, status, None, now);
    case _ =>
  }

  /** Every line keeps the invariant and only appends sessions, so a whole chunk does too. */
  lemma {:induction false} ApplyLinesKeepsSinceInvariant(s: LinkState, lines: seq<string>, now: int)
    requires SinceMatchesStatus(s.slots)
    ensures SinceMatchesStatus(ApplyLines(s, lines, now).slots)
    ensures s.saved <= ApplyLines(s, lines, now).saved
    decreases |lines|
  {
    if |lines| > 0 {
      var before := ApplyLines(s, lines[..|lines| - 1], now);
      ApplyLinesKeepsSinceInvariant(s, lines[..|lines| - 1], now);
      ApplyKeepsSinceInvariant(before, Decode(lines[|lines| - 1]), now);
    }
  }

  lemma ApplyLinesStep(s: LinkState, lines: seq<string>, i: nat, now: int)
    requires i < |lines|
    ensures ApplyLines(s, lines[..i + 1], now) == ApplyLine(ApplyLines(s, lines[..i], now), lines[i], now)
  {
    assert lines[..i + 1][..i] == lines[..i];
  }

  // ---------------------------------------------------------------- what single lines do

  /** A line with no ':' (fewer than two fields) means nothing. */
  lemma LineWithoutFieldsIgnored(line: string)
    requires ':' !in Trim(line)
    ensures Decode(line) == Ignored
  {
    SplitNone(Trim(line), ':');
  }

  /** A tag that upper-cases to a word of capitals has no ':' and does not start with whitespace. */
  lemma TagShape(tag: string, upper: string)
    requires ToUpper(tag) == upper && |upper| > 0 && ':' !in upper && 'A' <= upper[0] <= 'Z'
    ensures ':' !in tag && |tag| > 0 && !IsWhitespace(tag[0])
  {
    assert UpperChar(tag[0]) == upper[0];
  }

  lemma TaggedFields(tag: string, name: string, value: string)
    requires ':' !in tag && ':' !in name && ':' !in value
    ensures Split(tag + ":" + name + ":" + value, ':') == [tag, name, value]
  {
    assert tag + ":" + name + ":" + value == tag + [':'] + (name + [':'] + value);
    SplitFirst(tag, ':', name + [':'] + value);
    SplitFirst(name, ':', value);
    SplitNone(value, ':');
  }

  /** Text of <tag>:<name>:<value> that trimming leaves alone. */
  lemma ThreeFieldLine(tag: string, upper: string, name: string, value: string)
    requires ToUpper(tag) == upper && |upper| > 0 && ':' !in upper && 'A' <= upper[0] <= 'Z'
    requires ':' !in name && ':' !in value
    requires value != [] && !IsWhitespace(value[|value| - 1])
    ensures Split(Trim(tag + ":" + name + ":" + value), ':') == [tag, name, value]
  {
    TagShape(tag, upper);
    var line := tag + ":" + name + ":" + value;
    assert line[0] == tag[0] && line[|line| - 1] == value[|value| - 1];
    TrimKeeps(line);
    TaggedFields(tag, name, value);
  }

  /**
   * SENSOR:<name>:<value>, with the tag in any case, is a reading of that value
   * for that slot; it occupies the slot below 500 and vacates it otherwise.
   */
  lemma SensorLine(tag: string, name: string, value: int)
    requires ToUpper(tag) == "SENSOR"
    requires ':' !in name
    ensures Decode(tag + ":" + name + ":" + IntToString(value)) == SensorReading(name, value)
  {
    DigitsShape(value);
    ThreeFieldLine(tag, "SENSOR", name, IntToString(value));
    ParseIntRoundTrip(value);
  }

  /** STATUS:<name>:<word> with a known word in any case reports that status. */
  lemma StatusLine(tag: string, name: string, word: string)
    requires ToUpper(tag) == "STATUS"
    requires ':' !in name && ':' !in word
    requires word != [] && !IsWhitespace(word[|word| - 1])
    ensures Decode(tag + ":" + name + ":" + word)
         == if StatusWord(Some(word)).Some? then StatusReport(name, StatusWord(Some(word)).value) else Ignored
  {
    ThreeFieldLine(tag, "STATUS", name, word);
  }

  /** A STATUS line with no third field means nothing. */
  lemma StatusWithoutWordIgnored(name: string)
    requires ':' !in name && name != [] && !IsWhitespace(name[|name| - 1])
    ensures Decode("STATUS:" + name) == Ignored
  {
    var line := "STATUS:" + name;
    assert line[0] == 'S' && line[|line| - 1] == name[|name| - 1];
    TrimKeeps(line);
    assert line == "STATUS" + [':'] + name;
    SplitFirst("STATUS", ':', name);
    assert ToUpper("STATUS") == "STATUS";
  }

  /** RSSI:<value> is a signal reading. */
  lemma RssiLine(value: int)
    ensures Decode("RSSI:" + IntToString(value)) == Signal(value)
  {
    var digits := IntToString(value);
    DigitsShape(value);
    RssiFields(digits);
    ParseIntRoundTrip(value);
    RssiDispatch(digits);
  }

  lemma RssiFields(digits: string)
    requires ':' !in digits && digits != [] && !IsWhitespace(digits[|digits| - 1])
    ensures Split(Trim("RSSI:" + digits), ':') == ["RSSI", digits]
  {
    var line := "RSSI:" + digits;
    assert line[0] == 'R' && line[|line| - 1] == digits[|digits| - 1];
    TrimKeeps(line);
    assert line == "RSSI" + [':'] + digits;
    SplitFirst("RSSI", ':', digits);
  }

  lemma RssiDispatch(digits: string)
    ensures JsParseInt(Some(digits)).Some? ==> DecodeFields(["RSSI", digits]) == Signal(JsParseInt(Some(digits)).value)
  {
    assert ToUpper("RSSI") == "RSSI";
  }

  /**
   * No partial line survives a chunk: a SENSOR line cut in two by the transport
   * is lost, where the Android reader would have joined the pieces.
   */
  lemma SplitSensorLineLost(s: LinkState, name: string, value: int, now: int)
    requires ':' !in name && '\n' !in name
    ensures var head, tail := "SENSOR" + ":" + name + ":", IntToString(value);
      ApplyLines(ApplyLines(s, ChunkLines(head), now), ChunkLines(tail), now) == s
    ensures ApplyLines(s, ChunkLines("SENSOR" + ":" + name + ":" + IntToString(value)), now)
         == Apply(s, SensorReading(name, value), now)
  {
    HeadLost(s, name, now);
    TailLost(s, value, now);
    WholeLineRead(s, name, value, now);
  }

  /** The cut-off head is a SENSOR line with an empty value. */
  lemma HeadLost(s: LinkState, name: string, now: int)
    requires ':' !in name && '\n' !in name
    ensures ApplyLines(s, ChunkLines("SENSOR" + ":" + name + ":"), now) == s
  {
    var head := "SENSOR" + ":" + name + ":";
    assert ToUpper("SENSOR") == "SENSOR";
    assert head[0] == 'S' && head[|head| - 1] == ':';
    OneLineChunk(head);
    SensorWithoutValueIgnored("SENSOR", name);
    assert ApplyLines(s, [head], now) == ApplyLine(s, head, now);
  }

  /** The tail is bare digits, with no field separator. */
  lemma TailLost(s: LinkState, value: int, now: int)
    ensures ApplyLines(s, ChunkLines(IntToString(value)), now) == s
  {
    var tail := IntToString(value);
    DigitsShape(value);
    OneLineChunk(tail);
    TrimKeeps(tail);
    LineWithoutFieldsIgnored(tail);
    assert ApplyLines(s, [tail], now) == ApplyLine(s, tail, now);
  }

  lemma WholeLineRead(s: LinkState, name: string, value: int, now: int)
    requires ':' !in name && '\n' !in name
    ensures ApplyLines(s, ChunkLines("SENSOR" + ":" + name + ":" + IntToString(value)), now)
         == Apply(s, SensorReading(name, value), now)
  {
    var tail := IntToString(value);
    var whole := "SENSOR" + ":" + name + ":" + tail;
    DigitsShape(value);
    assert ToUpper("SENSOR") == "SENSOR";
    assert whole[0] == 'S' && whole[|whole| - 1] == tail[|tail| - 1];
    OneLineChunk(whole);
    SensorLine("SENSOR", name, value);
    assert ApplyLines(s, [whole], now) == ApplyLine(s, whole, now);
  }

  /** A chunk without a newline and without surrounding whitespace is a single line. */
  lemma OneLineChunk(data: string)
    requires '\n' !in data && data != [] && !IsWhitespace(data[0]) && !IsWhitespace(data[|data| - 1])
    ensures ChunkLines(data) == [data]
  {
    TrimKeeps(data);
    SplitNone(data, '\n');
  }

  /** A SENSOR line whose value field is empty means nothing (parseInt of "" is NaN). */
  lemma SensorWithoutValueIgnored(tag: string, name: string)
    requires ToUpper(tag) == "SENSOR"
    requires ':' !in name
    ensures Decode(tag + ":" + name + ":") == Ignored
  {
    TagShape(tag, "SENSOR");
    var line := tag + ":" + name + ":";
    assert line[0] == tag[0] && line[|line| - 1] == ':';
    TrimKeeps(line);
    TaggedFields(tag, name, "");
    assert tag + ":" + name + ":" + "" == line;
    assert DigitPrefixLength("") == 0;
  }

  // ---------------------------------------------------------------- the hook

  /** Text the web client writes for a command: always one '\n' added, even after a '\n'. */
  function WebCommandText(command: string): (sent: string)
    ensures |sent| == |command| + 1 && sent[..|command|] == command && sent[|command|] == '\n'
  {
    command + "\n"
  }

  /** The two clients write the same text exactly when the command does not already end with a newline. */
  lemma CommandTextsAgreeIff(command: string)
    ensures WebCommandText(command) == BluetoothLink.CommandText(command) <==> !BluetoothLink.EndsWithNewline(command)
  {
    if BluetoothLink.EndsWithNewline(command) {
      assert |WebCommandText(command)| != |BluetoothLink.CommandText(command)|;
    }
  }

  const NOT_CONNECTED := "Not connected to device"
  const SEND_FAILED := "Failed to send command"

  /** err.message || 'Failed to send command': the write's own message, unless it is empty. */
  function SendError(message: string): (e: string)
    ensures e != []
    ensures message != [] ==> e == message
  {
    if message != [] then message else SEND_FAILED
  }

  /** The hook's state: the link, the decoded slot map, and what has been written and saved. */
  class BluetoothHook {
    var isConnected: bool
    var hasDevice: bool
    var state: LinkState
    var error: Option<string>
    var written: string
    /** The Bluetooth library failed to load (RNBluetoothClassic is null): sends are only logged. */
    const mockMode: bool

    constructor (libraryMissing: bool)
      ensures !isConnected && !hasDevice && error.None? && written == []
      ensures state == LinkState(None, map[], [])
      ensures mockMode == libraryMissing
    {
      mockMode := libraryMissing;
      isConnected, hasDevice := false, false;
      state := LinkState(None, map[], []);
      error := None;
      written := [];
    }

    ghost predicate Valid()
      reads this
    {
      SinceMatchesStatus(state.slots)
    }

    /**
     * parseArduinoData: every line of the trimmed chunk is applied in order, all
     * at the same instant `now`; the occupancy invariant is kept.
     */
    method ParseArduinoData(data: string, now: int)
      requires Valid()
      modifies this`state
      ensures Valid()
      ensures state == ApplyLines(old(state), ChunkLines(data), now)
      ensures old(state).saved <= state.saved
    {
      var lines := Split(Trim(data), '\n');
      var current := state;
      ghost var start := current;
      for i := 0 to |lines|
        invariant current == ApplyLines(start, lines[..i], now)
      {
        ApplyLinesStep(start, lines, i, now);
        current := ApplyLine(current, lines[i], now);
      }
      assert lines[..|lines|] == lines;
      ApplyLinesKeepsSinceInvariant(start, lines, now);
      state := current;
    }

    /**
     * sendCommand: without a connection and a device it records an error and
     * reports failure; in mock mode it only reports success; otherwise it writes
     * the command and '\n', and a failed write (`writeFailure` holds the
     * rejection's message) records the error and reports failure. Only a
     * successful real write adds to what was written.
     */
    method SendCommand(command: string, writeFailure: Option<string>) returns (ok: bool)
      modifies this`error, this`written
      ensures ok <==> isConnected && hasDevice && (mockMode || writeFailure.None?)
      ensures !(isConnected && hasDevice) ==> written == old(written) && error == Some(NOT_CONNECTED)
      ensures isConnected && hasDevice && mockMode ==> written == old(written) && error == old(error)
      ensures isConnected && hasDevice && !mockMode && writeFailure.None? ==>
        written == old(written) + WebCommandText(command) && error == old(error)
      ensures isConnected && hasDevice && !mockMode && writeFailure.Some? ==>
        written == old(written) && error == Some(SendError(writeFailure.value))
    {
      if !isConnected || !hasDevice {
        error := Some(NOT_CONNECTED);
        return false;
      }
      if mockMode {
        return true;
      }
      if writeFailure.Some? {
        error := Some(SendError(writeFailure.value));
        return false;
      }
      written := written + WebCommandText(command);
      ok := true;
    }

    /** pingSlot: PING:<name>. */
    method PingSlot(slotName: string, writeFailure: Option<string>) returns (ok: bool)
      modifies this`error, this`written
      ensures ok <==> isConnected && hasDevice && (mockMode || writeFailure.None?)
      ensures ok && !mockMode ==> written == old(written) + "PING:" + slotName + "\n"
      ensures !ok || mockMode ==> written == old(written)
    {
      ok := SendCommand("PING:" + slotName, writeFailure);
    }

    /** disableSlot: DISABLE:<name> or ENABLE:<name>, chosen by the flag. */
    method DisableSlot(slotName: string, disable: bool, writeFailure: Option<string>) returns (ok: bool)
      modifies this`error, this`written
      ensures ok <==> isConnected && hasDevice && (mockMode || writeFailure.None?)
      ensures ok && !mockMode ==> written == old(written) + (if disable then "DISABLE:" else "ENABLE:") + slotName + "\n"
      ensures !ok || mockMode ==> written == old(written)
    {
      ok := SendCommand((if disable then "DISABLE" else "ENABLE") + ":" + slotName, writeFailure);
    }
  }
}
