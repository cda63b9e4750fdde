/**
 * The Android side of the text protocol with the Arduino (BluetoothManager.kt):
 * the reader loop that cuts newline-terminated lines out of a growing buffer,
 * the recognition of SLOT:<name>:<status> lines, the outbound command texts, and
 * the de-duplicated list of discovered devices.
 */
module BluetoothLink {
  import opened Wrappers
  import opened Strings
  import opened BluetoothDevices

  // ---------------------------------------------------------------- framing specification

  /** Lines, each followed by its '\n', as they appeared on the wire. */
  function JoinLines(lines: seq<string>): string {
    if |lines| == 0 then [] else lines[0] + "\n" + JoinLines(lines[1..])
  }

  lemma {:induction false} JoinLinesAppend(a: seq<string>, b: seq<string>)
    ensures JoinLines(a + b) == JoinLines(a) + JoinLines(b)
  {
    if |a| > 0 {
      assert (a + b)[1..] == a[1..] + b;
      JoinLinesAppend(a[1..], b);
    } else {
      assert a + b == b;
    }
  }

  lemma JoinLinesCons(line: string, lines: seq<string>, rest: string)
    ensures JoinLines([line] + lines) + rest == line + "\n" + (JoinLines(lines) + rest)
  {
    assert ([line] + lines)[1..] == lines;
  }

  lemma CutAt(s: string, k: nat)
    requires k < |s| && s[k] == '\n'
    ensures s == s[..k] + "\n" + s[k + 1..]
  {
    assert s == s[..k] + [s[k]] + s[k + 1..];
  }

  predicate NoNewline(s: string) {
    '\n' !in s
  }

  predicate AllWithoutNewline(lines: seq<string>) {
    forall i :: 0 <= i < |lines| ==> NoNewline(lines[i])
  }

  /**
   * The complete lines of s and the unterminated text after the last '\n':
   * no line and not the rest holds a '\n', and the lines with their newlines,
   * followed by the rest, are exactly s.
   */
  function SplitLines(s: string): (r: (seq<string>, string))
    ensures AllWithoutNewline(r.0) && NoNewline(r.1)
    ensures JoinLines(r.0) + r.1 == s
    decreases |s|
  {
    match IndexOf(s, '\n')
    case None => ([], s)
    case Some(k) =>
      var rest := SplitLines(s[k + 1..]);
      JoinLinesCons(s[..k], rest.0, rest.1);
      CutAt(s, k);
      ([s[..k]] + rest.0, rest.1)
  }

  /** Nothing else fits that description: the way to cut s into lines and a rest is unique. */
  lemma {:induction false} SplitLinesUnique(lines: seq<string>, rest: string, s: string)
    requires AllWithoutNewline(lines) && NoNewline(rest)
    requires JoinLines(lines) + rest == s
    ensures SplitLines(s) == (lines, rest)
    decreases |lines|
  {
    if |lines| == 0 {
      assert s == rest;
      assert IndexOf(s, '\n') == None;
    } else {
      var tail := JoinLines(lines[1..]) + rest;
      assert [lines[0]] + lines[1..] == lines;
      JoinLinesCons(lines[0], lines[1..], rest);
      FirstLine(lines[0], tail);
      SplitLinesUnique(lines[1..], rest, tail);
    }
  }

  /** The first '\n' of a line followed by more text is the one that ends the line. */
  lemma FirstLine(line: string, tail: string)
    requires NoNewline(line)
    ensures var s := line + "\n" + tail;
      IndexOf(s, '\n') == Some(|line|) && s[..|line|] == line && s[|line| + 1..] == tail
  {
    var s := line + "\n" + tail;
    assert s[..|line|] == line;
    assert s[|line|] == '\n';
    assert s[|line| + 1..] == tail;
  }

  /**
   * Chunk boundaries do not matter: reading a and then b yields the lines of a,
   * then the lines of a's leftover followed by b, and the same leftover, as reading
   * a + b in one go.
   */
  lemma ChunkIndependence(a: string, b: string)
    ensures SplitLines(a).0 + SplitLines(SplitLines(a).1 + b).0 == SplitLines(a + b).0
    ensures SplitLines(SplitLines(a).1 + b).1 == SplitLines(a + b).1
  {
    var sa := SplitLines(a);
    var sb := SplitLines(sa.1 + b);
    var la, ra, lb, rb := sa.0, sa.1, sb.0, sb.1;
    JoinLinesAppend(la, lb);
    calc {
      JoinLines(la + lb) + rb;
      JoinLines(la) + (JoinLines(lb) + rb);
      JoinLines(la) + (ra + b);
      (JoinLines(la) + ra) + b;
      a + b;
    }
    AllWithoutNewlineAppend(la, lb);
    SplitLinesUnique(la + lb, rb, a + b);
  }

  lemma AllWithoutNewlineAppend(a: seq<string>, b: seq<string>)
    requires AllWithoutNewline(a) && AllWithoutNewline(b)
    ensures AllWithoutNewline(a + b)
  {
    forall i | 0 <= i < |a + b| ensures NoNewline((a + b)[i]) {
      if i >= |a| {
        assert (a + b)[i] == b[i - |a|];
      }
    }
  }

  // ---------------------------------------------------------------- handling a line

  /** What handleLine posts to the main thread. */
  datatype Post = SlotUpdate(slotName: string, status: string) | RawData(line: string)

  /** The SLOT:<name>:<status> recognition: prefix is case-sensitive, extra fields are ignored. */
  function ParseSlotLine(line: string): Option<(string, string)> {
    if "SLOT:" <= line then
      var parts := Split(line, ':');
      if |parts| >= 3 then Some((parts[1], ToLower(parts[2]))) else None
    else None
  }

  /** handleLine: a slot update when the line is a SLOT line, then always the line itself, unchanged. */
  function HandleLine(line: string): (posts: seq<Post>)
    ensures 1 <= |posts| <= 2
    ensures posts[|posts| - 1] == RawData(line)
    ensures |posts| == 2 ==> posts[0].SlotUpdate? && "SLOT:" <= line
  {
    match ParseSlotLine(line)
    case Some((name, status)) => [SlotUpdate(name, status), RawData(line)]
    case None => [RawData(line)]
  }

  /** The posts of several lines, in line order. */
  function HandleLines(lines: seq<string>): seq<Post> {
    if |lines| == 0 then [] else HandleLines(lines[..|lines| - 1]) + HandleLine(lines[|lines| - 1])
  }

  /**
   * A well-formed SLOT line yields its name and its lower-cased status, whatever
   * further ':' fields follow.
   */
  lemma SlotLineRecognised(name: string, status: string, extra: string)
    requires ':' !in name && ':' !in status
    requires extra == [] || extra[0] == ':'
    ensures HandleLine("SLOT:" + name + ":" + status + extra)
         == [SlotUpdate(name, ToLower(status)), RawData("SLOT:" + name + ":" + status + extra)]
  {
    var line := "SLOT:" + name + ":" + status + extra;
    SlotLineFields(name, status, extra);
    SlotLinePrefix(name, status, extra);
    SlotFieldsPosted(line, name, status);
  }

  lemma SlotLinePrefix(name: string, status: string, extra: string)
    ensures "SLOT:" <= "SLOT:" + name + ":" + status + extra
  {
    var line := "SLOT:" + name + ":" + status + extra;
    assert line[..5] == "SLOT:";
  }

  /** A line that starts with "SLOT:" and has a second and third field posts them. */
  lemma SlotFieldsPosted(line: string, name: string, status: string)
    requires "SLOT:" <= line
    requires var parts := Split(line, ':'); |parts| >= 3 && parts[1] == name && parts[2] == status
    ensures HandleLine(line) == [SlotUpdate(name, ToLower(status)), RawData(line)]
  {
  }

  lemma SlotLineFields(name: string, status: string, extra: string)
    requires ':' !in name && ':' !in status
    requires extra == [] || extra[0] == ':'
    ensures var parts := Split("SLOT:" + name + ":" + status + extra, ':');
      |parts| >= 3 && parts[1] == name && parts[2] == status
  {
    var third := status + extra;
    SplitHead(status, ':', extra);
    var thirdParts := Split(third, ':');
    assert thirdParts[0] == status;
    var second := name + [':'] + third;
    SplitFirst(name, ':', third);
    var secondParts := Split(second, ':');
    assert secondParts == [name] + thirdParts;
    SplitFirst("SLOT", ':', second);
    SlotLineAssociates(name, status, extra);
  }

  lemma SlotLineAssociates(name: string, status: string, extra: string)
    ensures "SLOT:" + name + ":" + status + extra == "SLOT" + [':'] + (name + [':'] + (status + extra))
  {
    assert "SLOT:" == "SLOT" + [':'];
    assert ":" == [':'];
  }

  /** A line that does not start with "SLOT:" (a lower-case "slot:" for one) is only forwarded. */
  lemma OtherLinesOnlyForwarded(line: string)
    requires !("SLOT:" <= line)
    ensures HandleLine(line) == [RawData(line)]
  {
  }

  /** A SLOT line with fewer than three fields is only forwarded. */
  lemma ShortSlotLineOnlyForwarded(name: string)
    requires ':' !in name
    ensures HandleLine("SLOT:" + name) == [RawData("SLOT:" + name)]
  {
    var line := "SLOT:" + name;
    assert line == "SLOT" + [':'] + name;
    SplitFirst("SLOT", ':', name);
  }

  // ---------------------------------------------------------------- the reader loop

  /** Every line trimmed of surrounding whitespace as Kotlin sees it, a trailing '\r' included. */
  function TrimAll(raw: seq<string>): (lines: seq<string>)
    ensures |lines| == |raw|
    ensures forall i :: 0 <= i < |raw| ==> lines[i] == KotlinTrim(raw[i])
  {
    seq(|raw|, i requires 0 <= i < |raw| => KotlinTrim(raw[i]))
  }

  lemma TrimAllAppend(raw: seq<string>, line: string)
    ensures TrimAll(raw + [line]) == TrimAll(raw) + [KotlinTrim(line)]
  {
  }

  lemma HandleLinesAppend(lines: seq<string>, line: string)
    ensures HandleLines(lines + [line]) == HandleLines(lines) + HandleLine(line)
  {
    assert (lines + [line])[..|lines|] == lines;
  }

  /** The StringBuilder of the reader thread, holding text not yet ended by a newline. */
  class LineReader {
    var buffer: string

    constructor ()
      ensures buffer == []
    {
      buffer := [];
    }

    /**
     * The body of the reader loop after a read of `chunk`: append it, then cut
     * off and hand on every complete line, trimmed, until no '\n' is left.
     * The buffer keeps exactly the text after the last newline.
     */
    method Receive(chunk: string) returns (lines: seq<string>, posts: seq<Post>)
      modifies this
      ensures NoNewline(buffer)
      ensures buffer == SplitLines(old(buffer) + chunk).1
      ensures lines == TrimAll(SplitLines(old(buffer) + chunk).0)
      ensures posts == HandleLines(lines)
    {
      ghost var input := buffer + chunk;
      buffer := buffer + chunk;
      lines, posts := [], [];
      ghost var raw: seq<string> := [];
      var idx := IndexOf(buffer, '\n');
      while idx.Some?
        invariant idx == IndexOf(buffer, '\n')
        invariant JoinLines(raw) + buffer == input
        invariant AllWithoutNewline(raw)
        invariant lines == TrimAll(raw)
        invariant posts == HandleLines(lines)
        decreases |buffer|
      {
        var k := idx.value;
        var line := KotlinTrim(buffer[..k]);
        ReaderStep(raw, buffer, k);
        TrimAllAppend(raw, buffer[..k]);
        HandleLinesAppend(lines, line);
        raw := raw + [buffer[..k]];
        buffer := buffer[k + 1..];
        lines := lines + [line];
        posts := posts + HandleLine(line);
        idx := IndexOf(buffer, '\n');
      }
      SplitLinesUnique(raw, buffer, input);
    }
  }

  /** Moving the first line of the buffer to the emitted lines keeps lines-plus-buffer fixed. */
  lemma ReaderStep(raw: seq<string>, buffer: string, k: nat)
    requires k < |buffer| && buffer[k] == '\n' && '\n' !in buffer[..k]
    requires AllWithoutNewline(raw)
    ensures JoinLines(raw + [buffer[..k]]) + buffer[k + 1..] == JoinLines(raw) + buffer
    ensures AllWithoutNewline(raw + [buffer[..k]])
  {
    JoinLinesAppend(raw, [buffer[..k]]);
    JoinLinesCons(buffer[..k], [], buffer[k + 1..]);
    assert [buffer[..k]] + [] == [buffer[..k]];
    CutAt(buffer, k);
  }

  // ---------------------------------------------------------------- outbound commands

  predicate EndsWithNewline(s: string) {
    |s| > 0 && s[|s| - 1] == '\n'
  }

  /** sendCommand's terminator rule: add '\n' only when the text does not already end with one. */
  function CommandText(command: string): (sent: string)
    ensures EndsWithNewline(sent)
    ensures command <= sent && |sent| <= |command| + 1
    ensures sent == command <==> EndsWithNewline(command)
  {
    if EndsWithNewline(command) then command else command + "\n"
  }

  /** Applying the terminator rule twice changes nothing. */
  lemma CommandTextIdempotent(command: string)
    ensures CommandText(CommandText(command)) == CommandText(command)
  {
  }

  /** A command without a newline of its own reaches the other side's framer as exactly one line. */
  lemma CommandFramesAsOneLine(command: string)
    requires NoNewline(command)
    ensures SplitLines(CommandText(command)) == ([command], [])
  {
    SplitLinesUnique([command], [], CommandText(command));
  }

  /** The text a builder sends for "<verb>:<argument>". */
  function Tagged(verb: string, argument: string): string {
    CommandText(verb + ":" + argument)
  }

  /** pingSlot: PING:<name>, newline-terminated. */
  function PingCommand(slotName: string): (sent: string)
    ensures !EndsWithNewline(slotName) ==> sent == "PING:" + slotName + "\n"
    ensures EndsWithNewline(slotName) ==> sent == "PING:" + slotName
  {
    Tagged("PING", slotName)
  }

  /** disableSlot: DISABLE:<name>, newline-terminated. */
  function DisableCommand(slotName: string): (sent: string)
    ensures !EndsWithNewline(slotName) ==> sent == "DISABLE:" + slotName + "\n"
    ensures EndsWithNewline(slotName) ==> sent == "DISABLE:" + slotName
  {
    Tagged("DISABLE", slotName)
  }

  /** enableSlot: ENABLE:<name>, newline-terminated. */
  function EnableCommand(slotName: string): (sent: string)
    ensures !EndsWithNewline(slotName) ==> sent == "ENABLE:" + slotName + "\n"
    ensures EndsWithNewline(slotName) ==> sent == "ENABLE:" + slotName
  {
    Tagged("ENABLE", slotName)
  }

  /** requestSensorReading: READ:<name>, newline-terminated. */
  function ReadCommand(slotName: string): (sent: string)
    ensures !EndsWithNewline(slotName) ==> sent == "READ:" + slotName + "\n"
    ensures EndsWithNewline(slotName) ==> sent == "READ:" + slotName
  {
    Tagged("READ", slotName)
  }

  /** sendServoAngle: SERVO:<angle> for any angle, with no range check. */
  function ServoCommand(angle: int): (sent: string)
    ensures sent == "SERVO:" + IntToString(angle) + "\n"
  {
    assert !EndsWithNewline("SERVO:" + IntToString(angle));
    Tagged("SERVO", IntToString(angle))
  }

  /** The receiving side reads the angle back from the single line a servo command frames to. */
  lemma ServoAngleReadsBack(angle: int)
    ensures SplitLines(ServoCommand(angle)).0 == ["SERVO:" + IntToString(angle)]
    ensures JsParseInt(Some(Split(SplitLines(ServoCommand(angle)).0[0], ':')[1])) == Some(angle)
  {
    ServoCommandTagged(angle);
    IntCommandOneLine("SERVO", angle);
    IntCommandValue("SERVO", angle);
  }

  lemma ServoCommandTagged(angle: int)
    ensures ServoCommand(angle) == CommandText("SERVO" + ":" + IntToString(angle))
    ensures "SERVO:" + IntToString(angle) == "SERVO" + ":" + IntToString(angle)
  {
    assert ServoCommand(angle) == Tagged("SERVO", IntToString(angle));
  }

  /** A command carrying a number is sent as exactly one line. */
  lemma IntCommandOneLine(verb: string, n: int)
    requires '\n' !in verb
    ensures SplitLines(CommandText(verb + ":" + IntToString(n))).0 == [verb + ":" + IntToString(n)]
  {
    DigitsShape(n);
    TaggedNoNewline(verb, IntToString(n));
    CommandFramesAsOneLine(verb + ":" + IntToString(n));
  }

  /** The second field of a command carrying a number parses back to that number. */
  lemma IntCommandValue(verb: string, n: int)
    requires ':' !in verb
    ensures JsParseInt(Some(Split(verb + ":" + IntToString(n), ':')[1])) == Some(n)
  {
    var digits := IntToString(n);
    DigitsShape(n);
    TaggedSplit(verb, digits);
    SplitNone(digits, ':');
    assert Split(verb + ":" + digits, ':')[1] == digits;
    ParseIntRoundTrip(n);
  }

  lemma TaggedNoNewline(verb: string, argument: string)
    requires '\n' !in verb && '\n' !in argument
    ensures NoNewline(verb + ":" + argument)
  {
    var command := verb + ":" + argument;
    assert forall i :: 0 <= i < |command| ==> command[i] in verb || command[i] == ':' || command[i] in argument;
  }

  lemma TaggedSplit(verb: string, argument: string)
    requires ':' !in verb
    ensures Split(verb + ":" + argument, ':')[1..] == Split(argument, ':')
  {
    assert verb + ":" + argument == verb + [':'] + argument;
    SplitFirst(verb, ':', argument);
  }

  /** sendLCDText: LCD: followed by at most the first 16 characters of the text. */
  function LcdCommand(text: string): (sent: string)
    ensures "LCD:" + Take(text, 16) <= sent
    ensures |sent| <= 4 + 16 + 1
    ensures sent == CommandText("LCD:" + Take(text, 16))
  {
    Tagged("LCD", Take(text, 16))
  }

  /** requestDistance: the fixed text READ_DIST. */
  function ReadDistanceCommand(): (sent: string)
    ensures sent == "READ_DIST\n"
  {
    CommandText("READ_DIST")
  }

  /** The output side of the link: sendData writes only when a stream is open. */
  class CommandPort {
    var streamOpen: bool
    var written: string

    constructor (streamOpen: bool)
      ensures this.streamOpen == streamOpen && written == []
    {
      this.streamOpen := streamOpen;
      written := [];
    }

    /**
     * sendCommand: the terminated text is written when a stream is open and
     * silently skipped, reporting success, when none is. A write that throws
     * an IOException (`writeFailure`) is caught: nothing is written and the
     * call reports failure.
     */
    method SendCommand(command: string, writeFailure: bool) returns (ok: bool)
      modifies this`written
      ensures ok <==> !(streamOpen && writeFailure)
      ensures written == old(written) + (if streamOpen && !writeFailure then CommandText(command) else [])
    {
      var text := CommandText(command);
      if !streamOpen {
        ok := true;
      } else if writeFailure {
        ok := false;
      } else {
        written := written + text;
        ok := true;
      }
    }
  }

  // ---------------------------------------------------------------- discovery list

  predicate HasAddress(devices: seq<DeviceInfo>, address: string) {
    exists i :: 0 <= i < |devices| && devices[i].address == address
  }

  predicate DistinctAddresses(devices: seq<DeviceInfo>) {
    forall i, j :: 0 <= i < j < |devices| ==> devices[i].address != devices[j].address
  }

  /** discoveredDevices: the list shown while scanning. */
  class DiscoveredDevices {
    var devices: seq<DeviceInfo>

    constructor ()
      ensures devices == []
    {
      devices := [];
    }

    /** startDiscovery: the list is cleared and refilled with the paired devices. */
    method StartDiscovery(paired: seq<DeviceInfo>)
      modifies this
      ensures devices == paired
    {
      devices := [];
      devices := devices + paired;
    }

    /**
     * ACTION_FOUND: the device is appended only when no listed device has its
     * address, so a list without duplicate addresses stays so.
     */
    method OnDeviceFound(d: DeviceInfo) returns (added: bool)
      modifies this
      ensures added <==> !HasAddress(old(devices), d.address)
      ensures devices == if added then old(devices) + [d] else old(devices)
      ensures DistinctAddresses(old(devices)) ==> DistinctAddresses(devices)
      ensures HasAddress(devices, d.address)
    {
      added := !HasAddress(devices, d.address);
      if added {
        devices := devices + [d];
        assert devices[|devices| - 1].address == d.address;
      }
    }
  }
}
