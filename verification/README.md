# ParkSense parking control — a Dafny model

ParkSense watches a small car park. An Arduino reads one distance sensor per
slot and reports over a serial Bluetooth link (HC-05). It sends
`SLOT:<name>:<status>`, `SENSOR:<name>:<value>`, `STATUS:<name>:<status>` and
`RSSI:<value>` lines, and accepts `PING:`, `DISABLE:`, `ENABLE:`, `READ:`,
`SERVO:`, `LCD:` and `READ_DIST` commands. Two clients sit on top of the link:

- an Android app (Kotlin): a line-framed Bluetooth reader, a repository over the
  parking tables (slots, slot statuses, sessions), the dashboard slot list and
  slot dialog, the statistics page, and the peak-hours chart and progress ring
  views;
- a web / React Native client (TypeScript): the Bluetooth hook that decodes
  Arduino lines into live slot state and saves finished sessions, the parking
  store hook with its admin actions, the history hook, and the slot card,
  details sheet, header and theme helpers.

The model follows the source's own split. Pure helpers become functions with
named results and lemmas. Objects that change state become classes whose
methods are specified by those functions:

- the Bluetooth line reader and command port;
- the discovered-device list;
- the Android repository and the web parking store;
- the chart and the progress ring;
- the slot list adapter and the web Bluetooth hook.

Loops that count or aggregate become methods with loop invariants. Examples
are the hour histogram, the daily-statistics aggregation and today's window.

Main properties proved:

- **Framing.** Bluetooth framing splits a stream into the same lines however it
  is cut into chunks. A command always frames as exactly one line.
- **Slot updates.** The SLOT and STATUS lines are decoded exactly. The web client
  saves a session exactly when a parked slot is vacated. The Android repository
  records one only when its stored start time parses, which its own timestamp
  pattern prevents (see Findings). The "occupied since" field stays
  consistent with the slot's status.
- **Billing.** Every billing rule is monotone in time and takes the documented
  values at the 120- and 180-minute thresholds. The web sheet and the theme
  helper agree.
- **Ordering.** The name-sorted slot table stays sorted when a slot is inserted.
  The reset slots P1..P5 come back in order.
- **Statistics.** The daily aggregation represents its sessions exactly:
  - one record per date, newest first;
  - each record counts exactly that date's sessions.
- **Chart.** The hour histogram counts each session in 6..23 exactly once.
- **Duration formats.** The Android formats agree with the web formats on whole
  minutes.

Times are integers in milliseconds. Dates are opaque strings, and parsing them
is a parameter (`parse: string -> Option<int>`). Money and fractions are exact
reals.

## Model

Source paths are relative to the repository root.

| member | source | states |
|---|---|---|
| Strings.Split | frontend/hooks/use-bluetooth.ts:208 | splitting on a separator gives parts that contain no separator and that join back to the input |
| Strings.SplitJoin | frontend/hooks/use-bluetooth.ts:208 | splitting a join of separator-free parts gives the parts back |
| Strings.Trim | frontend/hooks/use-bluetooth.ts:205-208 | JavaScript trim(): the result is a slice of the input with only whitespace before and after it, and it neither starts nor ends with whitespace |
| Strings.KotlinTrim | android_app/app/src/main/java/com/parksense/android/bluetooth/BluetoothManager.kt:261 | Kotlin trim(), on Kotlin's wider whitespace set (U+001C to U+001F included): the result neither starts nor ends with such whitespace |
| Strings.KotlinTrimSlice | android_app/app/src/main/java/com/parksense/android/bluetooth/BluetoothManager.kt:261 | Kotlin trim() returns a slice of its input with only Kotlin whitespace before and after it |
| Strings.NatToString | android_app/app/src/main/java/com/parksense/android/ui/adapter/SessionAdapter.kt:39 | the decimal text of n is all digits and reads back as n |
| Strings.ParseIntRoundTrip | frontend/hooks/use-bluetooth.ts:217 | parseInt of the decimal text of any integer gives that integer back |
| Strings.ParseIntIgnoresTail | frontend/hooks/use-bluetooth.ts:217 | parseInt reads only the leading digits and ignores what follows them |
| Strings.Pad2 | android_app/app/src/main/java/com/parksense/android/ui/fragments/StatisticsFragment.kt:83 | %02d: a single digit gets a leading zero, and larger numbers print in full |
| Strings.TakeLast | android_app/app/src/main/java/com/parksense/android/ui/adapter/SessionAdapter.kt:28 | takeLast(n) is the suffix of length min(n, len) |
| Strings.LexLessTransitive | android_app/app/src/main/java/com/parksense/android/data/api/SupabaseApi.kt:12 | name order is transitive |
| Strings.LexLessTotal | android_app/app/src/main/java/com/parksense/android/data/api/SupabaseApi.kt:12 | any two different names are ordered one way or the other |
| Strings.TruncDiv | android_app/app/src/main/java/com/parksense/android/data/repository/ParkingRepository.kt:328 | Kotlin `/` truncates toward zero: the remainder a - q·b lies in [0, b) for a ≥ 0 and in (-b, 0] for a < 0 |
| Strings.RoundCents | frontend/constants/theme.ts:253 | Math.round(x*100)/100 lies within half a cent of x |
| Strings.RoundCentsMonotone | frontend/constants/theme.ts:253 | rounding to cents never reverses an order |
| BluetoothDevices.DisplayName | android_app/app/src/main/java/com/parksense/android/bluetooth/BluetoothDeviceInfo.kt:3-11 | a device without a name is shown as "Unknown Device", and otherwise by its name |
| BluetoothDevices.FoundDevice | android_app/app/src/main/java/com/parksense/android/bluetooth/BluetoothManager.kt:55-78 | a discovery result carries its bond state, and its RSSI exactly when the radio reported one |
| BluetoothDevices.PairedDevice | android_app/app/src/main/java/com/parksense/android/bluetooth/BluetoothManager.kt:114-128 | a bonded device is listed as paired with no RSSI |
| BluetoothLink.SplitLines | android_app/app/src/main/java/com/parksense/android/bluetooth/BluetoothManager.kt:259-265 | the buffer is cut at every newline: newline-free lines plus a newline-free rest that rejoin to the buffer |
| BluetoothLink.SplitLinesUnique | android_app/app/src/main/java/com/parksense/android/bluetooth/BluetoothManager.kt:259-265 | that cut is the only one with those properties |
| BluetoothLink.ChunkIndependence | android_app/app/src/main/java/com/parksense/android/bluetooth/BluetoothManager.kt:252-265 | reading a then b yields the same lines and the same leftover as reading a + b at once |
| BluetoothLink.JoinLinesAppend | android_app/app/src/main/java/com/parksense/android/bluetooth/BluetoothManager.kt:259-265 | framing distributes over concatenation of line lists |
| BluetoothLink.ReaderStep | android_app/app/src/main/java/com/parksense/android/bluetooth/BluetoothManager.kt:259-264 | extracting the first line keeps the invariant "emitted lines + buffer == everything received" |
| BluetoothLink.LineReader.Receive | android_app/app/src/main/java/com/parksense/android/bluetooth/BluetoothManager.kt:246-265 | after a chunk the buffer holds the unterminated rest, and the trimmed complete lines and their posts are emitted in order |
| BluetoothLink.HandleLine | android_app/app/src/main/java/com/parksense/android/bluetooth/BluetoothManager.kt:286-306 | every line is forwarded raw; a slot update is posted first only for a SLOT: line |
| BluetoothLink.SlotLineRecognised | android_app/app/src/main/java/com/parksense/android/bluetooth/BluetoothManager.kt:290-298 | SLOT:name:status (with any extra fields) posts exactly that name and the lower-cased status, then the raw line |
| BluetoothLink.SlotLineFields | android_app/app/src/main/java/com/parksense/android/bluetooth/BluetoothManager.kt:290-294 | such a line splits into SLOT, the name, the status and the extra fields |
| BluetoothLink.OtherLinesOnlyForwarded | android_app/app/src/main/java/com/parksense/android/bluetooth/BluetoothManager.kt:286-306 | a line not starting with SLOT: only posts the raw line |
| BluetoothLink.ShortSlotLineOnlyForwarded | android_app/app/src/main/java/com/parksense/android/bluetooth/BluetoothManager.kt:290-292 | SLOT:name without a status field posts no slot update |
| BluetoothLink.HandleLinesAppend | android_app/app/src/main/java/com/parksense/android/bluetooth/BluetoothManager.kt:259-265 | the posts of the lines received so far grow by exactly the new line's posts |
| BluetoothLink.TrimAllAppend | android_app/app/src/main/java/com/parksense/android/bluetooth/BluetoothManager.kt:261 | each new line is trimmed by itself |
| BluetoothLink.CommandText | android_app/app/src/main/java/com/parksense/android/bluetooth/BluetoothManager.kt:361-364 | a newline is appended exactly when the command does not already end in one |
| BluetoothLink.CommandTextIdempotent | android_app/app/src/main/java/com/parksense/android/bluetooth/BluetoothManager.kt:361-364 | framing an already framed command changes nothing |
| BluetoothLink.CommandFramesAsOneLine | android_app/app/src/main/java/com/parksense/android/bluetooth/BluetoothManager.kt:361-364 | the receiver's line framing reads a sent newline-free command back as exactly one line with nothing left over |
| BluetoothLink.PingCommand | android_app/app/src/main/java/com/parksense/android/bluetooth/BluetoothManager.kt:373-379 | PING:<slot> followed by a newline |
| BluetoothLink.DisableCommand | android_app/app/src/main/java/com/parksense/android/bluetooth/BluetoothManager.kt:381-387 | DISABLE:<slot> followed by a newline |
| BluetoothLink.EnableCommand | android_app/app/src/main/java/com/parksense/android/bluetooth/BluetoothManager.kt:389-395 | ENABLE:<slot> followed by a newline |
| BluetoothLink.ReadCommand | android_app/app/src/main/java/com/parksense/android/bluetooth/BluetoothManager.kt:397-402 | READ:<slot> followed by a newline |
| BluetoothLink.ServoCommand | android_app/app/src/main/java/com/parksense/android/bluetooth/BluetoothManager.kt:404-409 | SERVO:<angle> followed by a newline |
| BluetoothLink.ServoAngleReadsBack | android_app/app/src/main/java/com/parksense/android/bluetooth/BluetoothManager.kt:404-409 | the framed servo command is one line whose second field parses back to the angle |
| BluetoothLink.LcdCommand | android_app/app/src/main/java/com/parksense/android/bluetooth/BluetoothManager.kt:411-417 | LCD: and at most the first 16 characters of the text, framed, at most 21 characters |
| BluetoothLink.ReadDistanceCommand | android_app/app/src/main/java/com/parksense/android/bluetooth/BluetoothManager.kt:419-421 | the distance request is READ_DIST and a newline |
| BluetoothLink.CommandPort.SendCommand | android_app/app/src/main/java/com/parksense/android/bluetooth/BluetoothManager.kt:347-364 | the framed command is appended when a stream is open and the write succeeds; with no stream nothing is written and success is reported; a write that throws writes nothing and reports failure |
| BluetoothLink.DiscoveredDevices.StartDiscovery | android_app/app/src/main/java/com/parksense/android/bluetooth/BluetoothManager.kt:131-146 | the list restarts from the paired devices |
| BluetoothLink.DiscoveredDevices.OnDeviceFound | android_app/app/src/main/java/com/parksense/android/bluetooth/BluetoothManager.kt:75-78 | a device is appended iff its address is new; addresses stay distinct |
| Theme.ProgressColor | frontend/constants/theme.ts:195-209 | red when overtime or no time remains, otherwise green / blue / pink above 50% / 15% / 0% remaining |
| Theme.ProgressColorMonotone | frontend/constants/theme.ts:195-209 | less time remaining never gives a less urgent colour |
| Theme.GetBluetoothStatus | frontend/constants/theme.ts:212-226 | disconnected iff not connected or no RSSI; strong above -60, weak above -80, otherwise no connection; colour follows the label |
| Theme.BluetoothStatusMonotone | frontend/constants/theme.ts:219-225 | a stronger RSSI never gives a worse label |
| Theme.HourlyChargeAsSurcharge | frontend/constants/theme.ts:243-250 | the overtime charge is the regular charge on all minutes plus a surcharge on the minutes past 180 |
| Theme.HourlyChargeContinuous | frontend/constants/theme.ts:243-250 | the two billing branches meet at 180 minutes (75.00) |
| Theme.HourlyChargeMonotone | frontend/constants/theme.ts:243-250 | the charge never decreases with time |
| Theme.ChargeNonNegative | frontend/constants/theme.ts:243-253 | no negative charge for a non-negative stay, before or after rounding |
| Theme.MinutesBetween | frontend/constants/theme.ts:239 | whole minutes elapsed, floored |
| Theme.CalculateBilling | frontend/constants/theme.ts:229-257 | no start gives 0; otherwise minutes elapsed, overtime iff past 180 minutes, the amount rounded to cents and not negative |
| Theme.CalculateBillingMonotone | frontend/constants/theme.ts:229-257 | a later "now" never bills less |
| Theme.CalculateBillingThreshold | frontend/constants/theme.ts:240 | 180 minutes bills 75.00 without overtime; 181 minutes is overtime |
| BillingConfig.CalculateBilling | android_app/app/src/main/java/com/parksense/android/data/BillingConfig.kt:19-29 | overtime iff past 120 minutes, with the overtime rate exactly in that case and the base rate otherwise |
| BillingConfig.CalculateBillingBoundary | android_app/app/src/main/java/com/parksense/android/data/BillingConfig.kt:19-29 | 120 minutes bills 25 flat; 121 minutes bills 100 overtime |
| BillingConfig.CalculateBillingMonotone | android_app/app/src/main/java/com/parksense/android/data/BillingConfig.kt:19-29 | the amount never decreases with time |
| BillingConfig.CalculateBillingNonPositive | android_app/app/src/main/java/com/parksense/android/data/BillingConfig.kt:19-29 | a zero or negative stay bills the flat rate |
| ParkingModels.StatusOrVacant | android_app/app/src/main/java/com/parksense/android/ui/SlotAdapter.kt:41 | a slot without a status row counts as vacant |
| ParkingModels.LocalTimestamp | android_app/app/src/main/java/com/parksense/android/data/repository/ParkingRepository.kt:324 | the offset suffix is cut at the first '+' or 'Z', leaving a prefix with neither; a bare local time is unchanged |
| Repository.EndedOn | android_app/app/src/main/java/com/parksense/android/data/repository/ParkingRepository.kt:52-55 | keeps exactly the sessions whose ended_at text starts with today's date, and no more sessions than it was given |
| Repository.CalculateTodayStats | android_app/app/src/main/java/com/parksense/android/data/repository/ParkingRepository.kt:47-64 | today's count and revenue; usage is 5% per session, reaching 100 exactly at 20 sessions, and capped there |
| Repository.EndedOnAppend | android_app/app/src/main/java/com/parksense/android/data/repository/ParkingRepository.kt:52-55 | one more session extends today's list by itself exactly when it ended today |
| Repository.UsageRateMonotone | android_app/app/src/main/java/com/parksense/android/data/repository/ParkingRepository.kt:57 | more sessions never lower the usage rate |
| Repository.DurationMinutes | android_app/app/src/main/java/com/parksense/android/data/repository/ParkingRepository.kt:328 | the whole minutes between start and end, truncated toward zero |
| Repository.SessionCharge | android_app/app/src/main/java/com/parksense/android/data/repository/ParkingRepository.kt:330-337 | overtime iff past the allowed minutes; otherwise 20.00, and in overtime at least 20.50 |
| Repository.SessionChargeByExcess | android_app/app/src/main/java/com/parksense/android/data/repository/ParkingRepository.kt:330-337 | the charge is 20.00 plus 0.50 per minute past the allowance |
| Repository.SessionChargeMonotone | android_app/app/src/main/java/com/parksense/android/data/repository/ParkingRepository.kt:330-337 | a longer stay never costs less |
| Repository.SessionChargeBoundary | android_app/app/src/main/java/com/parksense/android/data/repository/ParkingRepository.kt:330-337 | exactly the allowance costs 20.00; one minute more costs 20.50 and is overtime |
| Repository.SessionRecord | android_app/app/src/main/java/com/parksense/android/data/repository/ParkingRepository.kt:316-358 | a session record carries the slot, the parsed start, now as its end, the duration and the charge |
| Repository.UpdateBody | android_app/app/src/main/java/com/parksense/android/data/repository/ParkingRepository.kt:280-299 | occupied stamps the start, vacant clears it, any other status keeps it; the status and update time are replaced |
| Repository.UpdateBodySince | android_app/app/src/main/java/com/parksense/android/data/repository/ParkingRepository.kt:280-299 | occupied and vacant restore "start present iff parked"; overtime keeps it iff the slot was parked |
| Repository.UpdateRow | android_app/app/src/main/java/com/parksense/android/data/repository/ParkingRepository.kt:280-301 | only the slot's status row changes, and only when it has one |
| Repository.FindByName | android_app/app/src/main/java/com/parksense/android/data/repository/ParkingRepository.kt:264 | the first slot whose name matches ignoring case, or none iff no slot matches |
| Repository.InsertByName | android_app/app/src/main/java/com/parksense/android/data/api/SupabaseApi.kt:12 | the table gains exactly the new row |
| Repository.InsertByNameSorted | android_app/app/src/main/java/com/parksense/android/data/api/SupabaseApi.kt:12 | the table read back stays ordered by name |
| Repository.InsertByNameAtEnd | android_app/app/src/main/java/com/parksense/android/data/api/SupabaseApi.kt:12 | a name after every existing name goes last |
| Repository.VirtualSlot | android_app/app/src/main/java/com/parksense/android/data/repository/ParkingRepository.kt:73-118 | slot P<n+1>, 60 allowed minutes, enabled, a placeholder, with a status row and no start time |
| Repository.VacateRow | android_app/app/src/main/java/com/parksense/android/data/repository/ParkingRepository.kt:152-169 | occupied and overtime slots become vacant with no start; others are unchanged |
| Repository.ToggledStatus | android_app/app/src/main/java/com/parksense/android/data/repository/ParkingRepository.kt:184-185 | vacant (or no status) flips to occupied, and anything else flips to vacant |
| Repository.ToggleRow | android_app/app/src/main/java/com/parksense/android/data/repository/ParkingRepository.kt:184-195 | the flipped status is written with a start time only when occupied |
| Repository.ToggleTwice | android_app/app/src/main/java/com/parksense/android/data/repository/ParkingRepository.kt:184-185 | two flips bring a slot back to vacant exactly when it started vacant |
| Repository.DefaultSlot | android_app/app/src/main/java/com/parksense/android/data/repository/ParkingRepository.kt:223-240 | P<i>, 60 minutes, enabled, not a placeholder, vacant |
| Repository.DefaultSlots | android_app/app/src/main/java/com/parksense/android/data/repository/ParkingRepository.kt:223-241 | the first n default slots in order |
| Repository.DigitNamesOrdered | android_app/app/src/main/java/com/parksense/android/data/repository/ParkingRepository.kt:227 | P1 < P2 < ... < P5 in name order |
| Repository.DefaultSlotsSorted | android_app/app/src/main/java/com/parksense/android/data/repository/ParkingRepository.kt:223-241 | the reset table is ordered by name |
| Repository.DefaultSlotsGrow | android_app/app/src/main/java/com/parksense/android/data/repository/ParkingRepository.kt:223-241 | inserting P<n> into P1..P<n-1> appends it |
| Repository.RemoveId | android_app/app/src/main/java/com/parksense/android/data/repository/ParkingRepository.kt:217-220 | deleting by id removes exactly the rows with that id |
| Repository.RemovalStep | android_app/app/src/main/java/com/parksense/android/data/repository/ParkingRepository.kt:217-220 | after deleting the i-th existing row only later rows can remain |
| Repository.ParkingRepository.AddVirtualSlot | android_app/app/src/main/java/com/parksense/android/data/repository/ParkingRepository.kt:73-118 | the table gains exactly the virtual slot, in name order |
| Repository.ParkingRepository.RemoveLastSlot | android_app/app/src/main/java/com/parksense/android/data/repository/ParkingRepository.kt:123-147 | "No slots to remove" on an empty table; otherwise the last row by name goes |
| Repository.ParkingRepository.VacateAllSlots | android_app/app/src/main/java/com/parksense/android/data/repository/ParkingRepository.kt:152-169 | every row is vacated by VacateRow; afterwards no slot is parked |
| Repository.ParkingRepository.SimulateTraffic | android_app/app/src/main/java/com/parksense/android/data/repository/ParkingRepository.kt:174-205 | "No slots available" on an empty table; otherwise the picked slot is toggled and reported |
| Repository.ParkingRepository.ResetParkingSlots | android_app/app/src/main/java/com/parksense/android/data/repository/ParkingRepository.kt:210-247 | the table becomes exactly P1..P5, all vacant |
| Repository.ParkingRepository.UpdateSlotStatusByName | android_app/app/src/main/java/com/parksense/android/data/repository/ParkingRepository.kt:258-311 | an unknown name fails and changes nothing; otherwise the row is updated, and a parked-to-vacant change records one session when the start time parses (see Findings) |
| Repository.NoSessionAsWritten | android_app/app/src/main/java/com/parksense/android/data/repository/ParkingRepository.kt:272-324 | with a parser that needs the pattern's literal 'Z', the start time cut before '+' and 'Z' never parses, so no session record is built |
| SlotDetails.JsTrunc | frontend/components/SlotDetailsModal.tsx:40-42 | Math.trunc: the integer part of x, at most x and within one of it for x ≥ 0, at least x and within one of it for x < 0 |
| SlotDetails.Parts | frontend/components/SlotDetailsModal.tsx:39-43 | hours and minutes of a stay, with minutes and seconds below 60 |
| SlotDetails.PartsOfSeconds | frontend/components/SlotDetailsModal.tsx:39-43 | for a whole number of seconds the parts are hours, minutes and seconds exactly |
| SlotDetails.PartsOfMinutes | frontend/components/SlotDetailsModal.tsx:39-43 | for whole minutes the seconds are zero |
| SlotDetails.FormatDurationOfSeconds | frontend/components/SlotDetailsModal.tsx:39-43 | "HHh : MMm : SSs" with the exact parts, zero-padded |
| SlotDetails.CalculateBilling | frontend/components/SlotDetailsModal.tsx:46-63 | overtime iff past 180 minutes; the amount is the theme's hourly charge rounded to cents |
| SlotDetails.CalculateBillingAgreesWithTheme | frontend/components/SlotDetailsModal.tsx:46-63 | the sheet bills the same amount and overtime flag as the theme helper |
| SlotDetails.CalculateBillingMonotone | frontend/components/SlotDetailsModal.tsx:46-63 | the amount never decreases with time |
| SlotDetails.SensorPercent | frontend/components/SlotDetailsModal.tsx:136 | 0 reads as 0%, 1023 as 100%, and the range stays within 0..100 |
| SlotDetails.SensorPercentMonotone | frontend/components/SlotDetailsModal.tsx:136 | a higher reading never shows a lower percentage |
| SlotDetails.StatusLabel | frontend/components/SlotDetailsModal.tsx:126-133 | the upper-cased status for the four known statuses, and empty otherwise |
| SlotDetails.StatusColor | frontend/components/SlotDetailsModal.tsx:116-124 | green when occupied, red in overtime, grey otherwise |
| SlotDetails.ActionLabel | frontend/components/SlotDetailsModal.tsx:206 | ENABLE iff the slot is disabled, otherwise DISABLE |
| SlotCard.ElapsedMinutes | frontend/components/SlotCard.tsx:38-43 | zero unless occupied or overtime with a start; otherwise whole minutes elapsed |
| SlotCard.FormatDurationOfSeconds | frontend/components/SlotCard.tsx:21-26 | "HHh:MMm:SSs" with the exact parts, zero-padded |
| SlotCard.Progress | frontend/components/SlotCard.tsx:117-119 | duration over allowance, capped at 1, and 0 without an allowance |
| SlotCard.ProgressMonotone | frontend/components/SlotCard.tsx:117-119 | progress never decreases with time |
| SlotCard.GetStatusInfo | frontend/components/SlotCard.tsx:64-115 | the label and colours per status; names are greyed exactly for vacant, disabled and add cards; the border is red only for disabled |
| History.DateOfShape | frontend/hooks/use-parking-history.ts:96 | a session's date is its end time before the 'T' |
| History.Tally | frontend/hooks/use-parking-history.ts:98-113 | the count of sessions, with overtime sessions between 0 and that count |
| History.OnDate | frontend/hooks/use-parking-history.ts:96 | exactly the sessions of the given date |
| History.RecordDatesAndTotal | frontend/hooks/use-parking-history.ts:95-114 | one more session adds its date and one to the total |
| History.RecordNewerFirst | frontend/hooks/use-parking-history.ts:116-118 | the records stay strictly newest first |
| History.RecordContents | frontend/hooks/use-parking-history.ts:98-113 | only the session's own date changes, updated from the existing record or a fresh zero |
| History.SummarizeStep | frontend/hooks/use-parking-history.ts:98-113 | the per-date summary grows by the session exactly on its date |
| History.RecordRepresents | frontend/hooks/use-parking-history.ts:92-118 | the invariant "one record per date holding exactly that date's totals" is kept |
| History.AggregateRepresents | frontend/hooks/use-parking-history.ts:92-118 | the aggregate of any session list satisfies that invariant |
| History.AggregateRecords | frontend/hooks/use-parking-history.ts:92-118 | each record counts at least one session, with overtime at most the total |
| History.CalculateDailyStats | frontend/hooks/use-parking-history.ts:92-118 | the loop computes the aggregate, which represents the sessions |
| History.InWindow | frontend/hooks/use-parking-history.ts:129-132 | exactly the sessions that ended within [today, tomorrow) |
| History.CalculateTodayStats | frontend/hooks/use-parking-history.ts:122-154 | today's stats tally exactly the sessions in the window |
| History.CountAll | frontend/hooks/use-parking-history.ts:134-145 | the four counters the forEach leaves are the tally of the sessions it walked |
| History.TodayOrZero | frontend/hooks/use-parking-history.ts:172-178 | the first record, or zeros when there is none |
| History.GetTodayStats | frontend/hooks/use-parking-history.ts:157-178 | cached sessions are tallied when present; otherwise today's fetched sessions are aggregated, and zero when there are none |
| LineChart.Histogram | android_app/app/src/main/java/com/parksense/android/ui/views/LineChartView.kt:69-81 | 18 buckets; bucket k counts the sessions starting in hour k+6 |
| LineChart.HistogramStep | android_app/app/src/main/java/com/parksense/android/ui/views/LineChartView.kt:73-78 | one more session raises only its own hour's bucket, and only when it is within 6..23 |
| LineChart.HistogramTotal | android_app/app/src/main/java/com/parksense/android/ui/views/LineChartView.kt:69-81 | the buckets add up to the number of sessions within 6..23 |
| LineChart.MaxVal | android_app/app/src/main/java/com/parksense/android/ui/views/LineChartView.kt:99 | at least 5, at least every count, and either 5 or one of the counts |
| LineChart.YStep | android_app/app/src/main/java/com/parksense/android/ui/views/LineChartView.kt:117 | a fifth of the maximum, truncated, but at least 1 |
| LineChart.YLabels | android_app/app/src/main/java/com/parksense/android/ui/views/LineChartView.kt:117-122 | five labels (5-i)*step, strictly decreasing, the top not above the maximum |
| LineChart.HistogramFitsScale | android_app/app/src/main/java/com/parksense/android/ui/views/LineChartView.kt:99 | every histogram point lies between 0 and the scale's top |
| LineChart.LineChartView.SetData | android_app/app/src/main/java/com/parksense/android/ui/views/LineChartView.kt:64-67 | the chart shows exactly the given counts |
| LineChart.LineChartView.SetDataFromSessions | android_app/app/src/main/java/com/parksense/android/ui/views/LineChartView.kt:69-81 | the chart shows the histogram of the session hours, totalling the sessions within 6..23 |
| CircularProgress.Clamp01 | android_app/app/src/main/java/com/parksense/android/ui/views/CircularProgressView.kt:49 | coerceIn(0, 1) |
| CircularProgress.ProgressColor | android_app/app/src/main/java/com/parksense/android/ui/views/CircularProgressView.kt:57-74 | grey when disabled or vacant, red in overtime, and otherwise green / blue / pink / red by the fraction remaining, each iff its band |
| CircularProgress.FullProgressIsRed | android_app/app/src/main/java/com/parksense/android/ui/views/CircularProgressView.kt:57-74 | a used-up ring is red even without the overtime flag |
| CircularProgress.AgreesWithTheme | android_app/app/src/main/java/com/parksense/android/ui/views/CircularProgressView.kt:57-74 | a running slot's ring colour is the web theme's colour for the same remaining fraction |
| CircularProgress.VisualFill | android_app/app/src/main/java/com/parksense/android/ui/views/CircularProgressView.kt:97-99 | a full ring in overtime, otherwise the fraction remaining |
| CircularProgress.SweepWithinTurn | android_app/app/src/main/java/com/parksense/android/ui/views/CircularProgressView.kt:97-99 | the drawn sweep stays within 0..360 degrees |
| CircularProgress.CircularProgressView.Sweep | android_app/app/src/main/java/com/parksense/android/ui/views/CircularProgressView.kt:97-99 | the view's sweep angle is within one turn |
| CircularProgress.CircularProgressView.SetProgress | android_app/app/src/main/java/com/parksense/android/ui/views/CircularProgressView.kt:48-55 | the progress is clamped, the flags are replaced and the paint matches them |
| CircularProgress.CircularProgressView.UpdateProgressColor | android_app/app/src/main/java/com/parksense/android/ui/views/CircularProgressView.kt:57-74 | the paint follows the progress and flags, which are unchanged |
| SlotAdapter.ElapsedMinutes | android_app/app/src/main/java/com/parksense/android/ui/SlotAdapter.kt:66-75 | 0 when the time does not parse; otherwise whole minutes since the start, truncated |
| SlotAdapter.FormatDurationAgreesWithCard | android_app/app/src/main/java/com/parksense/android/ui/SlotAdapter.kt:77-81 | the Android timer text equals the web card's text for the same whole minutes |
| SlotAdapter.TimerZeroIsZeroMinutes | android_app/app/src/main/java/com/parksense/android/ui/SlotAdapter.kt:61 | the idle timer text is the formatted zero |
| SlotAdapter.StatusColor | android_app/app/src/main/java/com/parksense/android/ui/SlotAdapter.kt:45-50 | green, red, light grey for occupied, overtime, disabled; grey otherwise |
| SlotAdapter.Bind | android_app/app/src/main/java/com/parksense/android/ui/SlotAdapter.kt:38-64 | name, upper-cased status and colour; the timer is zero unless parked, and a parked slot without a start keeps its old timer |
| SlotAdapter.MissingStatusShowsVacant | android_app/app/src/main/java/com/parksense/android/ui/SlotAdapter.kt:41-62 | a slot with no status row shows VACANT in grey with a zero timer |
| SlotAdapter.SlotListAdapter.UpdateSlots | android_app/app/src/main/java/com/parksense/android/ui/SlotAdapter.kt:16-19 | the list is replaced, and the count is its length |
| SlotAdapter.SlotListAdapter.RowAt | android_app/app/src/main/java/com/parksense/android/ui/SlotAdapter.kt:27-31 | the row at a position is that slot bound with the previous timer: its name, its upper-cased status (vacant when missing) and that status's colour |
| Dashboard.FormatDurationAgreesWithSheet | android_app/app/src/main/java/com/parksense/android/ui/fragments/DashboardFragment.kt:249-254 | the dialog's duration equals the web sheet's text for the same whole minutes |
| Dashboard.DurationZeroIsZeroMinutes | android_app/app/src/main/java/com/parksense/android/ui/fragments/DashboardFragment.kt:232 | the idle duration text is the formatted zero |
| Dashboard.UpdateDialogTime | android_app/app/src/main/java/com/parksense/android/ui/fragments/DashboardFragment.kt:199-236 | a parked slot with a start is billed by BillingConfig on its elapsed minutes; otherwise zero, 0.00 and flat |
| Dashboard.RateLabelMatchesAmount | android_app/app/src/main/java/com/parksense/android/ui/fragments/DashboardFragment.kt:227-229 | the rate says overtime exactly when 100 is billed |
| Dashboard.StatusColor | android_app/app/src/main/java/com/parksense/android/ui/fragments/DashboardFragment.kt:95-104 | the dialog colours a status as the web sheet does, and a slot without a status grey |
| Dashboard.ToggleCommand | android_app/app/src/main/java/com/parksense/android/ui/fragments/DashboardFragment.kt:133-149 | nothing is sent when disconnected; otherwise ENABLE for a disabled slot and DISABLE for an enabled one |
| Dashboard.ToggleSendsOneLine | android_app/app/src/main/java/com/parksense/android/ui/fragments/DashboardFragment.kt:145-149 | the toggle reaches the Arduino as exactly one line VERB:name |
| SessionAdapter.HourTenths | android_app/app/src/main/java/com/parksense/android/ui/adapter/SessionAdapter.kt:41 | %.1f of minutes/60: the nearest tenth of an hour |
| SessionAdapter.TenthsText | android_app/app/src/main/java/com/parksense/android/ui/adapter/SessionAdapter.kt:41 | digits, a point and one digit, which read back as the number of tenths |
| SessionAdapter.FormatDuration | android_app/app/src/main/java/com/parksense/android/ui/adapter/SessionAdapter.kt:37-43 | "<m>m" under an hour, "<h>h" on whole hours, otherwise tenths of hours; the unit is m iff under an hour |
| SessionAdapter.WholeHoursReadBack | android_app/app/src/main/java/com/parksense/android/ui/adapter/SessionAdapter.kt:40 | whole hours print as digits that read back as the hours |
| SessionAdapter.MoneyText | android_app/app/src/main/java/com/parksense/android/ui/adapter/SessionAdapter.kt:31 | %.2f: at least "0.00", ending in a digit, the cents rounded half up |
| SessionAdapter.MoneyTextIsRoundedCents | android_app/app/src/main/java/com/parksense/android/ui/adapter/SessionAdapter.kt:31 | the printed amount is the amount rounded to cents |
| SessionAdapter.ShortId | android_app/app/src/main/java/com/parksense/android/ui/adapter/SessionAdapter.kt:28 | ".." and the last four characters of the id |
| SessionAdapter.RowText | android_app/app/src/main/java/com/parksense/android/ui/adapter/SessionAdapter.kt:27-35 | the row starts with the short id and three spaces, and ends in '*' exactly for an overtime session |
| SessionAdapter.RowTextLayout | android_app/app/src/main/java/com/parksense/android/ui/adapter/SessionAdapter.kt:27-34 | the row is the short id, three spaces, the slot name padded to 5, a space, the duration padded to 6, a space, the amount and, for overtime, a star |
| Statistics.Uptime | android_app/app/src/main/java/com/parksense/android/ui/fragments/StatisticsFragment.kt:174-177 | hours, minutes and seconds of the elapsed time, with minutes and seconds below 60, recomposing to it less the milliseconds |
| Statistics.UptimeIgnoresMillis | android_app/app/src/main/java/com/parksense/android/ui/fragments/StatisticsFragment.kt:174-177 | milliseconds never change the shown uptime |
| Statistics.ClockUnique | android_app/app/src/main/java/com/parksense/android/ui/fragments/StatisticsFragment.kt:174-177 | a clock with fields in range is determined by the time it denotes |
| Statistics.DateLabel | android_app/app/src/main/java/com/parksense/android/ui/fragments/StatisticsFragment.kt:76-87 | the label starts with the month word and a colon |
| Statistics.DateLabelFields | android_app/app/src/main/java/com/parksense/android/ui/fragments/StatisticsFragment.kt:76-87 | the label splits into month word, two-digit day and year, and the day reads back |
| Statistics.RecentSessions | android_app/app/src/main/java/com/parksense/android/ui/fragments/StatisticsFragment.kt:110-119 | the empty state iff there are no sessions; otherwise the first four, or all when fewer |
| Statistics.AddLog | android_app/app/src/main/java/com/parksense/android/ui/fragments/StatisticsFragment.kt:192-197 | the new entry is put before the existing log, which is kept whole |
| Statistics.NewestFirst | android_app/app/src/main/java/com/parksense/android/ui/fragments/StatisticsFragment.kt:192-197 | the first line of the log is the newest entry |
| WebBluetooth.SaveParkingSession | frontend/hooks/use-bluetooth.ts:66-109 | whole minutes floored, overtime iff past 180 minutes, and charged the theme's live billing at the end time, rounded to cents |
| WebBluetooth.NextSince | frontend/hooks/use-bluetooth.ts:280-285 | a start time exactly while parked; restamped on vacant-to-occupied or when none was kept, otherwise kept |
| WebBluetooth.SessionSavedIff | frontend/hooks/use-bluetooth.ts:271-277 | a session is saved exactly when a parked slot with a start becomes vacant |
| WebBluetooth.UpdateOnlyTouchesSlot | frontend/hooks/use-bluetooth.ts:264-294 | a STATUS line changes only its own slot |
| WebBluetooth.UpdateKeepsSinceInvariant | frontend/hooks/use-bluetooth.ts:264-294 | "start present iff not vacant" is kept, and saved sessions are only added |
| WebBluetooth.OccupiedKeepsStart | frontend/hooks/use-bluetooth.ts:283-284 | repeated occupied reports keep the original start |
| WebBluetooth.ApplyLinesKeepsSinceInvariant | frontend/hooks/use-bluetooth.ts:204-316 | any sequence of decoded lines keeps that invariant |
| WebBluetooth.LineWithoutFieldsIgnored | frontend/hooks/use-bluetooth.ts:208-209 | a line with no colon changes nothing |
| WebBluetooth.SensorLine | frontend/hooks/use-bluetooth.ts:216-252 | SENSOR:name:value (any case) decodes to that reading |
| WebBluetooth.SensorWithoutValueIgnored | frontend/hooks/use-bluetooth.ts:216-218 | a SENSOR line with an empty value is dropped |
| WebBluetooth.StatusLine | frontend/hooks/use-bluetooth.ts:259-263 | STATUS:name:word decodes to that status when the word is known, and is ignored otherwise |
| WebBluetooth.StatusWithoutWordIgnored | frontend/hooks/use-bluetooth.ts:261-263 | STATUS:name without a word is ignored |
| WebBluetooth.RssiLine | frontend/hooks/use-bluetooth.ts:306-311 | RSSI:value decodes to that signal |
| WebBluetooth.SplitSensorLineLost | frontend/hooks/use-bluetooth.ts:204-216 | a SENSOR line split across two chunks is lost, unlike the Android reader, which keeps the unterminated rest |
| WebBluetooth.OneLineChunk | frontend/hooks/use-bluetooth.ts:205 | a single-line chunk is that line |
| WebBluetooth.WebCommandText | frontend/hooks/use-bluetooth.ts:411-414 | a newline is always appended |
| WebBluetooth.CommandTextsAgreeIff | frontend/hooks/use-bluetooth.ts:411-414 | the web and Android framings agree exactly on commands not ending in a newline |
| WebBluetooth.BluetoothHook.ParseArduinoData | frontend/hooks/use-bluetooth.ts:204-316 | the state is the chunk's lines applied in order, and saved sessions are only added |
| WebBluetooth.SendError | frontend/hooks/use-bluetooth.ts:417 | the error recorded after a failed write is never empty: the write's own message, or "Failed to send command" |
| WebBluetooth.BluetoothHook.SendCommand | frontend/hooks/use-bluetooth.ts:398-420 | succeeds iff connected with a device and either the library is missing (mock mode: nothing written) or the write succeeds (the framed command is written); otherwise "Not connected to device" or the write's error is recorded and nothing is written |
| WebBluetooth.BluetoothHook.PingSlot | frontend/hooks/use-bluetooth.ts:423-425 | PING:name and a newline are written when connected, not in mock mode and the write succeeds; the result says whether the send succeeded |
| WebBluetooth.BluetoothHook.DisableSlot | frontend/hooks/use-bluetooth.ts:428-430 | DISABLE:name or ENABLE:name and a newline, under the same conditions as PingSlot |
| WebHeader.GetConnectionStatus | frontend/components/WebHeader.tsx:21-32 | Disconnected, Strong above -60, Weak above -80, otherwise Connected; never "No Connection" |
| WebHeader.AgreesWithThemeExceptWeakSignals | frontend/components/WebHeader.tsx:21-32 | the header agrees with the theme's label except for weak or zero signals, where it says Connected |
| WebParking.Joined | frontend/hooks/use-parking.ts:46-77 | each slot paired with its status row, in table order |
| WebParking.CurrentStatus | frontend/hooks/use-parking.ts:224 | the status, or vacant when there is no row or it is empty |
| WebParking.InitialRow | frontend/hooks/use-parking.ts:119-155 | a new slot's status, with a start exactly when occupied |
| WebParking.Flipped | frontend/hooks/use-parking.ts:225 | occupied iff vacant, otherwise vacant |
| WebParking.FlipTwice | frontend/hooks/use-parking.ts:225 | two flips restore vacant or occupied; any other status settles to occupied |
| WebParking.VacateAll | frontend/hooks/use-parking.ts:246-263 | every non-vacant row becomes vacant with no start; vacant rows are untouched |
| WebParking.VacateAllSettles | frontend/hooks/use-parking.ts:246-263 | vacating twice is vacating once, and the start invariant is kept |
| WebParking.KeepOldest | frontend/hooks/use-parking.ts:188-217 | the five oldest slots are kept, or all when there are at most five |
| WebParking.DropNewest | frontend/hooks/use-parking.ts:156-187 | the most recently created slot is removed, and all others are older |
| WebParking.SetDisabled | frontend/hooks/use-parking.ts:493-570 | only the named slot's disabled flag changes |
| WebParking.SetDisabledKeepsIds | frontend/hooks/use-parking.ts:493-570 | the ids and their order are unchanged |
| WebParking.DisableRow | frontend/hooks/use-parking.ts:530-550 | disabled when disabling and vacant when enabling, never with a start |
| WebParking.PrependReading | frontend/hooks/use-parking.ts:351 | the newest reading first, at most ten kept |
| WebParking.PrependAllNewest | frontend/hooks/use-parking.ts:348-352 | after many arrivals the list is the ten newest, newest first |
| WebParking.ParkingStore.FetchSlots | frontend/hooks/use-parking.ts:46-77 | the cache is the join of slots and statuses |
| WebParking.ParkingStore.AddVirtualSlot | frontend/hooks/use-parking.ts:119-155 | a slot P<n+1> with a new id and its status row is added, and the cache is refreshed |
| WebParking.ParkingStore.RemoveLastSlot | frontend/hooks/use-parking.ts:156-187 | fails on an empty cache or table; otherwise the newest slot goes |
| WebParking.ParkingStore.ResetParkingSlots | frontend/hooks/use-parking.ts:188-217 | only the five oldest slots remain; no refetch when nothing was deleted |
| WebParking.ParkingStore.SimulateTraffic | frontend/hooks/use-parking.ts:218-244 | "No slots available" on an empty cache; otherwise the picked slot's status is flipped |
| WebParking.ParkingStore.VacateAllSlots | frontend/hooks/use-parking.ts:246-263 | all statuses are vacated and the cache is refreshed |
| WebParking.ParkingStore.SendDisableCommand | frontend/hooks/use-parking.ts:493-570 | one command is queued, the slot's flag is set and its status becomes disabled or vacant |

## Left out

- Network and database failures: every remote call is modelled as succeeding,
  apart from the explicit error results the code itself produces ("No slots to
  remove", "No slots available", an unknown slot name, an empty single-row
  query).
- Threads, coroutines, React state batching, timers, subscriptions and UI
  callbacks. Each operation is one atomic step. A chunk of Bluetooth data is
  applied with a single "now".
- Android permissions, Bluetooth socket setup, connection and pairing.
- The byte stream decoded as UTF-8: the model receives characters.
- Case and whitespace: they cover ASCII only. Within ASCII, JavaScript's
  trim() and Kotlin's trim() are modelled with their own whitespace sets
  (Kotlin's adds U+001C to U+001F). Beyond ASCII, the no-break space, the
  byte-order mark and the other Unicode spaces are not treated as whitespace by
  either trim. No Unicode case folding is modelled.
- Date parsing and formatting, and time zones: they are parameters
  (`parse: string -> Option<int>`, plain date strings). The "since" time line
  of the dashboard dialog is not modelled. Neither are Android string resources.
- Randomness: the slot that `simulateTraffic` picks is a parameter.
- UUIDs: new ids are parameters on Android and a counter on the web.
- Floating point: amounts and fractions are exact reals. `%.1f` and `%.2f` are
  modelled as exact half-up rounding. The currency prefix of the amount text is
  not modelled.
- Integer width: Kotlin `Int`/`Long` overflow is not modelled, and integers are
  unbounded.
- Postgres collation: the name order `order=name.asc` is modelled as plain
  character order.
- WebParking.Joined: the web client fetches slots ordered by name, but the model
  keeps them in creation order. This matches name order only while slot names
  sort like their creation order.
- History.CalculateDailyStats: the map keyed by date, followed by a sort, is
  modelled as a newest-first list that is updated in place. The two hold the
  same records in the same order.
- SlotCard.ElapsedMinutes: an empty-string start time is modelled as a missing
  start (`None`).
- Repository.ParkingRepository.UpdateSlotStatusByName: a PATCH on a slot
  without a status row changes nothing. The session is built by
  Repository.SessionRecord, which parses with the parser given as a parameter;
  with the source's own pattern no start time parses (see Findings).
- BluetoothLink.CommandPort.SendCommand: a failing write is modelled as
  writing nothing; bytes that reach the stream before a failing flush are not
  modelled.
- Statistics.AddLog: the uptime ticker replaces the whole log text with a
  single UPTIME line every second, so added entries last only until the next
  tick. The ticker is a timer and its overwrite is not modelled.
- WebBluetooth.SaveParkingSession: the slot_id looked up by name
  (`slotData?.id || null`) is not part of the record, because it is a database
  query; the record keeps the slot name, as the inserted row does.
- SessionAdapter's DiffUtil callbacks are the predicates SameItem (same id) and
  SameContents (equal records). The list diff that uses them belongs to the
  Android framework and is not part of this model.
- Web slot deletion leaves the slot's status row in place, as the code does.
  Foreign-key constraints are not modelled.
- LineChart: the drawing geometry of onDraw (pixel positions and paths) is not
  modelled. Only the data, the scale and the labels are.
- Statistics.Uptime: a negative elapsed time (a clock moving backwards) is not
  characterised.
- Screens that only lay out views (settings, about, navigation) are outside the
  core.

## Findings

| source | as written | input that shows it | evidently intended | confidence | as-written member | corrected member |
|---|---|---|---|---|---|---|
| android_app/app/src/main/java/com/parksense/android/data/repository/ParkingRepository.kt:272-324 | the start time is parsed with the pattern `yyyy-MM-dd'T'HH:mm:ss.SSS'Z'`, whose literal 'Z' must appear in the text, but the text is first cut before any '+' or 'Z'; the parse exception is swallowed, so no session is ever recorded | a stored occupied_since of `2024-05-01T10:00:00.000+00:00` (or `2024-05-01T10:00:00.000Z`) when the slot is vacated | the start time parses and one session is recorded with its duration and charge | high, not executed | Repository.NoSessionAsWritten | Repository.SessionRecord |
