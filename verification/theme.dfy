/**
 * The web client's shared constants and helpers (frontend/constants/theme.ts):
 * the progress-ring colour, the Bluetooth status label, and the live hourly bill
 * of an occupied slot.
 */
module Theme {
  import opened Wrappers
  import opened Strings

  // ---------------------------------------------------------------- colours

  const PROGRESS_GREEN := "#42BC2B"
  const PROGRESS_BLUE := "#1F4FCE"
  const PROGRESS_PINK := "#C3257A"
  const PROGRESS_RED := "#BA2D2D"

  const BLUETOOTH_STRONG := "#42BC2B"
  const BLUETOOTH_WEAK := "#BEC91F"
  const BLUETOOTH_NO_CONNECTION := "#BA2D2D"
  const BLUETOOTH_DISCONNECTED := "#444444"

  // ---------------------------------------------------------------- thresholds and rates

  /** Fractions of allowed time remaining above which the ring is green, then blue, then pink. */
  const GREEN_ABOVE: real := 0.5
  const BLUE_ABOVE: real := 0.15
  const PINK_ABOVE: real := 0.0

  const RSSI_STRONG: int := -60
  const RSSI_WEAK: int := -80

  const RATE_PER_HOUR: real := 25.0
  const OVERTIME_RATE_PER_HOUR: real := 100.0
  const OVERTIME_THRESHOLD_MINUTES: int := 180

  // ---------------------------------------------------------------- progress colour

  /** getProgressColor: red for overtime or no time left, otherwise by the fraction of time remaining. */
  function ProgressColor(percentRemaining: real, isOvertime: bool): (color: string)
    ensures isOvertime || percentRemaining <= 0.0 ==> color == PROGRESS_RED
    ensures !isOvertime && percentRemaining > GREEN_ABOVE ==> color == PROGRESS_GREEN
    ensures !isOvertime && BLUE_ABOVE < percentRemaining <= GREEN_ABOVE ==> color == PROGRESS_BLUE
    ensures !isOvertime && PINK_ABOVE < percentRemaining <= BLUE_ABOVE ==> color == PROGRESS_PINK
  {
    if isOvertime || percentRemaining <= 0.0 then PROGRESS_RED
    else if percentRemaining > GREEN_ABOVE then PROGRESS_GREEN
    else if percentRemaining > BLUE_ABOVE then PROGRESS_BLUE
    else if percentRemaining > PINK_ABOVE then PROGRESS_PINK
    else
      // the first test already sent every remaining fraction <= 0 to red
      assert false; PROGRESS_RED
  }

  /** How urgent a ring colour looks: green, blue, pink, red. */
  function Urgency(color: string): nat {
    if color == PROGRESS_GREEN then 0
    else if color == PROGRESS_BLUE then 1
    else if color == PROGRESS_PINK then 2
    else 3
  }

  /** Less time remaining never shows a calmer colour. */
  lemma ProgressColorMonotone(less: real, more: real, isOvertime: bool)
    requires less <= more
    ensures Urgency(ProgressColor(more, isOvertime)) <= Urgency(ProgressColor(less, isOvertime))
  {
  }

  // ---------------------------------------------------------------- Bluetooth status

  datatype ConnectionLabel = Disconnected | Strong | Weak | NoConnection

  datatype BluetoothStatus = BluetoothStatus(level: ConnectionLabel, color: string)

  function LevelText(level: ConnectionLabel): string {
    match level
    case Disconnected => "Disconnected"
    case Strong => "Strong Connection"
    case Weak => "Weak Connection"
    case NoConnection => "No Connection"
  }

  /** getBluetoothStatus: Disconnected without a link or a reading, otherwise by signal strength. */
  function GetBluetoothStatus(rssi: Option<int>, isConnected: bool): (s: BluetoothStatus)
    ensures !isConnected || rssi.None? <==> s.level == Disconnected
    ensures isConnected && rssi.Some? && rssi.value > RSSI_STRONG ==> s.level == Strong
    ensures isConnected && rssi.Some? && RSSI_WEAK < rssi.value <= RSSI_STRONG ==> s.level == Weak
    ensures isConnected && rssi.Some? && rssi.value <= RSSI_WEAK ==> s.level == NoConnection
    ensures s.color == match s.level
      case Disconnected => BLUETOOTH_DISCONNECTED
      case Strong => BLUETOOTH_STRONG
      case Weak => BLUETOOTH_WEAK
      case NoConnection => BLUETOOTH_NO_CONNECTION
  {
    if !isConnected || rssi.None? then BluetoothStatus(Disconnected, BLUETOOTH_DISCONNECTED)
    else if rssi.value > RSSI_STRONG then BluetoothStatus(Strong, BLUETOOTH_STRONG)
    else if rssi.value > RSSI_WEAK then BluetoothStatus(Weak, BLUETOOTH_WEAK)
    else BluetoothStatus(NoConnection, BLUETOOTH_NO_CONNECTION)
  }

  function SignalRank(level: ConnectionLabel): nat {
    match level
    case Strong => 0
    case Weak => 1
    case NoConnection => 2
    case Disconnected => 3
  }

  /** While connected, a stronger signal never gets a worse label. */
  lemma BluetoothStatusMonotone(weaker: int, stronger: int)
    requires weaker <= stronger
    ensures SignalRank(GetBluetoothStatus(Some(stronger), true).level)
         <= SignalRank(GetBluetoothStatus(Some(weaker), true).level)
  {
  }

  // ---------------------------------------------------------------- billing

  /**
   * The hourly charge for a stay of the given minutes: 25 per hour up to the
   * three-hour threshold, then 100 per hour for the minutes beyond it.
   */
  function HourlyCharge(minutes: real): real {
    if minutes <= OVERTIME_THRESHOLD_MINUTES as real then minutes / 60.0 * RATE_PER_HOUR
    else
      OVERTIME_THRESHOLD_MINUTES as real / 60.0 * RATE_PER_HOUR
      + (minutes - OVERTIME_THRESHOLD_MINUTES as real) / 60.0 * OVERTIME_RATE_PER_HOUR
  }

  /**
   * The same charge, read another way: every minute at the base rate, plus the
   * difference of the two rates on the minutes beyond the threshold.
   */
  lemma HourlyChargeAsSurcharge(minutes: real)
    ensures HourlyCharge(minutes)
         == minutes * RATE_PER_HOUR / 60.0
          + (if minutes > OVERTIME_THRESHOLD_MINUTES as real
             then (minutes - OVERTIME_THRESHOLD_MINUTES as real) * (OVERTIME_RATE_PER_HOUR - RATE_PER_HOUR) / 60.0
             else 0.0)
  {
  }

  /** Both pieces give 75.00 at the threshold, so the charge has no jump there. */
  lemma HourlyChargeContinuous()
    ensures HourlyCharge(OVERTIME_THRESHOLD_MINUTES as real) == 75.0
    ensures OVERTIME_THRESHOLD_MINUTES as real / 60.0 * RATE_PER_HOUR
          + (OVERTIME_THRESHOLD_MINUTES - OVERTIME_THRESHOLD_MINUTES) as real / 60.0 * OVERTIME_RATE_PER_HOUR == 75.0
  {
  }

  /** Parking longer never costs less. */
  lemma HourlyChargeMonotone(m1: real, m2: real)
    requires m1 <= m2
    ensures HourlyCharge(m1) <= HourlyCharge(m2)
  {
    HourlyChargeAsSurcharge(m1);
    HourlyChargeAsSurcharge(m2);
  }

  /** A stay of zero or more minutes is never billed a negative amount. */
  lemma ChargeNonNegative(minutes: real)
    requires minutes >= 0.0
    ensures HourlyCharge(minutes) >= 0.0
    ensures RoundCents(HourlyCharge(minutes)) >= 0.0
  {
    HourlyChargeMonotone(0.0, minutes);
    RoundCentsMonotone(0.0, HourlyCharge(minutes));
    RoundCentsExact(0);
  }

  datatype Billing = Billing(amount: real, isOvertime: bool, minutesParked: int)

  /** Whole minutes elapsed, rounded down as Math.floor does (Dafny's / rounds down for a positive divisor). */
  function MinutesBetween(since: int, now: int): (m: int)
    ensures m * 60000 <= now - since < (m + 1) * 60000
  {
    (now - since) / 60000
  }

  /**
   * calculateBilling: nothing for a slot without a start time; otherwise the
   * whole minutes since the start, overtime beyond three hours, and the hourly
   * charge rounded to cents.
   */
  function CalculateBilling(occupiedSince: Option<int>, now: int): (b: Billing)
    ensures occupiedSince.None? ==> b == Billing(0.0, false, 0)
    ensures occupiedSince.Some? ==> b.minutesParked == MinutesBetween(occupiedSince.value, now)
    ensures b.isOvertime <==> b.minutesParked > OVERTIME_THRESHOLD_MINUTES
    ensures occupiedSince.Some? ==> b.amount == RoundCents(HourlyCharge(b.minutesParked as real))
    ensures occupiedSince.Some? && occupiedSince.value <= now ==> b.amount >= 0.0
  {
    if occupiedSince.None? then Billing(0.0, false, 0)
    else
      var m := MinutesBetween(occupiedSince.value, now);
      assert m >= 0 ==> RoundCents(HourlyCharge(m as real)) >= 0.0 by {
        if m >= 0 {
          ChargeNonNegative(m as real);
        }
      }
      Billing(RoundCents(HourlyCharge(m as real)), m > OVERTIME_THRESHOLD_MINUTES, m)
  }

  /** A later reading of the same stay never shows a smaller bill. */
  lemma CalculateBillingMonotone(since: int, now1: int, now2: int)
    requires now1 <= now2
    ensures CalculateBilling(Some(since), now1).amount <= CalculateBilling(Some(since), now2).amount
  {
    var m1, m2 := MinutesBetween(since, now1), MinutesBetween(since, now2);
    assert m1 <= m2;
    HourlyChargeMonotone(m1 as real, m2 as real);
    RoundCentsMonotone(HourlyCharge(m1 as real), HourlyCharge(m2 as real));
  }

  /** Three hours exactly is 75.00 and not overtime; one minute more is overtime. */
  lemma CalculateBillingThreshold(since: int)
    ensures CalculateBilling(Some(since), since + 180 * 60000) == Billing(75.0, false, 180)
    ensures CalculateBilling(Some(since), since + 181 * 60000).isOvertime
  {
    assert MinutesBetween(since, since + 180 * 60000) == 180;
    assert MinutesBetween(since, since + 181 * 60000) == 181;
    RoundCentsExact(7500);
  }
}
