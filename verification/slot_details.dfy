/**
 * The web client's slot details sheet (SlotDetailsModal.tsx): the running
 * duration text, the bill for the elapsed (possibly fractional) minutes, the
 * sensor percentage, and the status and action labels.
 */
module SlotDetails {
  import opened Strings
  import Theme

  // ---------------------------------------------------------------- JavaScript number helpers

  /** Math.trunc on an exact real: the integer next to x on the side of zero. */
  function JsTrunc(x: real): (t: int)
    ensures x >= 0.0 ==> t as real <= x < t as real + 1.0
    ensures x < 0.0 ==> t as real - 1.0 < x <= t as real
  {
    if x >= 0.0 then x.Floor else -((-x).Floor)
  }

  /** JavaScript's x % 60: the remainder takes the sign of x. */
  function Rem60(x: real): (r: real)
    ensures x >= 0.0 ==> 0.0 <= r < 60.0
    ensures x < 0.0 ==> -60.0 < r <= 0.0
  {
    x - 60.0 * JsTrunc(x / 60.0) as real
  }

  lemma FloorOfQuotient(a: int, b: int)
    requires b > 0
    ensures (a as real / b as real).Floor == a / b
  {
    var q, r := a / b, a % b;
    assert a as real / b as real == q as real + r as real / b as real;
  }

  // ---------------------------------------------------------------- duration text

  datatype DurationParts = DurationParts(hours: int, mins: int, secs: int)

  /** The three fields formatDuration shows: floor(m/60), floor(m % 60) and floor((m*60) % 60). */
  function Parts(minutes: real): (p: DurationParts)
    ensures minutes >= 0.0 ==> 0 <= p.mins < 60 && 0 <= p.secs < 60 && p.hours >= 0
    ensures minutes >= 0.0 ==> (p.hours * 60 + p.mins) as real <= minutes < (p.hours * 60 + p.mins + 1) as real
  {
    DurationParts((minutes / 60.0).Floor, Rem60(minutes).Floor, Rem60(minutes * 60.0).Floor)
  }

  /**
   * For a whole number of seconds the fields are hours, minutes within the hour
   * and seconds within the minute.
   */
  lemma {:induction false} PartsOfSeconds(total: nat)
    ensures Parts(total as real / 60.0) == DurationParts(total / 3600, total / 60 % 60, total % 60)
  {
    var x := total as real / 60.0;
    assert x / 60.0 == total as real / 3600.0;
    FloorOfQuotient(total, 3600);
    FloorOfQuotient(total, 60);
    assert x * 60.0 == total as real;
    var h := total / 3600;
    assert Rem60(x) == x - 60.0 * h as real;
    assert total / 60 / 60 == h;
    assert (x - 60.0 * h as real).Floor == total / 60 - 60 * h by {
      assert (x - 60.0 * h as real) == (total / 60 - 60 * h) as real + (total % 60) as real / 60.0;
    }
    assert Rem60(total as real) == total as real - 60.0 * (total / 60) as real;
  }

  /** For a whole number of minutes the seconds field is 0. */
  lemma PartsOfMinutes(minutes: nat)
    ensures Parts(minutes as real) == DurationParts(minutes / 60, minutes % 60, 0)
  {
    var total := 60 * minutes;
    var q, r := minutes / 60, minutes % 60;
    assert total == 3600 * q + 60 * r && 0 <= 60 * r < 3600;
    assert total / 3600 == q && total / 60 == minutes && total % 60 == 0;
    assert total as real / 60.0 == minutes as real;
    PartsOfSeconds(total);
  }

  /** formatDuration: "HHh : MMm : SSs", each field padded to two digits. */
  function FormatDuration(minutes: real): string {
    var p := Parts(minutes);
    Pad2(p.hours) + "h : " + Pad2(p.mins) + "m : " + Pad2(p.secs) + "s"
  }

  /** A whole number of seconds is shown as hours, minutes and seconds of that many seconds. */
  lemma FormatDurationOfSeconds(total: nat)
    ensures FormatDuration(total as real / 60.0)
         == Pad2(total / 3600) + "h : " + Pad2(total / 60 % 60) + "m : " + Pad2(total % 60) + "s"
  {
    PartsOfSeconds(total);
  }

  // ---------------------------------------------------------------- billing

  datatype ModalBilling = ModalBilling(amount: real, isOvertime: bool)

  /**
   * calculateBilling for the minutes on screen: overtime beyond the shared
   * threshold, and the same hourly formula as the header's bill, rounded to cents.
   */
  function CalculateBilling(minutesParked: real): (b: ModalBilling)
    ensures b.isOvertime <==> minutesParked > Theme.OVERTIME_THRESHOLD_MINUTES as real
    ensures b.amount == RoundCents(Theme.HourlyCharge(minutesParked))
  {
    var isOvertime := minutesParked > Theme.OVERTIME_THRESHOLD_MINUTES as real;
    var amount :=
      if !isOvertime then minutesParked / 60.0 * Theme.RATE_PER_HOUR
      else
        var regular := Theme.OVERTIME_THRESHOLD_MINUTES as real;
        var overtime := minutesParked - Theme.OVERTIME_THRESHOLD_MINUTES as real;
        regular / 60.0 * Theme.RATE_PER_HOUR + overtime / 60.0 * Theme.OVERTIME_RATE_PER_HOUR;
    ModalBilling(RoundCents(amount), isOvertime)
  }

  /** For the whole minutes the header bills, the sheet shows the same amount and overtime flag. */
  lemma CalculateBillingAgreesWithTheme(since: int, now: int)
    ensures var t := Theme.CalculateBilling(Wrappers.Some(since), now);
      CalculateBilling(t.minutesParked as real) == ModalBilling(t.amount, t.isOvertime)
  {
  }

  /** The bill on screen never drops while the minutes grow. */
  lemma CalculateBillingMonotone(m1: real, m2: real)
    requires m1 <= m2
    ensures CalculateBilling(m1).amount <= CalculateBilling(m2).amount
  {
    Theme.HourlyChargeMonotone(m1, m2);
    RoundCentsMonotone(Theme.HourlyCharge(m1), Theme.HourlyCharge(m2));
  }

  // ---------------------------------------------------------------- sensor and labels

  const SENSOR_FULL_SCALE := 1023

  /** Math.round(value / 1023 * 100): the reading as a percentage of the full scale. */
  function SensorPercent(value: int): (p: int)
    ensures 0 <= value <= SENSOR_FULL_SCALE ==> 0 <= p <= 100
    ensures value == 0 ==> p == 0
    ensures value == SENSOR_FULL_SCALE ==> p == 100
  {
    (value as real / SENSOR_FULL_SCALE as real * 100.0 + 0.5).Floor
  }

  /** A larger reading never shows a smaller percentage. */
  lemma SensorPercentMonotone(v1: int, v2: int)
    requires v1 <= v2
    ensures SensorPercent(v1) <= SensorPercent(v2)
  {
    var x1 := v1 as real / SENSOR_FULL_SCALE as real * 100.0 + 0.5;
    var x2 := v2 as real / SENSOR_FULL_SCALE as real * 100.0 + 0.5;
    assert x1 <= x2;
  }

  /** getStatusLabel: the four known statuses in capitals, anything else empty. */
  function StatusLabel(status: string): (text: string)
    ensures text == [] <==> status !in {"occupied", "overtime", "vacant", "disabled"}
    ensures text != [] ==> text == ToUpper(status)
  {
    StatusWordsUpper();
    if status == "occupied" then "OCCUPIED"
    else if status == "overtime" then "OVERTIME"
    else if status == "vacant" then "VACANT"
    else if status == "disabled" then "DISABLED"
    else ""
  }

  lemma StatusWordsUpper()
    ensures ToUpper("occupied") == "OCCUPIED" && ToUpper("overtime") == "OVERTIME"
    ensures ToUpper("vacant") == "VACANT" && ToUpper("disabled") == "DISABLED"
  {
  }

  /** getStatusColor: green when occupied, red when overtime, grey otherwise. */
  function StatusColor(status: string): (color: string)
    ensures status == "occupied" ==> color == "#42bc2b"
    ensures status == "overtime" ==> color == "#ba2d2d"
    ensures status != "occupied" && status != "overtime" ==> color == "#444444"
  {
    if status == "occupied" then "#42bc2b" else if status == "overtime" then "#ba2d2d" else "#444444"
  }

  /** The hold button offers ENABLE exactly for a disabled slot, by flag or by status. */
  function ActionLabel(isDisabled: bool, status: string): (text: string)
    ensures text == "ENABLE" <==> isDisabled || status == "disabled"
    ensures text == "ENABLE" || text == "DISABLE"
  {
    if isDisabled || status == "disabled" then "ENABLE" else "DISABLE"
  }
}
