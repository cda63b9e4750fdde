/**
 * The Android recent-sessions list (SessionAdapter.kt): the one-line text of a
 * finished session and the identity the list's diff uses.
 */
module SessionAdapter {
  import opened Strings
  import opened ParkingModels

  // ---------------------------------------------------------------- duration text

  /**
   * The tenths of an hour "%.1f" shows for a positive number of minutes,
   * rounding half up: never more than three minutes (half a tenth) away.
   */
  function HourTenths(minutes: nat): (t: nat)
    ensures 6 * t - 3 <= minutes < 6 * t + 3
  {
    (minutes + 3) / 6
  }

  /**
   * A tenths count as "<whole>.<tenth>": digits, a point and one more digit,
   * which read back as t tenths.
   */
  function TenthsText(t: nat): (r: string)
    ensures |r| >= 3 && r[|r| - 2] == '.'
    ensures AllDigits(r[..|r| - 2]) && IsDigit(r[|r| - 1])
    ensures DigitsValue(r[..|r| - 2]) * 10 + DigitValue(r[|r| - 1]) == t
  {
    var whole := NatToString(t / 10);
    var r := whole + "." + [DigitChar(t % 10)];
    assert r[..|r| - 2] == whole;
    r
  }

  /**
   * formatDuration: minutes below an hour as "<m>m", whole hours as "<h>h",
   * anything else as hours with one decimal.
   */
  function FormatDuration(minutes: int): (r: string)
    ensures minutes < 60 ==> r == IntToString(minutes) + "m"
    ensures minutes >= 60 && minutes % 60 == 0 ==> r == NatToString(minutes / 60) + "h"
    ensures minutes >= 60 && minutes % 60 != 0 ==> r == TenthsText(HourTenths(minutes)) + "h"
    ensures r[|r| - 1] == (if minutes < 60 then 'm' else 'h')
  {
    if minutes < 60 then IntToString(minutes) + "m"
    else if TruncMod(minutes, 60) == 0 then IntToString(TruncDiv(minutes, 60)) + "h"
    else TenthsText(HourTenths(minutes)) + "h"
  }

  /** A whole number of hours reads back as that many hours. */
  lemma WholeHoursReadBack(hours: nat)
    requires hours >= 1
    ensures FormatDuration(60 * hours) == NatToString(hours) + "h"
    ensures DigitsValue(FormatDuration(60 * hours)[..|FormatDuration(60 * hours)| - 1]) == hours
  {
    var m := 60 * hours;
    assert m % 60 == 0 && m / 60 == hours;
    var r := FormatDuration(m);
    assert r == NatToString(hours) + "h";
    assert r[..|r| - 1] == NatToString(hours);
  }

  // ---------------------------------------------------------------- amount text

  /** "%.2f" of an exact amount: cents rounded half away from zero. */
  function MoneyText(amount: real): (r: string)
    ensures |r| >= 4 && IsDigit(r[|r| - 1])
    ensures amount >= 0.0 ==>
      var cents := (100.0 * amount + 0.5).Floor;
      r == NatToString(cents / 100) + "." + Pad2(cents % 100)
    decreases if amount < 0.0 then 1 else 0
  {
    if amount < 0.0 then "-" + MoneyText(-amount)
    else
      var cents := (100.0 * amount + 0.5).Floor;
      var tail := Pad2(cents % 100);
      assert IsDigit(tail[|tail| - 1]) by {
        if cents % 100 >= 10 {
          assert AllDigits(tail);
        }
      }
      NatToString(cents / 100) + "." + tail
  }

  /** The amount shown is the amount rounded to cents. */
  lemma MoneyTextIsRoundedCents(amount: real)
    requires amount >= 0.0
    ensures var cents := (100.0 * amount + 0.5).Floor;
      RoundCents(amount) == cents as real / 100.0 && cents >= 0
  {
  }

  // ---------------------------------------------------------------- the row

  /** The displayed id: ".." and the last (up to) four characters of the id. */
  function ShortId(id: string): (r: string)
    ensures |r| == 2 + (if |id| < 4 then |id| else 4)
    ensures r[..2] == ".." && r[2..] == id[|id| - (|r| - 2)..]
  {
    ".." + TakeLast(id, 4)
  }

  /** The slot, duration and amount columns; the text ends in the amount's last digit. */
  function Columns(session: ParkingSession): (c: string)
    ensures c != [] && IsDigit(c[|c| - 1])
  {
    var money := MoneyText(session.amountCharged);
    PadEnd(session.slotName, 5) + " " + PadEnd(FormatDuration(session.durationMinutes), 6) + " " + money
  }

  /**
   * bind: id, slot name padded to 5, duration padded to 6, the amount, and a
   * star for an overtime session, separated by spaces (RowTextLayout).
   */
  function RowText(session: ParkingSession): (r: string)
    ensures ShortId(session.id) + "   " <= r
    ensures r[|r| - 1] == '*' <==> session.wasOvertime
  {
    Row(ShortId(session.id), Columns(session), session.wasOvertime)
  }

  /** The id, three spaces, the columns and the overtime star. */
  function Row(shortId: string, columns: string, overtime: bool): (r: string)
    requires columns != [] && IsDigit(columns[|columns| - 1])
    ensures shortId + "   " <= r
    ensures r[|r| - 1] == '*' <==> overtime
  {
    var lead := shortId + "   ";
    var body := lead + columns;
    assert body[..|lead|] == lead;
    assert body[|body| - 1] == columns[|columns| - 1];
    if overtime then body + "*" else body
  }

  /** The row's columns in full: the short id, three spaces, the padded slot name and duration, the amount and the star. */
  lemma RowTextLayout(session: ParkingSession)
    ensures RowText(session) == ShortId(session.id) + "   " + PadEnd(session.slotName, 5) + " "
                 + PadEnd(FormatDuration(session.durationMinutes), 6) + " "
                 + MoneyText(session.amountCharged) + (if session.wasOvertime then "*" else "")
  {
    var slot := PadEnd(session.slotName, 5);
    var duration := PadEnd(FormatDuration(session.durationMinutes), 6);
    var money := MoneyText(session.amountCharged);
    Regroup(ShortId(session.id) + "   ", slot, duration, money, if session.wasOvertime then "*" else "");
  }

  /** Concatenation regrouped: the lead, then the columns, then the star. */
  lemma Regroup(lead: string, slot: string, duration: string, money: string, star: string)
    ensures lead + (slot + " " + duration + " " + money) + star == lead + slot + " " + duration + " " + money + star
  {
  }

  /** areItemsTheSame: the diff keys rows by session id. */
  predicate SameItem(a: ParkingSession, b: ParkingSession) {
    a.id == b.id
  }

  /** areContentsTheSame: every field equal. */
  predicate SameContents(a: ParkingSession, b: ParkingSession) {
    a == b
  }
}
