/**
 * The web client's slot tile (SlotCard.tsx): elapsed minutes, the duration text,
 * the fill of the progress ring, and the colours and label chosen by status.
 */
module SlotCard {
  import opened Wrappers
  import opened Strings
  import SlotDetails

  const GREY := "#444444"
  const LIGHT := "#ededed"

  /** A stay is running only while occupied or overtime. */
  predicate Running(status: string) {
    status == "occupied" || status == "overtime"
  }

  /** getElapsedMinutes: whole minutes since the start of a running stay, 0 otherwise. */
  function ElapsedMinutes(status: string, occupiedSinceMs: Option<int>, nowMs: int): (m: int)
    ensures !Running(status) || occupiedSinceMs.None? ==> m == 0
    ensures Running(status) && occupiedSinceMs.Some? ==>
      m * 60000 <= nowMs - occupiedSinceMs.value < (m + 1) * 60000
  {
    if occupiedSinceMs.None? || !Running(status) then 0
    else (nowMs - occupiedSinceMs.value) / 60000
  }

  /** formatDuration: "HHh:MMm:SSs", the fields of the details sheet without the spaces. */
  function FormatDuration(minutes: real): string {
    var p := SlotDetails.Parts(minutes);
    Pad2(p.hours) + "h:" + Pad2(p.mins) + "m:" + Pad2(p.secs) + "s"
  }

  /** A whole number of seconds is shown as hours, minutes and seconds of that many seconds. */
  lemma FormatDurationOfSeconds(total: nat)
    ensures FormatDuration(total as real / 60.0)
         == Pad2(total / 3600) + "h:" + Pad2(total / 60 % 60) + "m:" + Pad2(total % 60) + "s"
  {
    SlotDetails.PartsOfSeconds(total);
  }

  /** The ring's fill: elapsed over allowed, capped at 1, and 0 without an allowance. */
  function Progress(duration: real, allowedMinutes: int): (p: real)
    ensures p <= 1.0
    ensures allowedMinutes <= 0 ==> p == 0.0
    ensures allowedMinutes > 0 && duration >= 0.0 ==> 0.0 <= p
    ensures allowedMinutes > 0 && duration >= allowedMinutes as real ==> p == 1.0
    ensures allowedMinutes > 0 && duration < allowedMinutes as real ==> p * allowedMinutes as real == duration
  {
    if allowedMinutes > 0 then
      var ratio := duration / allowedMinutes as real;
      if ratio < 1.0 then ratio else 1.0
    else 0.0
  }

  /** More elapsed time never shows less fill. */
  lemma ProgressMonotone(d1: real, d2: real, allowedMinutes: int)
    requires d1 <= d2
    ensures Progress(d1, allowedMinutes) <= Progress(d2, allowedMinutes)
  {
    if allowedMinutes > 0 {
      var a := allowedMinutes as real;
      assert d1 / a <= d2 / a by {
        assert d2 / a - d1 / a == (d2 - d1) / a;
      }
    }
  }

  datatype StatusInfo = StatusInfo(text: string, color: string, durationColor: string, nameColor: string, borderColor: string)

  /** Muted statuses: nothing is running on the tile. */
  predicate Muted(status: string) {
    status == "vacant" || status == "add" || status == "disabled"
  }

  /** statusInfo: label, status colour, text colours and border, all chosen by status. */
  function GetStatusInfo(status: string): (info: StatusInfo)
    ensures status == "add" ==> info.text == "ADD PARK"
    ensures info.text == [] <==> status !in {"occupied", "overtime", "vacant", "disabled", "add"}
    ensures status != "add" ==> info.text == SlotDetails.StatusLabel(status)
    ensures info.borderColor == "#ba2d2d" <==> status == "disabled"
    ensures info.durationColor == info.nameColor
    ensures info.nameColor == GREY <==> Muted(status)
    ensures !Muted(status) ==> info.nameColor == LIGHT
    ensures status == "disabled" ==> info.color == "#d1d1d1ff"
    ensures status != "disabled" ==> info.color == SlotDetails.StatusColor(status)
  {
    SlotDetails.StatusWordsUpper();
    StatusInfo(
      if status == "occupied" then "OCCUPIED"
      else if status == "overtime" then "OVERTIME"
      else if status == "vacant" then "VACANT"
      else if status == "disabled" then "DISABLED"
      else if status == "add" then "ADD PARK"
      else "",
      if status == "occupied" then "#42bc2b"
      else if status == "overtime" then "#ba2d2d"
      else if status == "disabled" then "#d1d1d1ff"
      else GREY,
      if Muted(status) then GREY else LIGHT,
      if Muted(status) then GREY else LIGHT,
      if status == "disabled" then "#ba2d2d" else "#272727")
  }
}
