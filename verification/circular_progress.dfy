/**
 * The Android progress ring (CircularProgressView.kt): the fraction of the
 * allowed time used, the slot's flags, the ring colour they select and the arc
 * the ring draws.
 */
module CircularProgress {
  import opened Strings
  import Theme

  const GREY := "#444444"
  const RED := "#ba2d2d"
  const GREEN := "#42bc2b"
  const BLUE := "#1f4fce"
  const PINK := "#c3257a"

  /** coerceIn(0, 1). */
  function Clamp01(x: real): (c: real)
    ensures 0.0 <= c <= 1.0
    ensures 0.0 <= x <= 1.0 ==> c == x
    ensures x < 0.0 ==> c == 0.0
    ensures x > 1.0 ==> c == 1.0
  {
    if x < 0.0 then 0.0 else if x > 1.0 then 1.0 else x
  }

  /**
   * updateProgressColor: grey for a disabled or vacant slot whatever else holds,
   * red for overtime, and otherwise by the fraction of time remaining.
   */
  function ProgressColor(progress: real, isOvertime: bool, isVacant: bool, isDisabled: bool): (color: string)
    ensures isDisabled || isVacant ==> color == GREY
    ensures !isDisabled && !isVacant && isOvertime ==> color == RED
    ensures !isDisabled && !isVacant && !isOvertime ==>
      (color == GREEN <==> 1.0 - progress > 0.5) &&
      (color == BLUE <==> 0.15 < 1.0 - progress <= 0.5) &&
      (color == PINK <==> 0.0 < 1.0 - progress <= 0.15) &&
      (color == RED <==> 1.0 - progress <= 0.0)
  {
    if isDisabled then GREY
    else if isVacant then GREY
    else if isOvertime then RED
    else
      var percentRemaining := 1.0 - progress;
      if percentRemaining > 0.5 then GREEN
      else if percentRemaining > 0.15 then BLUE
      else if percentRemaining > 0.0 then PINK
      else RED
  }

  /** A full ring of time used shows red even without the overtime flag. */
  lemma FullProgressIsRed(isOvertime: bool)
    ensures ProgressColor(1.0, isOvertime, false, false) == RED
  {
  }

  /**
   * For a running slot the ring picks the colour the web client's
   * getProgressColor picks for the same remaining fraction, written in lower case.
   */
  lemma AgreesWithTheme(progress: real, isOvertime: bool)
    ensures ProgressColor(progress, isOvertime, false, false)
         == ToLower(Theme.ProgressColor(1.0 - progress, isOvertime))
  {
    assert ToLower(Theme.PROGRESS_RED) == RED;
    assert ToLower(Theme.PROGRESS_GREEN) == GREEN;
    assert ToLower(Theme.PROGRESS_BLUE) == BLUE;
    assert ToLower(Theme.PROGRESS_PINK) == PINK;
  }

  /** The arc is drawn only for a running slot: neither vacant nor disabled. */
  predicate DrawsArc(isVacant: bool, isDisabled: bool) {
    !isVacant && !isDisabled
  }

  /** visualFill: a full ring in overtime, otherwise the fraction remaining. */
  function VisualFill(progress: real, isOvertime: bool): (fill: real)
    ensures isOvertime ==> fill == 1.0
    ensures !isOvertime ==> fill + progress == 1.0
  {
    if isOvertime then 1.0 else 1.0 - progress
  }

  /** The sweep of a stored (clamped) progress stays within one turn. */
  lemma SweepWithinTurn(progress: real, isOvertime: bool)
    requires 0.0 <= progress <= 1.0
    ensures 0.0 <= 360.0 * VisualFill(progress, isOvertime) <= 360.0
  {
  }

  class CircularProgressView {
    var progress: real
    var isOvertime: bool
    var isVacant: bool
    var isDisabled: bool
    /** progressPaint.color. */
    var color: string

    /** The stored progress is within [0, 1] and the paint matches the flags. */
    predicate Valid()
      reads this
    {
      0.0 <= progress <= 1.0 && color == ProgressColor(progress, isOvertime, isVacant, isDisabled)
    }

    constructor()
      ensures Valid()
      ensures progress == 0.0 && !isOvertime && !isVacant && !isDisabled
    {
      progress := 0.0;
      isOvertime := false;
      isVacant := false;
      isDisabled := false;
      color := GREEN;
    }

    /** The sweep angle onDraw would draw, if it draws the arc at all. */
    function Sweep(): (angle: real)
      reads this
      requires Valid()
      ensures 0.0 <= angle <= 360.0
    {
      SweepWithinTurn(progress, isOvertime);
      360.0 * VisualFill(progress, isOvertime)
    }

    /** setProgress: clamp the progress, overwrite all three flags and recolour. */
    method SetProgress(p: real, overtime: bool, vacant: bool, disabled: bool)
      modifies this
      ensures Valid()
      ensures progress == Clamp01(p)
      ensures isOvertime == overtime && isVacant == vacant && isDisabled == disabled
    {
      progress := Clamp01(p);
      isOvertime := overtime;
      isVacant := vacant;
      isDisabled := disabled;
      UpdateProgressColor();
    }

    /** updateProgressColor: the paint follows the current progress and flags. */
    method UpdateProgressColor()
      modifies this
      ensures color == ProgressColor(progress, isOvertime, isVacant, isDisabled)
      ensures progress == old(progress) && isOvertime == old(isOvertime)
      ensures isVacant == old(isVacant) && isDisabled == old(isDisabled)
    {
      color := ProgressColor(progress, isOvertime, isVacant, isDisabled);
    }
  }
}
