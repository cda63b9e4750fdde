/**
 * The Android peak-hours chart (LineChartView.kt): an hour histogram of the
 * day's sessions for the hours 6 to 23, and the vertical scale the chart is
 * drawn against.
 */
module LineChart {
  const START_HOUR := 6
  const END_HOUR := 23
  /** endHour - startHour + 1: one bucket per hour from 6AM to 11PM. */
  const HOURS := END_HOUR - START_HOUR + 1
  /** The smallest top of the vertical scale. */
  const MIN_MAX_VAL := 5

  // ---------------------------------------------------------------- the histogram

  /** How many entries of hs equal h. */
  function Occurrences(hs: seq<int>, h: int): nat {
    if hs == [] then 0
    else Occurrences(hs[..|hs| - 1], h) + (if hs[|hs| - 1] == h then 1 else 0)
  }

  /** How many entries of hs lie in the charted hours. */
  function InRange(hs: seq<int>): nat {
    if hs == [] then 0
    else InRange(hs[..|hs| - 1]) + (if START_HOUR <= hs[|hs| - 1] <= END_HOUR then 1 else 0)
  }

  /** Bucket k counts the sessions that started in hour k + 6. */
  function Histogram(hs: seq<int>): (counts: seq<int>)
    ensures |counts| == HOURS
    ensures forall k :: 0 <= k < HOURS ==> counts[k] == Occurrences(hs, k + START_HOUR)
  {
    seq(HOURS, k => Occurrences(hs, k + START_HOUR))
  }

  function Sum(xs: seq<int>): int {
    if xs == [] then 0 else Sum(xs[..|xs| - 1]) + xs[|xs| - 1]
  }

  /** Adding one to one entry adds one to the sum. */
  lemma {:induction false} SumBump(xs: seq<int>, j: int)
    requires 0 <= j < |xs|
    ensures Sum(xs[j := xs[j] + 1]) == Sum(xs) + 1
  {
    var ys := xs[j := xs[j] + 1];
    var n := |xs| - 1;
    assert ys[..n] == if j == n then xs[..n] else xs[..n][j := xs[j] + 1];
    if j < n {
      SumBump(xs[..n], j);
    }
  }

  /** One more hour raises its own bucket by one, and no other. */
  lemma HistogramStep(hs: seq<int>, h: int)
    ensures START_HOUR <= h <= END_HOUR ==>
      Histogram(hs + [h]) == Histogram(hs)[h - START_HOUR := Histogram(hs)[h - START_HOUR] + 1]
    ensures !(START_HOUR <= h <= END_HOUR) ==> Histogram(hs + [h]) == Histogram(hs)
  {
    assert (hs + [h])[..|hs|] == hs;
  }

  /** Every session hour in 6..23 is counted once and the others not at all. */
  lemma {:induction false} HistogramTotal(hs: seq<int>)
    ensures Sum(Histogram(hs)) == InRange(hs)
  {
    if hs == [] {
      var zeros := Histogram(hs);
      forall n | 0 <= n <= HOURS ensures Sum(zeros[..n]) == 0 {
        ZeroPrefix(zeros, n);
      }
      assert zeros[..HOURS] == zeros;
    } else {
      var init, h := hs[..|hs| - 1], hs[|hs| - 1];
      assert hs == init + [h];
      HistogramTotal(init);
      HistogramStep(init, h);
      if START_HOUR <= h <= END_HOUR {
        SumBump(Histogram(init), h - START_HOUR);
      }
    }
  }

  lemma {:induction false} ZeroPrefix(zeros: seq<int>, n: nat)
    requires n <= |zeros|
    requires forall k :: 0 <= k < |zeros| ==> zeros[k] == 0
    ensures Sum(zeros[..n]) == 0
  {
    if n > 0 {
      assert zeros[..n][..n - 1] == zeros[..n - 1];
      ZeroPrefix(zeros, n - 1);
    }
  }

  // ---------------------------------------------------------------- the scale

  /** hourlyData.maxOrNull(): the largest entry of a non-empty sequence. */
  function SeqMax(xs: seq<int>): (m: int)
    requires xs != []
    ensures m in xs
    ensures forall i :: 0 <= i < |xs| ==> xs[i] <= m
  {
    if |xs| == 1 then xs[0]
    else
      var m := SeqMax(xs[..|xs| - 1]);
      assert forall i :: 0 <= i < |xs| - 1 ==> xs[..|xs| - 1][i] == xs[i];
      if xs[|xs| - 1] > m then xs[|xs| - 1] else m
  }

  /** maxVal in onDraw: 5 for an empty chart, otherwise the largest count but at least 5. */
  function MaxVal(data: seq<int>): (m: int)
    ensures m >= MIN_MAX_VAL
    ensures forall i :: 0 <= i < |data| ==> data[i] <= m
    ensures m == MIN_MAX_VAL || m in data
  {
    if data == [] then MIN_MAX_VAL
    else var top := SeqMax(data); if top >= MIN_MAX_VAL then top else MIN_MAX_VAL
  }

  /** yStep: a fifth of maxVal, truncated, but at least 1. */
  function YStep(data: seq<int>): (step: int)
    ensures step >= 1
    ensures 5 * step <= MaxVal(data) < 5 * step + 5
  {
    var s := MaxVal(data) / 5;
    if s >= 1 then s else 1
  }

  /** The five y-axis labels from the top down: (5 - i) * yStep for i = 0..4. */
  function YLabels(data: seq<int>): (labels: seq<int>)
    ensures |labels| == 5
    ensures forall i :: 0 <= i < 5 ==> labels[i] == (5 - i) * YStep(data)
    ensures forall i, j :: 0 <= i < j < 5 ==> labels[i] > labels[j]
    ensures labels[4] >= 1 && labels[0] <= MaxVal(data)
  {
    var step := YStep(data);
    [5 * step, 4 * step, 3 * step, 2 * step, step]
  }

  /**
   * Each point's height value / maxVal lies in [0, 1] for the counts the chart
   * is fed from sessions: no dot is drawn above the top of the chart.
   */
  lemma HistogramFitsScale(hs: seq<int>)
    ensures var data := Histogram(hs);
      forall i :: 0 <= i < |data| ==> 0 <= data[i] <= MaxVal(data)
  {
  }

  // ---------------------------------------------------------------- the view

  class LineChartView {
    var hourlyData: seq<int>

    constructor()
      ensures hourlyData == []
    {
      hourlyData := [];
    }

    /** setData: the chart shows exactly the given counts. */
    method SetData(data: seq<int>)
      modifies this
      ensures hourlyData == data
    {
      hourlyData := data;
    }

    /**
     * setDataFromSessions: count the session start hours into 18 buckets, one
     * per hour from 6 to 23, ignoring other hours, and show the counts.
     */
    method SetDataFromSessions(sessionHours: seq<int>)
      modifies this
      ensures hourlyData == Histogram(sessionHours)
      ensures Sum(hourlyData) == InRange(sessionHours)
    {
      var counts := new int[HOURS](_ => 0);
      for i := 0 to |sessionHours|
        invariant forall k :: 0 <= k < HOURS ==> counts[k] == Occurrences(sessionHours[..i], k + START_HOUR)
      {
        var idx := sessionHours[i] - START_HOUR;
        assert sessionHours[..i + 1] == sessionHours[..i] + [sessionHours[i]];
        if 0 <= idx < HOURS {
          counts[idx] := counts[idx] + 1;
        }
      }
      assert sessionHours[..|sessionHours|] == sessionHours;
      SetData(counts[..]);
      HistogramTotal(sessionHours);
    }
  }
}
