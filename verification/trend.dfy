/** The three-way trend classifier and the trend messages the Pillar scripts
    log while walking a derived series. */
module Trend {
  import opened Wrappers
  import opened Calendar

  datatype Trend = Decreasing | PotentiallyIncreasing | Increasing

  /** The indicator starts at Decreasing, becomes Potentially increasing
      when the increase is positive, and Increasing when the increase reaches
      the variation; the last test applied wins. */
  function Classify(increase: int, variation: int): (t: Trend)
    ensures t == Increasing <==> increase >= variation
    ensures t == PotentiallyIncreasing <==> 0 < increase < variation
    ensures t == Decreasing <==> increase <= 0 && increase < variation
  {
    var initial := Decreasing;
    var afterPositive := if increase > 0 then PotentiallyIncreasing else initial;
    if increase >= variation then Increasing else afterPositive
  }

  /** The classification depends on the two values only through their
      difference. */
  lemma ClassifyShiftInvariant(current: int, previous: int, shift: int, variation: int)
    ensures Classify((current + shift) - (previous + shift), variation) == Classify(current - previous, variation)
  {
  }

  /** The derived value held before row k is processed: 0 before the first row. */
  function ValueBefore(values: seq<int>, k: int): int
    requires k < |values|
  {
    if k < 0 then 0 else values[k]
  }

  /** The message logged while processing row i: the change from the value
      two rows back to the value one row back, logged only when the value two
      rows back is non-zero. */
  function RowMessage(values: seq<int>, i: nat, variation: int): (m: Option<Trend>)
    requires i < |values|
    ensures i < 2 ==> m.None?
    ensures m.Some? <==> i >= 2 && values[i - 2] != 0
    ensures m.Some? ==> m.value == Classify(values[i - 1] - values[i - 2], variation)
  {
    var previous := ValueBefore(values, i as int - 2);
    var current := ValueBefore(values, i as int - 1);
    if previous != 0 then Some(Classify(current - previous, variation)) else None
  }

  /** The classification after the loop: the last value against the one
      before it (0 standing in for missing rows). */
  function FinalTrend(values: seq<int>, variation: int): (t: Trend)
    ensures |values| >= 2 ==> (t == Increasing <==> values[|values| - 1] - values[|values| - 2] >= variation)
    ensures |values| == 1 ==> (t == Increasing <==> values[0] >= variation)
    ensures |values| == 0 ==> (t == Increasing <==> 0 >= variation)
  {
    Classify(ValueBefore(values, |values| - 1) - ValueBefore(values, |values| - 2), variation)
  }

  /** A logged trend message: the indicator and the date it is reported for. */
  datatype Logged = Logged(trend: Trend, date: Date)

  /** The message logged while processing row i. It reports on row i - 1, the
      row whose date the loop still holds at that point. */
  function LoggedAt(values: seq<int>, dates: seq<Date>, i: nat, variation: int): (m: Option<Logged>)
    requires |dates| == |values| && i < |values|
    ensures m.Some? <==> RowMessage(values, i, variation).Some?
    ensures m.Some? ==> m.value.trend == RowMessage(values, i, variation).value && m.value.date == dates[i - 1]
  {
    match RowMessage(values, i, variation)
    case None => None
    case Some(t) => Some(Logged(t, dates[i - 1]))
  }

  /** The messages logged over a whole series, one per row. */
  function LoggedSeries(values: seq<int>, dates: seq<Date>, variation: int): (m: seq<Option<Logged>>)
    requires |dates| == |values|
    ensures |m| == |values|
    ensures forall k {:trigger m[k]} :: 0 <= k < |values| ==> m[k] == LoggedAt(values, dates, k, variation)
  {
    seq(|values|, k requires 0 <= k < |values| => LoggedAt(values, dates, k, variation))
  }
}
