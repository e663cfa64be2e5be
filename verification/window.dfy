/** The windowed aggregator both Pillar scripts run per series: for row i,
    scan back through rows i, i-1, ..., 1 for the first whose date lies at
    least `period` days before row i's date, then difference the cumulative
    counters (Pillar 2 "Rolling") or take the earlier counter as the
    recovered count (Pillar 1 "Infectious"). Row 0 is never scanned. */
module Window {
  import opened Wrappers
  import opened Calendar

  /** One row of a series: its date and its parsed cumulative counter. */
  datatype Sample = Sample(date: Date, cumulative: int)

  predicate DatesValid(s: seq<Sample>) {
    forall k :: 0 <= k < |s| ==> Valid(s[k].date)
  }

  /** Dates never go backwards along the series. */
  predicate Chronological(s: seq<Sample>) {
    && DatesValid(s)
    && forall a, b :: 0 <= a <= b < |s| ==> DayNumber(s[a].date) <= DayNumber(s[b].date)
  }

  /** Cumulative counters never go down and never go below zero. */
  predicate CountersMonotonic(s: seq<Sample>) {
    && (forall a :: 0 <= a < |s| ==> s[a].cumulative >= 0)
    && forall a, b :: 0 <= a <= b < |s| ==> s[a].cumulative <= s[b].cumulative
  }

  /** (date[i] - date[j]).days */
  function Gap(s: seq<Sample>, i: nat, j: nat): int
    requires DatesValid(s) && i < |s| && j < |s|
  {
    DaysBetween(s[j].date, s[i].date)
  }

  /** The inner loop from j down to 1: the first index whose date is at least
      `period` days before row i's, if any. */
  function ScanBack(s: seq<Sample>, i: nat, j: nat, period: int): (r: Option<nat>)
    requires DatesValid(s) && j <= i < |s|
    ensures r.Some? ==> 1 <= r.value <= j
    decreases j
  {
    if j == 0 then None
    else if Gap(s, i, j) >= period then Some(j)
    else ScanBack(s, i, j - 1, period)
  }

  /** The scan finds the highest index in 1..j at least `period` days before
      row i, and finds nothing exactly when there is none. */
  lemma {:induction false} ScanBackMeaning(s: seq<Sample>, i: nat, j: nat, period: int)
    requires DatesValid(s) && j <= i < |s|
    ensures var r := ScanBack(s, i, j, period);
      && (r.Some? ==> Gap(s, i, r.value) >= period)
      && (r.Some? ==> forall k :: r.value < k <= j ==> Gap(s, i, k) < period)
      && (r.None? ==> forall k :: 1 <= k <= j ==> Gap(s, i, k) < period)
    decreases j
  {
    if j > 0 && Gap(s, i, j) < period {
      ScanBackMeaning(s, i, j - 1, period);
    }
  }

  /** The window boundary of row i: the scan started at i itself. */
  function Boundary(s: seq<Sample>, i: nat, period: int): Option<nat>
    requires DatesValid(s) && i < |s|
  {
    ScanBack(s, i, i, period)
  }

  /** The inner `for PreviousPeriod in range(i, 0, -1)` loop with its
      `break`: the first row, scanning back from i, far enough in the past. */
  method FindBoundary(s: seq<Sample>, i: nat, period: int) returns (b: Option<nat>)
    requires DatesValid(s) && i < |s|
    ensures b == Boundary(s, i, period)
  {
    var j: nat := i;
    while j > 0
      invariant j <= i
      invariant ScanBack(s, i, j, period) == Boundary(s, i, period)
    {
      if DaysBetween(s[j].date, s[i].date) >= period {
        return Some(j);
      }
      j := j - 1;
    }
    return None;
  }

  /** The Pillar 2 `Rolling` variable after row i: the counter difference to
      the boundary row, or, with no boundary, the value left by the previous
      row (0 before the first). */
  function RollingAt(s: seq<Sample>, period: int, i: nat): int
    requires DatesValid(s) && i < |s|
    decreases i
  {
    match Boundary(s, i, period)
    case Some(j) => s[i].cumulative - s[j].cumulative
    case None => if i == 0 then 0 else RollingAt(s, period, i - 1)
  }

  /** The rolling values of every row, in row order. */
  function RollingSeries(s: seq<Sample>, period: int): (r: seq<int>)
    requires DatesValid(s)
    ensures |r| == |s|
    ensures forall k {:trigger r[k]} :: 0 <= k < |s| ==> r[k] == RollingAt(s, period, k)
  {
    seq(|s|, k requires 0 <= k < |s| => RollingAt(s, period, k))
  }

  /** The dates of every row, in row order. */
  function SampleDates(s: seq<Sample>): (r: seq<Date>)
    ensures |r| == |s|
    ensures forall k :: 0 <= k < |s| ==> r[k] == s[k].date
  {
    seq(|s|, k requires 0 <= k < |s| => s[k].date)
  }

  /** The Pillar 1 `Recovered` count of row i: the boundary row's counter,
      reset to 0 for every row that has no boundary. */
  function Recovered(s: seq<Sample>, period: int, i: nat): int
    requires DatesValid(s) && i < |s|
  {
    match Boundary(s, i, period)
    case Some(j) => s[j].cumulative
    case None => 0
  }

  /** The Pillar 1 `Infectious` estimate of row i. */
  function InfectiousAt(s: seq<Sample>, period: int, i: nat): int
    requires DatesValid(s) && i < |s|
  {
    s[i].cumulative - Recovered(s, period, i)
  }

  /** The Infectious values of every row, in row order. */
  function InfectiousSeries(s: seq<Sample>, period: int): (r: seq<int>)
    requires DatesValid(s)
    ensures |r| == |s|
    ensures forall k {:trigger r[k]} :: 0 <= k < |s| ==> r[k] == InfectiousAt(s, period, k)
  {
    seq(|s|, k requires 0 <= k < |s| => InfectiousAt(s, period, k))
  }

  /** Recovered starts from 0 on every row: a row with no boundary counts
      its whole cumulative total as infectious, whatever the rows before it
      found, unlike Rolling, which keeps the previous row's value. */
  lemma InfectiousWithoutBoundary(s: seq<Sample>, period: int, i: nat)
    requires DatesValid(s) && i < |s| && Boundary(s, i, period).None?
    ensures InfectiousAt(s, period, i) == s[i].cumulative
    ensures i > 0 ==> RollingAt(s, period, i) == RollingAt(s, period, i - 1)
  {
  }

  /** With dates in order, once a row finds a boundary every later row finds
      one too, no earlier than the first. */
  lemma BoundaryPersists(s: seq<Sample>, period: int, i: nat, k: nat)
    requires Chronological(s) && i <= k < |s|
    requires Boundary(s, i, period).Some?
    ensures Boundary(s, k, period).Some?
    ensures Boundary(s, i, period).value <= Boundary(s, k, period).value
  {
    var j := Boundary(s, i, period).value;
    ScanBackMeaning(s, i, i, period);
    ScanBackMeaning(s, k, k, period);
    assert DayNumber(s[i].date) <= DayNumber(s[k].date);
    assert Gap(s, k, j) >= Gap(s, i, j) >= period;
  }

  /** With dates in order the carried-over value is never stale: Rolling is
      the counter difference to the boundary, or 0 when there is none. */
  lemma {:induction false} RollingFreshWhenChronological(s: seq<Sample>, period: int, i: nat)
    requires Chronological(s) && i < |s|
    ensures RollingAt(s, period, i) ==
      match Boundary(s, i, period)
      case Some(j) => s[i].cumulative - s[j].cumulative
      case None => 0
  {
    if Boundary(s, i, period).None? && i > 0 {
      if Boundary(s, i - 1, period).Some? {
        BoundaryPersists(s, period, i - 1, i);
      }
      RollingFreshWhenChronological(s, period, i - 1);
    }
  }

  /** Counters that only grow give a rolling total that is never negative. */
  lemma {:induction false} RollingNonNegative(s: seq<Sample>, period: int, i: nat)
    requires DatesValid(s) && CountersMonotonic(s) && i < |s|
    ensures RollingAt(s, period, i) >= 0
  {
    if Boundary(s, i, period).None? && i > 0 {
      RollingNonNegative(s, period, i - 1);
    }
  }

  /** Counters that only grow give an infectious estimate between 0 and the
      row's own cumulative count. */
  lemma InfectiousWithinCumulative(s: seq<Sample>, period: int, i: nat)
    requires DatesValid(s) && CountersMonotonic(s) && i < |s|
    ensures 0 <= InfectiousAt(s, period, i) <= s[i].cumulative
  {
    match Boundary(s, i, period)
    case Some(j) =>
      assert s[j].cumulative <= s[i].cumulative;
    case None =>
  }

  /** Four rows on days 0, 3, 7 and 10 with a 7-day period: the row on day 7
      gets no boundary, because the row on day 0 is never scanned, and keeps
      the previous value 0; only the row on day 10 finds one (day 3). */
  lemma RowZeroNeverScanned()
    ensures var s := [Sample(Date(2020, 6, 1), 10), Sample(Date(2020, 6, 4), 15),
                      Sample(Date(2020, 6, 8), 25), Sample(Date(2020, 6, 11), 40)];
      && Gap(s, 2, 0) == 7
      && Boundary(s, 2, 7) == None
      && Boundary(s, 3, 7) == Some(1)
      && [RollingAt(s, 7, 0), RollingAt(s, 7, 1), RollingAt(s, 7, 2), RollingAt(s, 7, 3)] == [0, 0, 0, 25]
  {
    var s := [Sample(Date(2020, 6, 1), 10), Sample(Date(2020, 6, 4), 15),
              Sample(Date(2020, 6, 8), 25), Sample(Date(2020, 6, 11), 40)];
    assert Gap(s, 2, 2) == 0 && Gap(s, 2, 1) == 4 && Gap(s, 2, 0) == 7;
    assert Gap(s, 3, 3) == 0 && Gap(s, 3, 2) == 3 && Gap(s, 3, 1) == 7;
    assert Gap(s, 1, 1) == 0;
    assert Boundary(s, 0, 7) == None;
    assert Boundary(s, 1, 7) == None;
    assert Boundary(s, 2, 7) == None;
    assert Boundary(s, 3, 7) == Some(1);
  }
}
