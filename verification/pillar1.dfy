/** The Pillar 1 update: pick the rows of the configured areas out of the
    downloaded file (which lists them newest first), reverse each area's rows
    into date order, then for every area estimate the infectious count of
    each row, write one output line per row, log the trend of the estimate
    and raise the attention flag when some area ends on an increase. */
module Pillar1 {
  import opened Wrappers
  import opened Text
  import opened Calendar
  import opened DateFormats
  import opened ReportHelpers
  import opened Window
  import opened Trend

  /** The allowed variation in the infectious count. */
  const Variation := 5

  /** A row taken for an area: column 3 read as its date, columns 4 and 5
      (daily and cumulative) cut to the text before any decimal point. */
  datatype AreaRow = AreaRow(date: Date, cells: seq<string>)

  /** A taken row and the area it was taken for. */
  datatype Tagged = Tagged(area: string, row: AreaRow)

  /** What one line of the download contributes to the extraction. */
  datatype AreaLine = Take(tagged: Tagged) | Pass | End

  predicate DatesValidIn(rows: seq<AreaRow>) {
    forall k :: 0 <= k < |rows| ==> Valid(rows[k].date)
  }

  // ----- Extraction -----

  /** The configured areas whose names the area column starts with (the
      IsPresent test on column 0), in configuration order, a repeated area
      once per repetition. */
  function MatchingAreas(areas: seq<string>, name: string): (m: seq<string>)
    ensures |m| <= |areas|
  {
    if |areas| == 0 then []
    else
      var last := areas[|areas| - 1];
      MatchingAreas(areas[..|areas| - 1], name) + (if StartsWith(name, last) then [last] else [])
  }

  /** An area matches exactly when it is configured and the column starts
      with it. */
  lemma {:induction false} MatchingAreasMeaning(areas: seq<string>, name: string)
    ensures forall a :: a in MatchingAreas(areas, name) <==> a in areas && StartsWith(name, a)
  {
    if |areas| > 0 {
      MatchingAreasMeaning(areas[..|areas| - 1], name);
      assert areas == areas[..|areas| - 1] + [areas[|areas| - 1]];
    }
  }

  /** Matching one more configured area adds it at the end when it matches. */
  lemma MatchingAreasStep(areas: seq<string>, j: nat, name: string)
    requires j < |areas|
    ensures MatchingAreas(areas[..j + 1], name) ==
      MatchingAreas(areas[..j], name) + (if StartsWith(name, areas[j]) then [areas[j]] else [])
  {
    assert areas[..j + 1][..j] == areas[..j];
  }

  /** The first match of a line: column 3 becomes a date (ReturnDate) and
      columns 4 and 5 lose their decimal part; a missing column is an
      IndexError and a date ReturnDate cannot read raises its exception. */
  function ReadAreaRow(cells: seq<string>): (r: Result<AreaRow>)
    ensures r.Ok? ==> |cells| > 5 && ParseIsoDate(cells[3]) == Ok(r.value.date)
    ensures r.Ok? ==> Valid(r.value.date) && |r.value.cells| == |cells|
    ensures r.Ok? ==> forall k :: 0 <= k < |cells| && k != 4 && k != 5 ==> r.value.cells[k] == cells[k]
    ensures r.Ok? ==> r.value.cells[4] == GetDecimalPart(cells[4]) && r.value.cells[5] == GetDecimalPart(cells[5])
    ensures r.Ok? ==> '.' !in r.value.cells[4] && '.' !in r.value.cells[5]
    ensures r.Err? <==> |cells| <= 5 || ParseIsoDate(cells[3]).Err?
  {
    if |cells| <= 3 then Err(IndexOutOfRange)
    else
      match ParseIsoDate(cells[3])
      case Err(f) => Err(f)
      case Ok(date) =>
        if |cells| <= 5 then Err(IndexOutOfRange)
        else Ok(AreaRow(date, cells[4 := GetDecimalPart(cells[4])][5 := GetDecimalPart(cells[5])]))
  }

  /** What the loop over the configured areas makes of a line of the right
      tier: nothing when no area matches; the row, tagged with its area,
      when exactly one does. A second match finds the date column already
      turned into a date object, and ReturnDate's split fails on it with an
      AttributeError. */
  function MatchOutcome(cells: seq<string>, areas: seq<string>): (r: Result<Option<Tagged>>)
    requires |cells| > 0
    ensures r.Ok? && r.value.Some? ==> r.value.value.area in areas
  {
    var m := MatchingAreas(areas, cells[0]);
    if |m| == 0 then Ok(None)
    else
      match ReadAreaRow(cells)
      case Err(f) => Err(f)
      case Ok(row) =>
        if |m| > 1 then Err(NotAString)
        else
          MatchingAreasMeaning(areas, cells[0]);
          assert m[0] in m;
          Ok(Some(Tagged(m[0], row)))
  }

  /** Nothing is taken exactly when no area matches; the row is taken,
      tagged with the matching area, exactly when one area matches and the
      row reads; otherwise the row's own fault is raised at the first match,
      or an AttributeError at the second. */
  lemma MatchOutcomeMeaning(cells: seq<string>, areas: seq<string>)
    requires |cells| > 0
    ensures var r := MatchOutcome(cells, areas);
      var m := MatchingAreas(areas, cells[0]);
      && (r == Ok(None) <==> |m| == 0)
      && (r.Ok? && r.value.Some? <==> |m| == 1 && ReadAreaRow(cells).Ok?)
      && (r.Ok? && r.value.Some? ==> r.value.value == Tagged(m[0], ReadAreaRow(cells).value))
      && (r.Err? <==> |m| > 0 && (ReadAreaRow(cells).Err? || |m| > 1))
      && (r.Err? ==> r.fault == if ReadAreaRow(cells).Err? then ReadAreaRow(cells).fault else NotAString)
  {
  }

  /** The inner `for Area in Areas` loop over a line of the right tier:
      the first area that matches takes the row, a second one fails. */
  method TakeLine(cells: seq<string>, areas: seq<string>) returns (r: Result<Option<Tagged>>)
    requires |cells| > 2
    ensures r == MatchOutcome(cells, areas)
  {
    var taken: Option<Tagged> := None;
    ghost var row := ReadAreaRow(cells);
    for j := 0 to |areas|
      invariant var m := MatchingAreas(areas[..j], cells[0]);
        && (taken.None? <==> |m| == 0)
        && (taken.Some? ==> |m| == 1 && row.Ok? && taken.value == Tagged(m[0], row.value))
    {
      MatchingAreasStep(areas, j, cells[0]);
      if StartsWith(cells[0], areas[j]) {
        if taken.Some? {
          MatchedEarly(cells, areas, j + 1);
          return Err(NotAString);
        }
        var read := ReadAreaRow(cells);
        if read.Err? {
          MatchedEarly(cells, areas, j + 1);
          return Err(read.fault);
        }
        taken := Some(Tagged(areas[j], read.value));
      }
    }
    assert areas[..|areas|] == areas;
    MatchOutcomeMeaning(cells, areas);
    r := Ok(taken);
  }

  /** Once the first j areas hold a match, the line's outcome is already
      fixed when its row does not read or when they hold a second match. */
  lemma MatchedEarly(cells: seq<string>, areas: seq<string>, j: nat)
    requires |cells| > 0 && j <= |areas|
    ensures var m := MatchingAreas(areas[..j], cells[0]);
      && (|m| > 0 && ReadAreaRow(cells).Err? ==> MatchOutcome(cells, areas) == Err(ReadAreaRow(cells).fault))
      && (|m| > 1 && ReadAreaRow(cells).Ok? ==> MatchOutcome(cells, areas) == Err(NotAString))
  {
    MatchingAreasGrow(areas, j, |areas|, cells[0]);
    assert areas[..|areas|] == areas;
    MatchOutcomeMeaning(cells, areas);
  }

  /** Matching a longer prefix of the areas keeps the earlier matches at the
      front. */
  lemma {:induction false} MatchingAreasGrow(areas: seq<string>, j: nat, n: nat, name: string)
    requires j <= n <= |areas|
    ensures |MatchingAreas(areas[..j], name)| <= |MatchingAreas(areas[..n], name)|
    ensures |MatchingAreas(areas[..j], name)| > 0 ==>
      MatchingAreas(areas[..n], name)[0] == MatchingAreas(areas[..j], name)[0]
    decreases n - j
  {
    if j < n {
      MatchingAreasGrow(areas, j, n - 1, name);
      MatchingAreasStep(areas, n - 1, name);
    }
  }

  /** One line of the extraction loop. An empty line ends the scan; a line
      whose type column does not start with the tier is passed over; any
      other line goes through the loop over the configured areas. */
  function AreaLineOutcome(line: string, tier: string, areas: seq<string>): (r: Result<AreaLine>)
    ensures r == Ok(End) <==> |line| == 0
    ensures r.Ok? && r.value.Take? ==> r.value.tagged.area in areas && Valid(r.value.tagged.row.date)
  {
    if |line| == 0 then Ok(End)
    else
      var cells := Split(line, ',');
      match IsPresent(tier, 2, cells)
      case Err(f) => Err(f)
      case Ok(present) =>
        if !present then Ok(Pass)
        else
          match MatchOutcome(cells, areas)
          case Err(f) => Err(f)
          case Ok(None) => Ok(Pass)
          case Ok(Some(t)) => Ok(Take(t))
  }

  /** A line is taken iff it is of the tier, its area column matches
      exactly one configured area and its row reads; it is passed iff it is
      of another tier or of no configured area; otherwise it raises: an
      IndexError without a type column, the row's own fault, or an
      AttributeError at a second matching area. */
  lemma AreaLineOutcomeMeaning(line: string, tier: string, areas: seq<string>)
    requires |line| > 0
    ensures var r := AreaLineOutcome(line, tier, areas);
      var cells := Split(line, ',');
      var m := MatchingAreas(areas, cells[0]);
      && (r.Ok? && r.value.Take? <==>
            |cells| > 2 && StartsWith(cells[2], tier) && |m| == 1 && ReadAreaRow(cells).Ok?)
      && (r.Ok? && r.value.Take? ==>
            && |cells| > 5
            && m == [r.value.tagged.area]
            && ReadAreaRow(cells) == Ok(r.value.tagged.row))
      && (r == Ok(Pass) <==> |cells| > 2 && (!StartsWith(cells[2], tier) || |m| == 0))
      && (r.Err? <==>
            |cells| <= 2 || (StartsWith(cells[2], tier) && |m| > 0 && (|m| > 1 || ReadAreaRow(cells).Err?)))
      && (r.Err? && |cells| <= 2 ==> r.fault == IndexOutOfRange)
      && (r.Err? && |cells| > 2 && ReadAreaRow(cells).Err? ==> r.fault == ReadAreaRow(cells).fault)
      && (r.Err? && |cells| > 2 && ReadAreaRow(cells).Ok? ==> r.fault == NotAString)
  {
    MatchOutcomeMeaning(Split(line, ','), areas);
  }

  /** The rows the scan of the whole download takes, tagged with their
      areas, in file order, or the exception that ends the scan. */
  function Extract(lines: seq<string>, tier: string, areas: seq<string>): (r: Result<seq<Tagged>>)
    ensures r.Ok? ==> |r.value| <= |lines|
    ensures r.Ok? ==> TaggedValid(r.value) && forall k :: 0 <= k < |r.value| ==> r.value[k].area in areas
    decreases |lines|
  {
    if |lines| == 0 then Ok([])
    else
      match AreaLineOutcome(lines[0], tier, areas)
      case Err(f) => Err(f)
      case Ok(End) => Ok([])
      case Ok(Pass) => Extract(lines[1..], tier, areas)
      case Ok(Take(t)) =>
        match Extract(lines[1..], tier, areas)
        case Err(f) => Err(f)
        case Ok(rest) =>
          TaggedPrepend(t, rest, areas);
          Ok([t] + rest)
  }

  /** A dated row of a configured area in front of such rows keeps them all
      dated and configured. */
  lemma TaggedPrepend(t: Tagged, rest: seq<Tagged>, areas: seq<string>)
    requires Valid(t.row.date) && t.area in areas
    requires TaggedValid(rest) && forall k :: 0 <= k < |rest| ==> rest[k].area in areas
    ensures TaggedValid([t] + rest) && forall k :: 0 <= k < |[t] + rest| ==> ([t] + rest)[k].area in areas
  {
  }

  /** One line of the extraction loop as the script runs it. */
  method ExtractLine(line: string, tier: string, areas: seq<string>) returns (r: Result<AreaLine>)
    requires |line| > 0
    ensures r == AreaLineOutcome(line, tier, areas)
  {
    var cells := Split(line, ',');
    var present := IsPresent(tier, 2, cells);
    if present.Err? {
      return Err(present.fault);
    }
    if !present.value {
      return Ok(Pass);
    }
    var taken := TakeLine(cells, areas);
    if taken.Err? {
      return Err(taken.fault);
    }
    if taken.value.None? {
      return Ok(Pass);
    }
    r := Ok(Take(taken.value.value));
  }

  /** The rows taken for one area, in file order. */
  function RowsFor(tagged: seq<Tagged>, area: string): (rows: seq<AreaRow>)
    ensures |rows| <= |tagged|
  {
    if |tagged| == 0 then []
    else
      var last := tagged[|tagged| - 1];
      RowsFor(tagged[..|tagged| - 1], area) + (if last.area == area then [last.row] else [])
  }

  lemma RowsForAppend(tagged: seq<Tagged>, t: Tagged, area: string)
    ensures RowsFor(tagged + [t], area) == RowsFor(tagged, area) + (if t.area == area then [t.row] else [])
  {
    assert (tagged + [t])[..|tagged|] == tagged;
  }

  /** Every row taken for an area is a row the scan took for it. */
  lemma {:induction false} RowsForTaken(tagged: seq<Tagged>, area: string)
    ensures forall row :: row in RowsFor(tagged, area) <==> Tagged(area, row) in tagged
  {
    if |tagged| > 0 {
      RowsForTaken(tagged[..|tagged| - 1], area);
      assert tagged == tagged[..|tagged| - 1] + [tagged[|tagged| - 1]];
    }
  }

  /** The rows taken carry valid dates. */
  predicate TaggedValid(tagged: seq<Tagged>) {
    forall k :: 0 <= k < |tagged| ==> Valid(tagged[k].row.date)
  }

  /** The rows an area holds once the scan has taken `tagged`: its taken
      rows, latest first. */
  function AreaRowsOf(tagged: seq<Tagged>, area: string): (rows: seq<AreaRow>)
    requires TaggedValid(tagged)
    ensures DatesValidIn(rows)
    ensures forall row :: row in rows <==> Tagged(area, row) in tagged
  {
    var inOrder := RowsFor(tagged, area);
    RowsForTaken(tagged, area);
    ReversedSameElements(inOrder);
    TakenRowsValid(tagged, area, Reversed(inOrder));
    Reversed(inOrder)
  }

  lemma TakenRowsValid(tagged: seq<Tagged>, area: string, rows: seq<AreaRow>)
    requires TaggedValid(tagged)
    requires forall row :: row in rows ==> Tagged(area, row) in tagged
    ensures DatesValidIn(rows)
  {
    forall k | 0 <= k < |rows|
      ensures Valid(rows[k].date)
    {
      assert rows[k] in rows;
      var j :| 0 <= j < |tagged| && tagged[j] == Tagged(area, rows[k]);
    }
  }

  /** s in the opposite order. */
  function Reversed<T>(s: seq<T>): (r: seq<T>)
    ensures |r| == |s|
  {
    if |s| == 0 then [] else [s[|s| - 1]] + Reversed(s[..|s| - 1])
  }

  /** Element k of the reversal is element k from the end. */
  lemma {:induction false} ReversedAt<T>(s: seq<T>, k: nat)
    requires k < |s|
    ensures Reversed(s)[k] == s[|s| - 1 - k]
  {
    if k > 0 {
      ReversedAt(s[..|s| - 1], k - 1);
    }
  }

  lemma ReversedSameElements<T>(s: seq<T>)
    ensures forall x :: x in Reversed(s) <==> x in s
  {
    forall k | 0 <= k < |s|
      ensures Reversed(s)[k] == s[|s| - 1 - k] && s[k] == Reversed(s)[|s| - 1 - k]
    {
      ReversedAt(s, k);
      ReversedAt(s, |s| - 1 - k);
    }
  }

  /** Reversing twice gives the sequence back. */
  lemma ReversedTwice<T>(s: seq<T>)
    ensures Reversed(Reversed(s)) == s
  {
    forall k | 0 <= k < |s|
      ensures Reversed(Reversed(s))[k] == s[k]
    {
      ReversedAt(Reversed(s), k);
      ReversedAt(s, |s| - 1 - k);
    }
  }

  lemma ReversedAppend<T>(s: seq<T>, x: T)
    ensures Reversed(s + [x]) == [x] + Reversed(s)
  {
    assert (s + [x])[..|s|] == s;
  }

  /** Rows taken before some lines, then the rows the rest of the scan takes. */
  function Continue(taken: seq<Tagged>, rest: Result<seq<Tagged>>): Result<seq<Tagged>> {
    match rest
    case Ok(more) => Ok(taken + more)
    case Err(f) => Err(f)
  }

  lemma ContinueTwice(taken: seq<Tagged>, t: Tagged, rest: Result<seq<Tagged>>)
    ensures Continue(taken, Continue([t], rest)) == Continue(taken + [t], rest)
  {
    if rest.Ok? {
      ConcatAssoc(taken, [t], rest.value);
    }
  }

  /** The extraction state after some lines: every configured area holds
      the rows taken for it, latest first, and its count is their number. */
  ghost predicate ExtractionState(areas: seq<string>, taken: seq<Tagged>,
                                  data: map<string, seq<AreaRow>>, counts: map<string, nat>)
  {
    && (forall a :: a in data <==> a in areas)
    && (forall a :: a in counts <==> a in areas)
    && forall a :: a in areas ==> data[a] == Reversed(RowsFor(taken, a)) && counts[a] == |data[a]|
  }

  /** `AreaData[Area] = []` for every configured area. */
  function NoRows(areas: seq<string>): map<string, seq<AreaRow>> {
    map a | a in areas :: []
  }

  /** `AreaDataCount[Area] = 0` for every configured area. */
  function NoCounts(areas: seq<string>): map<string, nat> {
    map a | a in areas :: 0
  }

  /** Before the scan every configured area has no rows and a zero count. */
  lemma ExtractionStart(areas: seq<string>)
    ensures ExtractionState(areas, [], NoRows(areas), NoCounts(areas))
  {
  }

  /** One taken row goes to the front of its area's list. */
  lemma TakeStep(areas: seq<string>, taken: seq<Tagged>, data: map<string, seq<AreaRow>>,
                 counts: map<string, nat>, t: Tagged)
    requires ExtractionState(areas, taken, data, counts) && t.area in areas
    ensures ExtractionState(areas, taken + [t],
                            data[t.area := [t.row] + data[t.area]], counts[t.area := counts[t.area] + 1])
  {
    var data' := data[t.area := [t.row] + data[t.area]];
    var counts' := counts[t.area := counts[t.area] + 1];
    forall a | a in areas
      ensures data'[a] == Reversed(RowsFor(taken + [t], a)) && counts'[a] == |data'[a]|
    {
      RowsForAppend(taken, t, a);
      if a == t.area {
        ReversedAppend(RowsFor(taken, a), t.row);
      } else {
        assert RowsFor(taken, a) + [] == RowsFor(taken, a);
      }
    }
  }

  /** The scan after i lines: the rows taken so far are in place, and the
      rest of the scan takes the remaining rows. */
  ghost predicate ScanState(lines: seq<string>, tier: string, areas: seq<string>, i: nat, taken: seq<Tagged>,
                            data: map<string, seq<AreaRow>>, counts: map<string, nat>)
  {
    && i <= |lines|
    && ExtractionState(areas, taken, data, counts)
    && Extract(lines, tier, areas) == Continue(taken, Extract(lines[i..], tier, areas))
  }

  /** One non-empty line of the scan: the exception it raises, or the state
      with its row, if taken, inserted. */
  method ScanLine(lines: seq<string>, tier: string, areas: seq<string>, i: nat, ghost taken: seq<Tagged>,
                  data: map<string, seq<AreaRow>>, counts: map<string, nat>)
    returns (fault: Option<Fault>, ghost taken': seq<Tagged>, data': map<string, seq<AreaRow>>, counts': map<string, nat>)
    requires i < |lines| && |lines[i]| > 0
    requires ScanState(lines, tier, areas, i, taken, data, counts)
    ensures fault.Some? ==> Extract(lines, tier, areas) == Err(fault.value)
    ensures fault.None? ==> ScanState(lines, tier, areas, i + 1, taken', data', counts')
  {
    assert lines[i..][1..] == lines[i + 1..];
    taken', data', counts' := taken, data, counts;
    var outcome := ExtractLine(lines[i], tier, areas);
    if outcome.Err? {
      return Some(outcome.fault), taken', data', counts';
    }
    fault := None;
    if outcome.value.Take? {
      var t := outcome.value.tagged;
      TakeStep(areas, taken, data, counts, t);
      ContinueTwice(taken, t, Extract(lines[i + 1..], tier, areas));
      data' := data[t.area := [t.row] + data[t.area]];
      counts' := counts[t.area := counts[t.area] + 1];
      taken' := taken + [t];
    }
  }

  /** The extraction loop (the scan of the download): each configured area
      starts with no rows and a zero count; a taken row is inserted at the
      front of its area's list, so each list ends up in the reverse of file
      order. */
  method ExtractAreas(lines: seq<string>, tier: string, areas: seq<string>)
    returns (r: Result<map<string, seq<AreaRow>>>, counts: map<string, nat>)
    ensures r.Ok? <==> Extract(lines, tier, areas).Ok?
    ensures r.Err? ==> r.fault == Extract(lines, tier, areas).fault
    ensures r.Ok? ==> ExtractionState(areas, Extract(lines, tier, areas).value, r.value, counts)
  {
    var data := NoRows(areas);
    counts := NoCounts(areas);
    ghost var taken: seq<Tagged> := [];
    ScanStart(lines, tier, areas);
    var i := 0;
    while i < |lines|
      invariant ScanState(lines, tier, areas, i, taken, data, counts)
    {
      if |lines[i]| == 0 {
        break;
      }
      var fault;
      fault, taken, data, counts := ScanLine(lines, tier, areas, i, taken, data, counts);
      if fault.Some? {
        return Err(fault.value), counts;
      }
      i := i + 1;
    }
    ScanEnd(lines, tier, areas, i, taken, data, counts);
    r := Ok(data);
  }

  /** Before the scan nothing is taken and every configured area is empty. */
  lemma ScanStart(lines: seq<string>, tier: string, areas: seq<string>)
    ensures ScanState(lines, tier, areas, 0, [], NoRows(areas), NoCounts(areas))
  {
    ExtractionStart(areas);
    assert lines[0..] == lines;
    match Extract(lines, tier, areas) {
      case Ok(all) => assert [] + all == all;
      case Err(_) =>
    }
  }

  /** The scan stops at the end of the download or at its first empty line,
      having taken every row the extraction takes. */
  lemma ScanEnd(lines: seq<string>, tier: string, areas: seq<string>, i: nat, taken: seq<Tagged>,
                data: map<string, seq<AreaRow>>, counts: map<string, nat>)
    requires ScanState(lines, tier, areas, i, taken, data, counts)
    requires i == |lines| || |lines[i]| == 0
    ensures Extract(lines, tier, areas) == Ok(taken)
    ensures ExtractionState(areas, taken, data, counts)
  {
    assert Extract(lines[i..], tier, areas) == Ok([]);
    assert taken + [] == taken;
  }

  /** Rows listed newest first. */
  predicate NewestFirst(rows: seq<AreaRow>)
    requires DatesValidIn(rows)
  {
    forall a, b :: 0 <= a <= b < |rows| ==> DayNumber(rows[b].date) <= DayNumber(rows[a].date)
  }

  /** The download lists each area newest first, so the front insertion
      leaves every area's rows oldest first, the order the window scan
      needs. */
  lemma ReversedIsChronological(rows: seq<AreaRow>)
    requires DatesValidIn(rows) && NewestFirst(rows)
    ensures DatesValidIn(Reversed(rows)) && Chronological(AreaSamples(Reversed(rows)))
  {
    forall k | 0 <= k < |rows|
      ensures Reversed(rows)[k] == rows[|rows| - 1 - k]
    {
      ReversedAt(rows, k);
    }
  }

  // ----- Processing -----

  /** int() of a row's cumulative column, when it has one and it is numeric. */
  function CumulativeOf(row: AreaRow): Option<int> {
    if |row.cells| > 5 then ParseInt(row.cells[5]) else None
  }

  /** An area's rows as window samples; a value int() rejects stands as 0,
      which is only read once processing has already failed. */
  function AreaSamples(rows: seq<AreaRow>): (s: seq<Sample>)
    ensures |s| == |rows|
    ensures forall k :: 0 <= k < |rows| ==> s[k].date == rows[k].date
    ensures DatesValidIn(rows) ==> DatesValid(s)
  {
    seq(|rows|, k requires 0 <= k < |rows| =>
      Sample(rows[k].date, match CumulativeOf(rows[k]) case Some(v) => v case None => 0))
  }

  lemma AreaSampleCounter(rows: seq<AreaRow>, k: nat)
    requires k < |rows| && CumulativeOf(rows[k]).Some?
    ensures AreaSamples(rows)[k].cumulative == CumulativeOf(rows[k]).value
  {
  }

  /** The exception row i of an area raises, if any: an IndexError when it
      lacks the rate column 6 the output dictionary reads, a ValueError when
      the boundary row's cumulative column or its own is not numeric. */
  function AreaRowFault(rows: seq<AreaRow>, period: int, i: nat): Option<Fault>
    requires DatesValidIn(rows) && i < |rows|
  {
    if |rows[i].cells| <= 6 then Some(IndexOutOfRange)
    else
      var boundary := Boundary(AreaSamples(rows), i, period);
      if boundary.Some? && CumulativeOf(rows[boundary.value]).None? then Some(NotANumber)
      else if CumulativeOf(rows[i]).None? then Some(NotANumber)
      else None
  }

  /** Every row's exception, in row order. */
  function AreaRowFaults(rows: seq<AreaRow>, period: int): (faults: seq<Option<Fault>>)
    requires DatesValidIn(rows)
    ensures |faults| == |rows|
    ensures forall k {:trigger faults[k]} :: 0 <= k < |rows| ==> faults[k] == AreaRowFault(rows, period, k)
  {
    seq(|rows|, k requires 0 <= k < |rows| => AreaRowFault(rows, period, k))
  }

  /** No row before n raises. */
  predicate NoAreaFault(rows: seq<AreaRow>, period: int, n: nat)
    requires DatesValidIn(rows) && n <= |rows|
  {
    forall k :: 0 <= k < n ==> AreaRowFaults(rows, period)[k].None?
  }

  lemma NoAreaFaultAt(rows: seq<AreaRow>, period: int, n: nat)
    requires DatesValidIn(rows) && n <= |rows|
    ensures NoAreaFault(rows, period, n) <==> forall k :: 0 <= k < n ==> AreaRowFault(rows, period, k).None?
  {
    SameFaults(AreaRowFaults(rows, period), rows, period, 0, n);
  }

  /** The first exception raised while processing an area's rows from row
      `from` on. */
  function FirstAreaFault(rows: seq<AreaRow>, period: int, from: nat): Option<Fault>
    requires DatesValidIn(rows) && from <= |rows|
  {
    FirstSome(AreaRowFaults(rows, period), from)
  }

  /** The first fault is the fault of the first row that raises, and there
      is none exactly when no row raises. */
  lemma FirstAreaFaultMeaning(rows: seq<AreaRow>, period: int, from: nat)
    requires DatesValidIn(rows) && from <= |rows|
    ensures FirstAreaFault(rows, period, from).None? <==>
      forall k :: from <= k < |rows| ==> AreaRowFault(rows, period, k).None?
    ensures FirstAreaFault(rows, period, from).Some? ==>
      exists i :: from <= i < |rows| && AreaRowFault(rows, period, i) == FirstAreaFault(rows, period, from)
        && forall k :: from <= k < i ==> AreaRowFault(rows, period, k).None?
  {
    var faults := AreaRowFaults(rows, period);
    FirstSomeMeaning(faults, from);
    SameFaults(faults, rows, period, from, |rows|);
    if FirstSome(faults, from).Some? {
      var i :| from <= i < |faults| && faults[i] == FirstSome(faults, from)
        && forall k :: from <= k < i ==> faults[k].None?;
      SameFaults(faults, rows, period, from, i);
    }
  }

  /** The fault processing an area ends with, if any. */
  function AreaFault(rows: seq<AreaRow>, period: int): Option<Fault>
    requires DatesValidIn(rows)
  {
    FirstAreaFault(rows, period, 0)
  }

  const AreaOutputKeys: seq<string> := ["Area", "Date", "Daily", "Infectious", "Cumulative", "Rate"]

  /** The output fields of a row: area, date, daily, infectious estimate,
      cumulative and rate. */
  function AreaOutputFields(row: AreaRow, infectious: int): seq<string>
    requires Valid(row.date) && |row.cells| > 6
  {
    [row.cells[0], IsoFormat(row.date), row.cells[4], IntToString(infectious), row.cells[5], row.cells[6]]
  }

  /** The output row of one area row (the OutData dictionary, its field list
      and the CSV row). */
  method WriteAreaRow(row: AreaRow, infectious: int) returns (line: string)
    requires Valid(row.date) && |row.cells| > 6
    ensures line == CsvRow(AreaOutputFields(row, infectious))
  {
    var fields := map["Area" := row.cells[0], "Type" := row.cells[2], "Date" := IsoFormat(row.date),
                      "Daily" := row.cells[4], "Cumulative" := row.cells[5], "Rate" := row.cells[6],
                      "Infectious" := IntToString(infectious)];
    var list := GenerateFieldList(AreaOutputKeys, fields);
    assert list.value == AreaOutputFields(row, infectious);
    line := GenerateCSVRow(list.value);
  }

  /** The output lines of an area's first n rows. */
  ghost predicate AreaLinesUpTo(rows: seq<AreaRow>, values: seq<int>, n: nat, lines: seq<string>)
    requires DatesValidIn(rows) && n <= |rows| == |values|
  {
    && |lines| == n
    && forall k {:trigger lines[k]} :: 0 <= k < n ==>
         |rows[k].cells| > 6 && lines[k] == CsvRow(AreaOutputFields(rows[k], values[k]))
  }

  lemma AreaLinesExtend(rows: seq<AreaRow>, values: seq<int>, n: nat, lines: seq<string>, line: string)
    requires DatesValidIn(rows) && n < |rows| == |values|
    requires AreaLinesUpTo(rows, values, n, lines)
    requires |rows[n].cells| > 6 && line == CsvRow(AreaOutputFields(rows[n], values[n]))
    ensures AreaLinesUpTo(rows, values, n + 1, lines + [line])
  {
    var lines' := lines + [line];
    forall k | 0 <= k < n + 1
      ensures |rows[k].cells| > 6 && lines'[k] == CsvRow(AreaOutputFields(rows[k], values[k]))
    {
      if k < n {
        assert lines'[k] == lines[k];
      }
    }
  }

  /** The trend messages logged at an area's first n rows. */
  ghost predicate MessagesUpTo(values: seq<int>, dates: seq<Date>, n: nat, messages: seq<Option<Logged>>)
    requires n <= |values| == |dates|
  {
    messages == LoggedSeries(values, dates, Variation)[..n]
  }

  lemma MessagesExtend(values: seq<int>, dates: seq<Date>, n: nat, messages: seq<Option<Logged>>,
                       message: Option<Logged>)
    requires n < |values| == |dates|
    requires MessagesUpTo(values, dates, n, messages)
    requires message == LoggedAt(values, dates, n, Variation)
    ensures MessagesUpTo(values, dates, n + 1, messages + [message])
  {
    PrefixGrows(LoggedSeries(values, dates, Variation), n);
  }

  /** What processing one area leaves behind: its output lines, the message
      logged at each row, and the final classification. */
  datatype AreaReport = AreaReport(lines: seq<string>, messages: seq<Option<Logged>>, final: Trend)

  /** The report an area's rows call for: each row's line carries its
      infectious estimate, each row logs the trend of the estimates before
      it, and the final classification is that of the last estimate. */
  ghost predicate AreaReportMeets(rows: seq<AreaRow>, period: int, report: AreaReport)
    requires DatesValidIn(rows)
  {
    var s := AreaSamples(rows);
    var values := InfectiousSeries(s, period);
    && AreaLinesUpTo(rows, values, |rows|, report.lines)
    && MessagesUpTo(values, SampleDates(s), |rows|, report.messages)
    && report.final == FinalTrend(values, Variation)
  }

  /** The state of an area's loop after its first n rows. */
  ghost predicate AreaLoopState(rows: seq<AreaRow>, period: int, n: nat, infectious: int, previous: int,
                                currentDate: Option<Date>, lines: seq<string>, messages: seq<Option<Logged>>)
    requires DatesValidIn(rows)
  {
    var s := AreaSamples(rows);
    var values := InfectiousSeries(s, period);
    && n <= |rows|
    && infectious == ValueBefore(values, n - 1)
    && previous == ValueBefore(values, n - 2)
    && (n > 0 ==> currentDate == Some(rows[n - 1].date))
    && NoAreaFault(rows, period, n)
    && AreaLinesUpTo(rows, values, n, lines)
    && MessagesUpTo(values, SampleDates(s), n, messages)
  }

  /** The reading half of one row: the boundary scan with Recovered reset
      to 0, and int() of the cumulative columns; or the exception raised. */
  method ReadAreaRowCounts(rows: seq<AreaRow>, samples: seq<Sample>, period: int, i: nat)
    returns (fault: Option<Fault>, infectious: int)
    requires DatesValidIn(rows) && samples == AreaSamples(rows) && i < |rows|
    ensures fault == AreaRowFault(rows, period, i)
    ensures fault.None? ==> infectious == InfectiousAt(samples, period, i)
  {
    infectious := 0;
    if |rows[i].cells| <= 6 {
      return Some(IndexOutOfRange), infectious;
    }
    var recovered := 0;
    var boundary := FindBoundary(samples, i, period);
    if boundary.Some? {
      var earlier := CumulativeOf(rows[boundary.value]);
      if earlier.None? {
        return Some(NotANumber), infectious;
      }
      AreaSampleCounter(rows, boundary.value);
      recovered := earlier.value;
    }
    var cumulative := CumulativeOf(rows[i]);
    if cumulative.None? {
      return Some(NotANumber), infectious;
    }
    AreaSampleCounter(rows, i);
    infectious := cumulative.value - recovered;
    fault := None;
  }

  /** A row that raises nothing extends the area loop's state. */
  lemma AreaLoopStep(rows: seq<AreaRow>, period: int, i: nat, infectious: int, previous: int,
                     currentDate: Option<Date>, lines: seq<string>, messages: seq<Option<Logged>>,
                     value: int, line: string, message: Option<Logged>)
    requires DatesValidIn(rows) && i < |rows|
    requires AreaLoopState(rows, period, i, infectious, previous, currentDate, lines, messages)
    requires AreaRowFault(rows, period, i).None?
    requires value == InfectiousSeries(AreaSamples(rows), period)[i]
    requires |rows[i].cells| > 6 && line == CsvRow(AreaOutputFields(rows[i], value))
    requires message == LoggedAt(InfectiousSeries(AreaSamples(rows), period), SampleDates(AreaSamples(rows)), i, Variation)
    ensures AreaLoopState(rows, period, i + 1, value, infectious, Some(rows[i].date), lines + [line], messages + [message])
  {
    var s := AreaSamples(rows);
    var values := InfectiousSeries(s, period);
    assert AreaRowFaults(rows, period)[i].None?;
    AreaLinesExtend(rows, values, i, lines, line);
    MessagesExtend(values, SampleDates(s), i, messages, message);
  }

  /** One pass of an area's loop body (lines 326 to 359): read the output
      dictionary, log the trend, shift the estimates, scan back for the
      recovered count and write the row's line. */
  method AreaRowStep(rows: seq<AreaRow>, samples: seq<Sample>, period: int, i: nat,
                     infectious: int, previous: int, currentDate: Option<Date>,
                     lines: seq<string>, messages: seq<Option<Logged>>)
    returns (fault: Option<Fault>, infectious': int, previous': int, currentDate': Option<Date>,
             lines': seq<string>, messages': seq<Option<Logged>>)
    requires DatesValidIn(rows) && samples == AreaSamples(rows) && i < |rows|
    requires AreaLoopState(rows, period, i, infectious, previous, currentDate, lines, messages)
    ensures fault == AreaRowFault(rows, period, i)
    ensures fault.None? ==>
      AreaLoopState(rows, period, i + 1, infectious', previous', currentDate', lines', messages')
  {
    ghost var values := InfectiousSeries(samples, period);
    infectious', previous', currentDate', lines', messages' := infectious, previous, currentDate, lines, messages;
    var value;
    fault, value := ReadAreaRowCounts(rows, samples, period, i);
    if fault.Some? {
      return;
    }
    var message := LogInfectiousTrend(infectious, previous, currentDate);
    assert message == LoggedAt(values, SampleDates(samples), i, Variation);
    var line := WriteAreaRow(rows[i], value);
    AreaLoopStep(rows, period, i, infectious, previous, currentDate, lines, messages, value, line, message);
    infectious', previous', currentDate' := value, infectious, Some(rows[i].date);
    lines', messages' := lines + [line], messages + [message];
  }

  /** The trend message at the top of an iteration, logged only when the
      estimate before the last one is non-zero. */
  method LogInfectiousTrend(infectious: int, previous: int, currentDate: Option<Date>)
    returns (message: Option<Logged>)
    requires previous != 0 ==> currentDate.Some?
    ensures message.Some? <==> previous != 0
    ensures message.Some? ==> message.value == Logged(Classify(infectious - previous, Variation), currentDate.value)
  {
    message := None;
    if previous != 0 {
      message := Some(Logged(Classify(infectious - previous, Variation), currentDate.value));
    }
  }

  /** The loop over one area's rows, with the estimates starting from 0; it
      stops at the first row that raises. The date of the last row processed
      carries over to the next area, as the script's variable does. */
  method ProcessArea(rows: seq<AreaRow>, period: int, currentDate: Option<Date>)
    returns (r: Result<AreaReport>, currentDate': Option<Date>)
    requires DatesValidIn(rows)
    ensures r.Ok? <==> AreaFault(rows, period).None?
    ensures r.Err? ==> r.fault == AreaFault(rows, period).value
    ensures r.Ok? ==> AreaReportMeets(rows, period, r.value)
    ensures r.Ok? ==> currentDate' == if |rows| == 0 then currentDate else Some(rows[|rows| - 1].date)
  {
    var samples := AreaSamples(rows);
    var infectious, previous := 0, 0;
    currentDate' := currentDate;
    var lines: seq<string> := [];
    var messages: seq<Option<Logged>> := [];
    for i := 0 to |rows|
      invariant AreaLoopState(rows, period, i, infectious, previous, currentDate', lines, messages)
      invariant i == 0 ==> currentDate' == currentDate
    {
      var fault;
      fault, infectious, previous, currentDate', lines, messages :=
        AreaRowStep(rows, samples, period, i, infectious, previous, currentDate', lines, messages);
      if fault.Some? {
        AreaFaultAt(rows, period, i);
        return Err(fault.value), currentDate';
      }
    }
    AreaCompletes(rows, period, infectious, previous, currentDate', lines, messages);
    r := Ok(AreaReport(lines, messages, Classify(infectious - previous, Variation)));
  }

  /** A fault at row i after none before it is the area's fault. */
  lemma AreaFaultAt(rows: seq<AreaRow>, period: int, i: nat)
    requires DatesValidIn(rows) && i < |rows|
    requires NoAreaFault(rows, period, i) && AreaRowFault(rows, period, i).Some?
    ensures AreaFault(rows, period) == AreaRowFault(rows, period, i)
  {
    NoAreaFaultAt(rows, period, i);
    FirstAreaFaultMeaning(rows, period, 0);
    FirstFaultSkips(rows, period, 0, i);
  }

  lemma FirstFaultSkips(rows: seq<AreaRow>, period: int, from: nat, i: nat)
    requires DatesValidIn(rows) && from <= i < |rows|
    requires forall k :: from <= k < i ==> AreaRowFault(rows, period, k).None?
    ensures FirstAreaFault(rows, period, from) == FirstAreaFault(rows, period, i)
  {
    var faults := AreaRowFaults(rows, period);
    SameFaults(faults, rows, period, from, i);
    FirstSomeSkips(faults, from, i);
  }

  /** Between two rows, the listed faults are absent exactly when the rows
      raise nothing. */
  lemma SameFaults(faults: seq<Option<Fault>>, rows: seq<AreaRow>, period: int, from: nat, to: nat)
    requires DatesValidIn(rows) && from <= to <= |rows| && faults == AreaRowFaults(rows, period)
    ensures (forall k :: from <= k < to ==> faults[k].None?) <==>
            (forall k :: from <= k < to ==> AreaRowFault(rows, period, k).None?)
  {
    forall k | from <= k < to
      ensures faults[k] == AreaRowFault(rows, period, k)
    {
    }
  }

  /** The state after every row is the report the rows call for. */
  lemma AreaCompletes(rows: seq<AreaRow>, period: int, infectious: int, previous: int,
                      currentDate: Option<Date>, lines: seq<string>, messages: seq<Option<Logged>>)
    requires DatesValidIn(rows)
    requires AreaLoopState(rows, period, |rows|, infectious, previous, currentDate, lines, messages)
    ensures AreaFault(rows, period).None?
    ensures AreaReportMeets(rows, period, AreaReport(lines, messages, Classify(infectious - previous, Variation)))
  {
    NoAreaFaultAt(rows, period, |rows|);
    FirstAreaFaultMeaning(rows, period, 0);
  }

  /** Every area's rows have valid dates. */
  predicate AreaDatesValid(order: seq<string>, data: map<string, seq<AreaRow>>) {
    forall a :: 0 <= a < |order| ==> order[a] in data && DatesValidIn(data[order[a]])
  }

  /** The first area has no rows, so its final message names a date no
      row has set. */
  predicate FirstAreaEmpty(order: seq<string>, data: map<string, seq<AreaRow>>)
    requires AreaDatesValid(order, data)
  {
    |order| > 0 && |data[order[0]]| == 0
  }

  /** What the processing loop leaves behind: one report per area, in
      processing order, and the attention flag. */
  datatype Pillar1Report = Pillar1Report(reports: seq<AreaReport>, attention: bool)

  /** The processing loop (lines 318 to 369): each area in turn, the
      estimates reset to 0; after each area its final classification, which
      raises the single attention flag when it is Increasing. The flag is
      never lowered again. */
  method ProcessAreas(order: seq<string>, data: map<string, seq<AreaRow>>, period: int)
    returns (r: Result<Pillar1Report>)
    requires AreaDatesValid(order, data)
    ensures r.Ok? <==> (!FirstAreaEmpty(order, data) &&
                        forall a :: 0 <= a < |order| ==> AreaFault(data[order[a]], period).None?)
    ensures r.Err? && FirstAreaEmpty(order, data) ==> r.fault == Unbound
    ensures r.Err? && !FirstAreaEmpty(order, data) ==>
      exists a :: 0 <= a < |order| && AreaFault(data[order[a]], period) == Some(r.fault)
        && forall b :: 0 <= b < a ==> AreaFault(data[order[b]], period).None?
    ensures r.Ok? ==> |r.value.reports| == |order|
    ensures r.Ok? ==> forall a :: 0 <= a < |order| ==> AreaReportMeets(data[order[a]], period, r.value.reports[a])
    ensures r.Ok? ==> (r.value.attention <==> exists a :: 0 <= a < |order| && r.value.reports[a].final == Increasing)
  {
    var attention := false;
    var currentDate: Option<Date> := None;
    var reports: seq<AreaReport> := [];
    for a := 0 to |order|
      invariant a == 0 <==> currentDate.None?
      invariant a > 0 ==> !FirstAreaEmpty(order, data)
      invariant AreasDone(order, data, period, a, reports, attention)
    {
      var report;
      report, currentDate := ProcessArea(data[order[a]], period, currentDate);
      if report.Err? {
        AreaFaultIsFirst(order, data, period, a, reports, attention, report.fault);
        return Err(report.fault);
      }
      if currentDate.None? {
        return Err(Unbound);
      }
      var attention' := attention || report.value.final == Increasing;
      AreasDoneExtend(order, data, period, a, reports, attention, report.value, attention');
      attention := attention';
      reports := reports + [report.value];
    }
    r := Ok(Pillar1Report(reports, attention));
  }

  /** The first a areas have been processed without an exception, into the
      given reports, and the flag says whether any of them ended Increasing. */
  ghost predicate AreasDone(order: seq<string>, data: map<string, seq<AreaRow>>, period: int, a: nat,
                            reports: seq<AreaReport>, attention: bool)
    requires AreaDatesValid(order, data)
  {
    && a <= |order|
    && |reports| == a
    && (forall b :: 0 <= b < a ==> AreaFault(data[order[b]], period).None?)
    && (forall b :: 0 <= b < a ==> AreaReportMeets(data[order[b]], period, reports[b]))
    && (attention <==> exists b :: 0 <= b < a && reports[b].final == Increasing)
  }

  lemma AreasDoneExtend(order: seq<string>, data: map<string, seq<AreaRow>>, period: int, a: nat,
                        reports: seq<AreaReport>, attention: bool, report: AreaReport, attention': bool)
    requires AreaDatesValid(order, data) && a < |order|
    requires AreasDone(order, data, period, a, reports, attention)
    requires AreaFault(data[order[a]], period).None? && AreaReportMeets(data[order[a]], period, report)
    requires attention' == (attention || report.final == Increasing)
    ensures AreasDone(order, data, period, a + 1, reports + [report], attention')
  {
    var reports' := reports + [report];
    assert reports'[a] == report;
    assert forall b :: 0 <= b < a ==> reports'[b] == reports[b];
  }

  lemma AreaFaultIsFirst(order: seq<string>, data: map<string, seq<AreaRow>>, period: int, a: nat,
                         reports: seq<AreaReport>, attention: bool, fault: Fault)
    requires AreaDatesValid(order, data) && a < |order|
    requires AreasDone(order, data, period, a, reports, attention)
    requires AreaFault(data[order[a]], period) == Some(fault)
    ensures exists i :: (0 <= i < |order| && AreaFault(data[order[i]], period) == Some(fault)
                         && forall b :: 0 <= b < i ==> AreaFault(data[order[b]], period).None?)
  {
  }

  /** The areas in the order the dictionary built from them lists its keys:
      first occurrences only. */
  function FirstOccurrences(areas: seq<string>): (order: seq<string>)
    ensures forall a :: a in order <==> a in areas
    ensures forall i, j :: 0 <= i < j < |order| ==> order[i] != order[j]
  {
    if |areas| == 0 then []
    else
      var before := FirstOccurrences(areas[..|areas| - 1]);
      var last := areas[|areas| - 1];
      if last in before then before else before + [last]
  }

  /** The whole update over the downloaded lines: extraction, then
      processing of each configured area in dictionary order. The attention
      flag is raised exactly when some configured area's infectious
      estimates end on an increase of at least the allowed variation. */
  method UpdateAreas(lines: seq<string>, tier: string, areas: seq<string>, period: int)
    returns (r: Result<Pillar1Report>)
    ensures Extract(lines, tier, areas).Err? ==> r == Err(Extract(lines, tier, areas).fault)
    ensures r.Ok? ==> Extract(lines, tier, areas).Ok? && |r.value.reports| == |FirstOccurrences(areas)|
    ensures r.Ok? ==> forall b :: 0 <= b < |r.value.reports| ==>
      AreaReportMeets(AreaRowsOf(Extract(lines, tier, areas).value, FirstOccurrences(areas)[b]), period,
                      r.value.reports[b])
    ensures r.Ok? ==>
      (r.value.attention <==> exists a :: a in areas && AreaEndsIncreasing(Extract(lines, tier, areas).value, a, period))
    ensures Extract(lines, tier, areas).Ok? ==>
      var taken := Extract(lines, tier, areas).value;
      var order := FirstOccurrences(areas);
      (r.Ok? <==> (|order| == 0 || |AreaRowsOf(taken, order[0])| > 0) &&
                  forall a :: 0 <= a < |order| ==> AreaFault(AreaRowsOf(taken, order[a]), period).None?)
    ensures Extract(lines, tier, areas).Ok? ==>
      var taken := Extract(lines, tier, areas).value;
      var order := FirstOccurrences(areas);
      |order| > 0 && |AreaRowsOf(taken, order[0])| == 0 ==> r == Err(Unbound)
    ensures Extract(lines, tier, areas).Ok? && r.Err? ==>
      var taken := Extract(lines, tier, areas).value;
      var order := FirstOccurrences(areas);
      (|order| == 0 || |AreaRowsOf(taken, order[0])| > 0) ==>
        exists a :: 0 <= a < |order| && AreaFault(AreaRowsOf(taken, order[a]), period) == Some(r.fault) &&
          forall b :: 0 <= b < a ==> AreaFault(AreaRowsOf(taken, order[b]), period).None?
  {
    var data, counts := ExtractAreas(lines, tier, areas);
    if data.Err? {
      return Err(data.fault);
    }
    ghost var taken := Extract(lines, tier, areas).value;
    ExtractedData(areas, taken, data.value, counts);
    r := ProcessTakenAreas(areas, taken, data.value, period);
  }

  /** The processing loop over the data map the scan filled, its outcome
      stated over the rows the scan took for each area. */
  method ProcessTakenAreas(areas: seq<string>, ghost taken: seq<Tagged>, data: map<string, seq<AreaRow>>, period: int)
    returns (r: Result<Pillar1Report>)
    requires TaggedValid(taken) && DataHolds(areas, taken, data)
    requires AreaDatesValid(FirstOccurrences(areas), data)
    ensures r.Ok? ==> |r.value.reports| == |FirstOccurrences(areas)|
    ensures r.Ok? ==> forall b :: 0 <= b < |r.value.reports| ==>
      AreaReportMeets(AreaRowsOf(taken, FirstOccurrences(areas)[b]), period, r.value.reports[b])
    ensures r.Ok? ==> (r.value.attention <==> exists a :: a in areas && AreaEndsIncreasing(taken, a, period))
    ensures var order := FirstOccurrences(areas);
      r.Ok? <==> (|order| == 0 || |AreaRowsOf(taken, order[0])| > 0) &&
                 forall a :: 0 <= a < |order| ==> AreaFault(AreaRowsOf(taken, order[a]), period).None?
    ensures var order := FirstOccurrences(areas);
      |order| > 0 && |AreaRowsOf(taken, order[0])| == 0 ==> r == Err(Unbound)
    ensures var order := FirstOccurrences(areas);
      r.Err? && (|order| == 0 || |AreaRowsOf(taken, order[0])| > 0) ==>
        exists a :: 0 <= a < |order| && AreaFault(AreaRowsOf(taken, order[a]), period) == Some(r.fault) &&
          forall b :: 0 <= b < a ==> AreaFault(AreaRowsOf(taken, order[b]), period).None?
  {
    var order := FirstOccurrences(areas);
    assert forall a :: 0 <= a < |order| ==> order[a] in areas && data[order[a]] == AreaRowsOf(taken, order[a]);
    r := ProcessAreas(order, data, period);
    OutcomeOverTaken(order, taken, data, period, r);
    if r.Ok? {
      AttentionOverAreas(areas, taken, data, period, r.value.reports, r.value.attention);
    }
  }

  /** The processing outcome, restated over the rows the scan took for each
      area rather than over the dictionary that holds them. */
  lemma OutcomeOverTaken(order: seq<string>, taken: seq<Tagged>, data: map<string, seq<AreaRow>>, period: int,
                         r: Result<Pillar1Report>)
    requires TaggedValid(taken) && AreaDatesValid(order, data)
    requires forall a :: 0 <= a < |order| ==> data[order[a]] == AreaRowsOf(taken, order[a])
    requires r.Ok? <==> (!FirstAreaEmpty(order, data) &&
                         forall a :: 0 <= a < |order| ==> AreaFault(data[order[a]], period).None?)
    requires r.Err? && FirstAreaEmpty(order, data) ==> r.fault == Unbound
    requires r.Err? && !FirstAreaEmpty(order, data) ==>
      exists a :: 0 <= a < |order| && AreaFault(data[order[a]], period) == Some(r.fault)
        && forall b :: 0 <= b < a ==> AreaFault(data[order[b]], period).None?
    ensures r.Ok? <==> (|order| == 0 || |AreaRowsOf(taken, order[0])| > 0) &&
                       forall a :: 0 <= a < |order| ==> AreaFault(AreaRowsOf(taken, order[a]), period).None?
    ensures |order| > 0 && |AreaRowsOf(taken, order[0])| == 0 ==> r == Err(Unbound)
    ensures r.Err? && (|order| == 0 || |AreaRowsOf(taken, order[0])| > 0) ==>
      exists a :: 0 <= a < |order| && AreaFault(AreaRowsOf(taken, order[a]), period) == Some(r.fault) &&
        forall b :: 0 <= b < a ==> AreaFault(AreaRowsOf(taken, order[b]), period).None?
  {
  }

  /** An area's infectious estimates, computed over the rows the scan took
      for it, end on an increase of at least the allowed variation. */
  ghost predicate AreaEndsIncreasing(taken: seq<Tagged>, area: string, period: int)
    requires TaggedValid(taken)
  {
    FinalTrend(InfectiousSeries(AreaSamples(AreaRowsOf(taken, area)), period), Variation) == Increasing
  }

  /** After the scan every configured area holds exactly its taken rows,
      latest first. */
  predicate DataHolds(areas: seq<string>, taken: seq<Tagged>, data: map<string, seq<AreaRow>>)
    requires TaggedValid(taken)
  {
    forall a :: a in areas ==> a in data && data[a] == AreaRowsOf(taken, a)
  }

  lemma ExtractedData(areas: seq<string>, taken: seq<Tagged>, data: map<string, seq<AreaRow>>, counts: map<string, nat>)
    requires TaggedValid(taken) && ExtractionState(areas, taken, data, counts)
    ensures DataHolds(areas, taken, data)
    ensures AreaDatesValid(FirstOccurrences(areas), data)
  {
    forall a | a in areas
      ensures a in data && data[a] == AreaRowsOf(taken, a)
    {
    }
  }

  lemma AttentionOverAreas(areas: seq<string>, taken: seq<Tagged>, data: map<string, seq<AreaRow>>, period: int,
                           reports: seq<AreaReport>, attention: bool)
    requires TaggedValid(taken) && DataHolds(areas, taken, data)
    requires AreaDatesValid(FirstOccurrences(areas), data)
    requires |reports| == |FirstOccurrences(areas)|
    requires forall b :: 0 <= b < |reports| ==>
      AreaReportMeets(data[FirstOccurrences(areas)[b]], period, reports[b])
    requires attention <==> exists b :: 0 <= b < |reports| && reports[b].final == Increasing
    ensures forall b :: 0 <= b < |reports| ==>
      AreaReportMeets(AreaRowsOf(taken, FirstOccurrences(areas)[b]), period, reports[b])
    ensures attention <==> exists a :: a in areas && AreaEndsIncreasing(taken, a, period)
  {
    var order := FirstOccurrences(areas);
    ReportsOverTaken(areas, taken, data, period, reports);
    var increasing := set a | a in areas && AreaEndsIncreasing(taken, a, period);
    forall b | 0 <= b < |reports|
      ensures reports[b].final == Increasing <==> order[b] in increasing
    {
      assert order[b] in order;
      FinalOfReport(AreaRowsOf(taken, order[b]), period, reports[b]);
    }
    AttentionOverOrder(areas, increasing, reports, attention);
  }

  /** Each area's report meets its rows in the data map, and so the taken
      rows the map holds for it. */
  lemma ReportsOverTaken(areas: seq<string>, taken: seq<Tagged>, data: map<string, seq<AreaRow>>, period: int,
                         reports: seq<AreaReport>)
    requires TaggedValid(taken) && DataHolds(areas, taken, data)
    requires AreaDatesValid(FirstOccurrences(areas), data)
    requires |reports| == |FirstOccurrences(areas)|
    requires forall b :: 0 <= b < |reports| ==>
      AreaReportMeets(data[FirstOccurrences(areas)[b]], period, reports[b])
    ensures forall b :: 0 <= b < |reports| ==>
      AreaReportMeets(AreaRowsOf(taken, FirstOccurrences(areas)[b]), period, reports[b])
  {
    var order := FirstOccurrences(areas);
    forall b | 0 <= b < |reports|
      ensures data[order[b]] == AreaRowsOf(taken, order[b])
    {
      assert order[b] in order;
    }
  }

  lemma FinalOfReport(rows: seq<AreaRow>, period: int, report: AreaReport)
    requires DatesValidIn(rows) && AreaReportMeets(rows, period, report)
    ensures report.final == FinalTrend(InfectiousSeries(AreaSamples(rows), period), Variation)
  {
  }

  /** The flag is raised exactly when some configured area is in the given
      set, when each area's report ends Increasing exactly when the area is
      in it. */
  lemma AttentionOverOrder(areas: seq<string>, increasing: set<string>, reports: seq<AreaReport>, attention: bool)
    requires |reports| == |FirstOccurrences(areas)|
    requires forall b :: 0 <= b < |reports| ==>
      (reports[b].final == Increasing <==> FirstOccurrences(areas)[b] in increasing)
    requires attention <==> exists b :: 0 <= b < |reports| && reports[b].final == Increasing
    ensures attention <==> exists a :: a in areas && a in increasing
  {
    var order := FirstOccurrences(areas);
    if attention {
      var b :| 0 <= b < |reports| && reports[b].final == Increasing;
      assert order[b] in order;
    }
    if a :| a in areas && a in increasing {
      var b :| 0 <= b < |order| && order[b] == a;
      assert reports[b].final == Increasing;
    }
  }
}
