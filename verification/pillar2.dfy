/** The Pillar 2 report: the testing and death files are filtered line by
    line into dated rows, then each series gets its rolling total, its
    output lines and, for deaths, its trend messages and attention flag. */
module Pillar2 {
  import opened Wrappers
  import opened Text
  import opened Calendar
  import opened DateFormats
  import opened ReportHelpers
  import opened Window
  import opened Trend

  /** From this date the testing file carries the positives in column 12 and
      the cumulative positives in column 13. */
  const TestingDataChangeDate := Date(2020, 7, 1)

  /** The offset that joins the new cumulative positives onto the old
      series; it is added while reading and subtracted again on output. */
  const DataDecrement := 30301

  datatype SeriesKind = Testing | Death

  /** A kept data line: its parsed date and its comma-separated cells. */
  datatype DatedRow = DatedRow(date: Date, cells: seq<string>)

  /** What one data line does to the scan. */
  datatype LineOutcome = Keep(row: DatedRow) | Skip | Stop

  /** `ConvertedDate >= TestingDataChangeDate` */
  predicate OnOrAfterChange(d: Date) {
    !Before(d, TestingDataChangeDate)
  }

  predicate NoCommas(cells: seq<string>) {
    forall k :: 0 <= k < |cells| ==> ',' !in cells[k]
  }

  /** What every kept testing row satisfies. */
  predicate TestingRowKept(row: DatedRow, pillar: string) {
    && Valid(row.date)
    && NoCommas(row.cells)
    && |row.cells| > 6
    && StartsWith(row.cells[3], pillar)
    && |row.cells[6]| > 0
    && (OnOrAfterChange(row.date) ==>
          |row.cells| > 13 && IsDigits(row.cells[10]) && ParseInt(row.cells[11]).Some?)
  }

  /** What every kept death row satisfies. */
  predicate DeathRowKept(row: DatedRow) {
    && Valid(row.date)
    && NoCommas(row.cells)
    && |row.cells| > 2
    && IsDigits(row.cells[2])
  }

  predicate AllDeathRowsKept(rows: seq<DatedRow>) {
    forall k :: 0 <= k < |rows| ==> DeathRowKept(rows[k])
  }

  predicate AllDatesValid(rows: seq<DatedRow>) {
    forall k :: 0 <= k < |rows| ==> Valid(rows[k].date)
  }

  predicate RowKept(kind: SeriesKind, row: DatedRow, pillar: string) {
    if kind == Testing then TestingRowKept(row, pillar) else DeathRowKept(row)
  }

  /** One non-empty testing line: keep it only when column 3 starts with the
      pillar name and column 6 is not empty; rows on or after the change date
      take column 12 as the positives (skipped unless numeric) and column 13
      plus the decrement as the cumulative positives. */
  function TestingLine(line: string, pillar: string): (r: Result<LineOutcome>)
    ensures r.Ok? ==> !r.value.Stop?
    ensures r.Ok? && r.value.Keep? ==> TestingRowKept(r.value.row, pillar)
  {
    var cells := Split(line, ',');
    match IsPresent(pillar, 3, cells)
    case Err(f) => Err(f)
    case Ok(present) =>
      if !present then Ok(Skip)
      else if |cells| <= 6 then Err(IndexOutOfRange)
      else if |cells[6]| == 0 then Ok(Skip)
      else
        match ParseSlashDate(cells[0])
        case Err(f) => Err(f)
        case Ok(d) =>
          if !OnOrAfterChange(d) then Ok(Keep(DatedRow(d, cells)))
          else if |cells| <= 12 then Err(IndexOutOfRange)
          else if !IsDigits(cells[12]) then Ok(Skip)
          else if |cells| <= 13 then Err(IndexOutOfRange)
          else
            match ParseInt(cells[13])
            case None => Err(NotANumber)
            case Some(_) =>
              ChangedCellsKept(cells);
              Ok(Keep(DatedRow(d, ChangedCells(cells))))
  }

  /** The cells of a row on or after the change date: column 10 replaced
      by column 12, column 11 by int() of column 13 plus the decrement. */
  function ChangedCells(cells: seq<string>): seq<string>
    requires |cells| > 13 && ParseInt(cells[13]).Some?
  {
    cells[10 := cells[12]][11 := IntToString(ParseInt(cells[13]).value + DataDecrement)]
  }

  /** Only columns 10 and 11 change: column 10 is column 12, and column 11
      reads back as column 13 plus the decrement. */
  lemma ChangedCellsColumns(cells: seq<string>)
    requires |cells| > 13 && ParseInt(cells[13]).Some?
    ensures |ChangedCells(cells)| == |cells|
    ensures forall k :: 0 <= k < |cells| && k != 10 && k != 11 ==> ChangedCells(cells)[k] == cells[k]
    ensures ChangedCells(cells)[10] == cells[12]
    ensures ParseInt(ChangedCells(cells)[11]) == Some(ParseInt(cells[13]).value + DataDecrement)
  {
    var n := ParseInt(cells[13]).value + DataDecrement;
    assert ChangedCells(cells)[11] == IntToString(n);
    ParseIntToString(n);
  }

  /** The changed cells still hold no comma, keep columns 3 and 6, and
      have a digit string in column 10 and a number in column 11. */
  lemma ChangedCellsKept(cells: seq<string>)
    requires NoCommas(cells) && |cells| > 13 && IsDigits(cells[12]) && ParseInt(cells[13]).Some?
    ensures var changed := ChangedCells(cells);
      && NoCommas(changed) && |changed| == |cells|
      && changed[3] == cells[3] && changed[6] == cells[6]
      && IsDigits(changed[10]) && ParseInt(changed[11]).Some?
  {
    ChangedCellsColumns(cells);
    IntToStringNoComma(ParseInt(cells[13]).value + DataDecrement);
  }

  /** A kept testing row is dated by the line's column 0 and carries the
      line's own cells, with columns 10 and 11 changed on or after the change
      date. */
  lemma KeptTestingCells(line: string, pillar: string)
    requires TestingLine(line, pillar).Ok? && TestingLine(line, pillar).value.Keep?
    ensures
      var cells := Split(line, ',');
      var row := TestingLine(line, pillar).value.row;
      && |cells| > 6
      && ParseSlashDate(cells[0]) == Ok(row.date)
      && (!OnOrAfterChange(row.date) ==> row.cells == cells)
      && (OnOrAfterChange(row.date) ==>
            && |cells| > 13 && ParseInt(cells[13]).Some?
            && row.cells == ChangedCells(cells))
  {
    var cells := Split(line, ',');
    assert |cells| > 6 && StartsWith(cells[3], pillar) && |cells[6]| > 0;
    assert ParseSlashDate(cells[0]).Ok?;
    var d := ParseSlashDate(cells[0]).value;
    if OnOrAfterChange(d) {
      assert |cells| > 13 && IsDigits(cells[12]);
      assert ParseInt(cells[13]).Some?;
    }
  }

  /** One non-empty death line: kept only when its cumulative column 2 is a
      digit string; its column 0 is a DD-Mon-YY date. */
  function DeathLine(line: string): (r: Result<LineOutcome>)
    ensures r.Ok? ==> !r.value.Stop?
    ensures r.Ok? ==> |Split(line, ',')| > 2 && (r.value.Skip? <==> !IsDigits(Split(line, ',')[2]))
    ensures r.Ok? && r.value.Keep? ==> DeathRowKept(r.value.row)
    ensures r.Ok? && r.value.Keep? ==>
      r.value.row.cells == Split(line, ',') && ParseDayMonYear(Split(line, ',')[0]) == Ok(r.value.row.date)
  {
    var cells := Split(line, ',');
    if |cells| <= 2 then Err(IndexOutOfRange)
    else if !IsDigits(cells[2]) then Ok(Skip)
    else
      match ParseDayMonYear(cells[0])
      case Err(f) => Err(f)
      case Ok(d) => Ok(Keep(DatedRow(d, cells)))
  }

  /** An empty line ends the scan of the file. */
  function LineOutcomeOf(kind: SeriesKind, line: string, pillar: string): (r: Result<LineOutcome>)
    ensures r == Ok(Stop) <==> |line| == 0
    ensures r.Ok? && r.value.Keep? ==> RowKept(kind, r.value.row, pillar)
  {
    if |line| == 0 then Ok(Stop)
    else if kind == Testing then TestingLine(line, pillar)
    else DeathLine(line)
  }

  /** Rows already kept, followed by the outcome of the rest of the scan. */
  function Prepend(kept: seq<DatedRow>, rest: Result<seq<DatedRow>>): Result<seq<DatedRow>> {
    match rest
    case Ok(rows) => Ok(kept + rows)
    case Err(f) => Err(f)
  }

  lemma PrependTwice(first: seq<DatedRow>, second: seq<DatedRow>, rest: Result<seq<DatedRow>>)
    ensures Prepend(first, Prepend(second, rest)) == Prepend(first + second, rest)
  {
    if rest.Ok? {
      ConcatAssoc(first, second, rest.value);
    }
  }

  /** One line read by the rules of the given series. */
  function LineReader(kind: SeriesKind, pillar: string): string -> Result<LineOutcome> {
    line => LineOutcomeOf(kind, line, pillar)
  }

  /** The scan of the data lines (the header already removed), each line
      read by `read`: the rows kept, in file order, or the exception that
      ends it. A Stop outcome ends the scan. */
  function Scan(read: string -> Result<LineOutcome>, lines: seq<string>): (r: Result<seq<DatedRow>>)
    ensures r.Ok? ==> |r.value| <= |lines|
    decreases |lines|
  {
    if |lines| == 0 then Ok([])
    else
      match read(lines[0])
      case Err(f) => Err(f)
      case Ok(Stop) => Ok([])
      case Ok(Skip) => Scan(read, lines[1..])
      case Ok(Keep(row)) => Prepend([row], Scan(read, lines[1..]))
  }

  /** The rows the scan of one series keeps, or the exception that ends it. */
  function Ingest(kind: SeriesKind, lines: seq<string>, pillar: string): (r: Result<seq<DatedRow>>)
    ensures r.Ok? ==> |r.value| <= |lines|
    ensures r.Ok? ==> forall k :: 0 <= k < |r.value| ==> RowKept(kind, r.value[k], pillar)
  {
    IngestKeeps(kind, lines, pillar);
    Scan(LineReader(kind, pillar), lines)
  }

  lemma {:induction false} IngestKeeps(kind: SeriesKind, lines: seq<string>, pillar: string)
    ensures var r := Scan(LineReader(kind, pillar), lines);
      r.Ok? ==> forall k :: 0 <= k < |r.value| ==> RowKept(kind, r.value[k], pillar)
    decreases |lines|
  {
    if |lines| > 0 {
      var read := LineReader(kind, pillar);
      var outcome := LineOutcomeOf(kind, lines[0], pillar);
      assert read(lines[0]) == outcome;
      IngestKeeps(kind, lines[1..], pillar);
      if outcome.Ok? && outcome.value.Keep? && Scan(read, lines[1..]).Ok? {
        var rest := Scan(read, lines[1..]).value;
        var all := [outcome.value.row] + rest;
        assert Scan(read, lines) == Ok(all);
        forall k | 0 <= k < |all|
          ensures RowKept(kind, all[k], pillar)
        {
          if k > 0 {
            assert all[k] == rest[k - 1];
          }
        }
      }
    }
  }

  /** The download loop for one file: pop the header line, then scan. The
      count is the number of rows kept. */
  method IngestSeries(kind: SeriesKind, lines: seq<string>, pillar: string)
    returns (r: Result<seq<DatedRow>>, count: nat)
    ensures |lines| == 0 ==> r == Err(EmptyInput)
    ensures |lines| > 0 ==> r == Ingest(kind, lines[1..], pillar)
    ensures r.Ok? ==> count == |r.value|
  {
    if |lines| == 0 {
      return Err(EmptyInput), 0;
    }
    r, count := ScanLines(LineReader(kind, pillar), lines[1..]);
  }

  /** The scanning loop: read each line in turn, stop at an empty line or
      at the first exception, append each kept row and count it. */
  method ScanLines(read: string -> Result<LineOutcome>, body: seq<string>)
    returns (r: Result<seq<DatedRow>>, count: nat)
    ensures r == Scan(read, body)
    ensures r.Ok? ==> count == |r.value|
  {
    var rows: seq<DatedRow> := [];
    count := 0;
    var i := 0;
    ScanStart(read, body);
    while i < |body|
      invariant 0 <= i <= |body|
      invariant count == |rows|
      invariant Scan(read, body) == Prepend(rows, Scan(read, body[i..]))
    {
      ScanAt(read, body, i);
      var outcome := read(body[i]);
      if outcome.Err? {
        return Err(outcome.fault), count;
      }
      if outcome.value.Stop? {
        break;
      }
      if outcome.value.Keep? {
        PrependTwice(rows, [outcome.value.row], Scan(read, body[i + 1..]));
        rows := rows + [outcome.value.row];
        count := count + 1;
      }
      i := i + 1;
    }
    assert rows + [] == rows;
    r := Ok(rows);
  }

  lemma ScanStart(read: string -> Result<LineOutcome>, lines: seq<string>)
    ensures Scan(read, lines) == Prepend([], Scan(read, lines[0..]))
  {
    assert lines[0..] == lines;
    match Scan(read, lines)
    case Ok(all) => assert [] + all == all;
    case Err(_) =>
  }

  /** The scan from line i on: line i's outcome, then the scan of the rest. */
  lemma ScanAt(read: string -> Result<LineOutcome>, lines: seq<string>, i: nat)
    requires i < |lines|
    ensures Scan(read, lines[i..]) ==
      match read(lines[i])
      case Err(f) => Err(f)
      case Ok(Stop) => Ok([])
      case Ok(Skip) => Scan(read, lines[i + 1..])
      case Ok(Keep(row)) => Prepend([row], Scan(read, lines[i + 1..]))
  {
    assert lines[i..][1..] == lines[i + 1..];
  }

  /** Lines after the first empty line never matter. */
  lemma IngestStopsAtEmptyLine(kind: SeriesKind, before: seq<string>, after: seq<string>, pillar: string)
    ensures Ingest(kind, before + [""] + after, pillar) == Ingest(kind, before + [""], pillar)
  {
    assert LineReader(kind, pillar)("") == Ok(Stop);
    ScanStopsAtStop(LineReader(kind, pillar), before, "", after);
  }

  /** Nothing after a line read as Stop matters. */
  lemma {:induction false} ScanStopsAtStop(read: string -> Result<LineOutcome>, before: seq<string>,
                                           stop: string, after: seq<string>)
    requires read(stop) == Ok(Stop)
    ensures Scan(read, before + [stop] + after) == Scan(read, before + [stop])
    decreases |before|
  {
    if |before| > 0 {
      assert (before + [stop] + after)[1..] == before[1..] + [stop] + after;
      assert (before + [stop])[1..] == before[1..] + [stop];
      ScanStopsAtStop(read, before[1..], stop, after);
    } else {
      assert (before + [stop] + after)[0] == stop;
    }
  }

  /** The scan works line by line in file order: scanning two blocks is
      scanning the first, then the second, when the first holds no empty
      line. */
  lemma IngestConcat(kind: SeriesKind, a: seq<string>, b: seq<string>, pillar: string)
    requires forall k :: 0 <= k < |a| ==> |a[k]| > 0
    ensures Ingest(kind, a + b, pillar) ==
      match Ingest(kind, a, pillar)
      case Err(f) => Err(f)
      case Ok(rows) => Prepend(rows, Ingest(kind, b, pillar))
  {
    var read := LineReader(kind, pillar);
    forall k | 0 <= k < |a|
      ensures read(a[k]) != Ok(Stop)
    {
      assert read(a[k]) == LineOutcomeOf(kind, a[k], pillar);
    }
    ScanConcat(read, a, b);
  }

  lemma {:induction false} ScanConcat(read: string -> Result<LineOutcome>, a: seq<string>, b: seq<string>)
    requires forall k :: 0 <= k < |a| ==> read(a[k]) != Ok(Stop)
    ensures Scan(read, a + b) ==
      match Scan(read, a)
      case Err(f) => Err(f)
      case Ok(rows) => Prepend(rows, Scan(read, b))
    decreases |a|
  {
    if |a| == 0 {
      assert a + b == b;
      match Scan(read, b)
      case Ok(rows) => assert [] + rows == rows;
      case Err(_) =>
    } else {
      assert (a + b)[1..] == a[1..] + b;
      assert (a + b)[0] == a[0];
      ScanConcat(read, a[1..], b);
      match read(a[0])
      case Err(_) =>
      case Ok(Stop) =>
      case Ok(Skip) =>
      case Ok(Keep(row)) =>
        match Scan(read, a[1..])
        case Err(_) =>
        case Ok(rows) =>
          match Scan(read, b)
          case Err(_) =>
          case Ok(more) => ConcatAssoc([row], rows, more);
    }
  }

  /** A testing line for another pillar is skipped. */
  lemma OtherPillarSkipped(line: string, pillar: string)
    requires var cells := Split(line, ','); |cells| > 3 && !StartsWith(cells[3], pillar)
    ensures TestingLine(line, pillar) == Ok(Skip)
  {
  }

  /** A testing line with an empty daily column is skipped. */
  lemma EmptyDailySkipped(line: string, pillar: string)
    requires var cells := Split(line, ','); |cells| > 6 && StartsWith(cells[3], pillar) && |cells[6]| == 0
    ensures TestingLine(line, pillar) == Ok(Skip)
  {
  }

  /** On or after the change date, a line whose column 12 is not numeric is
      skipped. */
  lemma NonNumericPositiveSkipped(line: string, pillar: string)
    requires var cells := Split(line, ',');
      && |cells| > 12 && StartsWith(cells[3], pillar) && |cells[6]| > 0
      && ParseSlashDate(cells[0]).Ok? && OnOrAfterChange(ParseSlashDate(cells[0]).value)
      && !IsDigits(cells[12])
    ensures TestingLine(line, pillar) == Ok(Skip)
  {
  }

  /** A line of the pillar with a daily count and a readable date is kept:
      with its own cells before the change date, and on or after it with the
      changed cells when column 12 is numeric and column 13 is a number. */
  lemma TestingLineKeeps(line: string, pillar: string)
    requires var cells := Split(line, ',');
      |cells| > 6 && StartsWith(cells[3], pillar) && |cells[6]| > 0 && ParseSlashDate(cells[0]).Ok?
    ensures var cells := Split(line, ',');
      var d := ParseSlashDate(cells[0]).value;
      && (!OnOrAfterChange(d) ==> TestingLine(line, pillar) == Ok(Keep(DatedRow(d, cells))))
      && (OnOrAfterChange(d) && |cells| > 13 && IsDigits(cells[12]) && ParseInt(cells[13]).Some? ==>
            TestingLine(line, pillar) == Ok(Keep(DatedRow(d, ChangedCells(cells)))))
  {
  }

  /** The exceptions a testing line raises: an IndexError when column 3, or
      for a line of the pillar column 6, or on or after the change date
      column 12 or 13, is missing; the date's own exception; a ValueError
      when column 13 is not a number. */
  lemma TestingLineFaults(line: string, pillar: string)
    ensures var cells := Split(line, ','); var r := TestingLine(line, pillar);
      && (|cells| <= 3 ==> r == Err(IndexOutOfRange))
      && (|cells| > 3 && StartsWith(cells[3], pillar) && |cells| <= 6 ==> r == Err(IndexOutOfRange))
      && (|cells| > 6 && StartsWith(cells[3], pillar) && |cells[6]| > 0 ==>
            && (ParseSlashDate(cells[0]).Err? ==> r == Err(ParseSlashDate(cells[0]).fault))
            && (ParseSlashDate(cells[0]).Ok? && OnOrAfterChange(ParseSlashDate(cells[0]).value) ==>
                  && (|cells| <= 12 ==> r == Err(IndexOutOfRange))
                  && (|cells| == 13 && IsDigits(cells[12]) ==> r == Err(IndexOutOfRange))
                  && (|cells| > 13 && IsDigits(cells[12]) && ParseInt(cells[13]).None? ==> r == Err(NotANumber))))
  {
  }

  // ----- The death series -----

  /** A kept death row as a window sample: int() of its column 2. */
  function DeathSamples(rows: seq<DatedRow>): (s: seq<Sample>)
    requires AllDeathRowsKept(rows)
    ensures |s| == |rows| && DatesValid(s)
    ensures forall k :: 0 <= k < |rows| ==>
      s[k].date == rows[k].date && Some(s[k].cumulative) == ParseInt(rows[k].cells[2])
  {
    seq(|rows|, k requires 0 <= k < |rows| => Sample(rows[k].date, DigitsValue(rows[k].cells[2])))
  }

  /** The death output columns, in the order the file is written. */
  const DeathOutputKeys: seq<string> := ["Date", "Daily", "Cumulative", "Rolling"]

  /** The output fields of a death row: its date as YYYY-MM-DD, the daily
      column 3, the cumulative column 2 and the rolling total. */
  function DeathOutputFields(row: DatedRow, rolling: int): seq<string>
    requires Valid(row.date) && |row.cells| > 3
  {
    [IsoFormat(row.date), row.cells[3], row.cells[2], IntToString(rolling)]
  }

  /** A written line splits back into its fields, and the date and the
      rolling total read back as the values written. */
  lemma DeathOutputReadsBack(row: DatedRow, rolling: int)
    requires DeathRowKept(row) && |row.cells| > 3
    ensures Split(CsvRow(DeathOutputFields(row, rolling)), ',') == DeathOutputFields(row, rolling)
    ensures ParseIsoDate(Split(CsvRow(DeathOutputFields(row, rolling)), ',')[0]) == Ok(row.date)
    ensures ParseInt(Split(CsvRow(DeathOutputFields(row, rolling)), ',')[3]) == Some(rolling)
  {
    var fields := DeathOutputFields(row, rolling);
    IsoFormatNoComma(row.date);
    IntToStringNoComma(rolling);
    CsvRowIsJoin(fields);
    SplitJoin(fields, ',');
    IsoDateRoundTrip(row.date);
    ParseIntToString(rolling);
  }

  lemma IsoFormatNoComma(d: Date)
    requires Valid(d)
    ensures ',' !in IsoFormat(d)
  {
    NoSeparatorInNumeral(ZeroPad(NatToString(d.year), 4), ',');
    NoSeparatorInNumeral(ZeroPad(NatToString(d.month), 2), ',');
    NoSeparatorInNumeral(ZeroPad(NatToString(d.day), 2), ',');
  }

  /** str(n) holds no comma and ends in a digit. */
  lemma IntToStringNoComma(n: int)
    ensures var s := IntToString(n); ',' !in s && |s| > 0 && IsDigit(s[|s| - 1])
  {
    NoSeparatorInNumeral(NatToString(if n < 0 then -n else n), ',');
  }

  /** The output row of one death row: the OutData dictionary, its values
      listed in output-column order, then joined into a CSV line. */
  method WriteDeathRow(row: DatedRow, rolling: int) returns (line: string)
    requires Valid(row.date) && |row.cells| > 3
    ensures line == CsvRow(DeathOutputFields(row, rolling))
  {
    var fields := map["Date" := IsoFormat(row.date), "Daily" := row.cells[3],
                      "Cumulative" := row.cells[2], "Rolling" := IntToString(rolling)];
    var list := GenerateFieldList(DeathOutputKeys, fields);
    assert list.value == DeathOutputFields(row, rolling);
    line := GenerateCSVRow(list.value);
  }

  /** The line the death loop writes for a row with the given rolling
      total: its output fields as a CSV line; nothing for a row without
      column 3, which raises before its line is built. */
  function DeathOutputLine(row: DatedRow, rolling: int): string
    requires Valid(row.date)
  {
    if |row.cells| > 3 then CsvRow(DeathOutputFields(row, rolling)) else ""
  }

  /** The death lines of all rows, in row order. */
  function DeathOutputLines(rows: seq<DatedRow>, rolling: seq<int>): (lines: seq<string>)
    requires |rows| == |rolling| && AllDeathRowsKept(rows)
    ensures |lines| == |rows|
    ensures forall k {:trigger lines[k]} :: 0 <= k < |rows| && |rows[k].cells| > 3 ==>
      lines[k] == CsvRow(DeathOutputFields(rows[k], rolling[k]))
  {
    seq(|rows|, k requires 0 <= k < |rows| => DeathOutputLine(rows[k], rolling[k]))
  }

  /** The lines written for the first n death rows: each row has its
      column 3 and the lines are the first n death lines. */
  predicate DeathLinesUpTo(rows: seq<DatedRow>, rolling: seq<int>, n: nat, lines: seq<string>)
    requires n <= |rows| == |rolling| && AllDeathRowsKept(rows)
  {
    && (forall k :: 0 <= k < n ==> |rows[k].cells| > 3)
    && lines == DeathOutputLines(rows, rolling)[..n]
  }

  /** Writing row n's line extends the lines of the first n rows. */
  lemma DeathLinesExtend(rows: seq<DatedRow>, rolling: seq<int>, n: nat, lines: seq<string>, line: string)
    requires n < |rows| == |rolling| && AllDeathRowsKept(rows)
    requires DeathLinesUpTo(rows, rolling, n, lines)
    requires |rows[n].cells| > 3 && line == CsvRow(DeathOutputFields(rows[n], rolling[n]))
    ensures DeathLinesUpTo(rows, rolling, n + 1, lines + [line])
  {
    PrefixGrows(DeathOutputLines(rows, rolling), n);
  }

  /** What the death loop leaves behind. */
  datatype DeathReport = DeathReport(lines: seq<string>, messages: seq<Option<Logged>>, final: Trend, attention: bool)

  /** The trend message logged at the top of an iteration: the change of
      the rolling total over the previous row, named by that row's date, and
      only when the total before it is non-zero. */
  method LogTrend(rolling: int, previous: int, currentDate: Option<Date>, variation: int)
    returns (message: Option<Logged>)
    requires previous != 0 ==> currentDate.Some?
    ensures message.Some? <==> previous != 0
    ensures message.Some? ==> message.value == Logged(Classify(rolling - previous, variation), currentDate.value)
  {
    message := None;
    if previous != 0 {
      message := Some(Logged(Classify(rolling - previous, variation), currentDate.value));
    }
  }

  /** The state of the death loop after its first n rows: the current and
      previous rolling totals, the date it holds, the lines written and the
      messages logged. */
  ghost predicate DeathLoopState(rows: seq<DatedRow>, period: int, variation: int, n: nat,
                                 rolling: int, previous: int, currentDate: Option<Date>,
                                 lines: seq<string>, messages: seq<Option<Logged>>)
    requires AllDeathRowsKept(rows)
  {
    var values := RollingSeries(DeathSamples(rows), period);
    && n <= |rows|
    && rolling == ValueBefore(values, n - 1)
    && previous == ValueBefore(values, n - 2)
    && (n > 0 ==> currentDate == Some(rows[n - 1].date))
    && DeathLinesUpTo(rows, values, n, lines)
    && messages == LoggedSeries(values, SampleDates(DeathSamples(rows)), variation)[..n]
  }

  /** One pass of the death loop body, for a row that has its column 3: log
      the trend, shift the rolling totals, scan for the boundary and write
      the row's line. */
  method DeathRowStep(rows: seq<DatedRow>, samples: seq<Sample>, period: int, variation: int, i: nat,
                      rolling: int, previous: int, currentDate: Option<Date>,
                      lines: seq<string>, messages: seq<Option<Logged>>)
    returns (rolling': int, previous': int, currentDate': Option<Date>,
             lines': seq<string>, messages': seq<Option<Logged>>)
    requires AllDeathRowsKept(rows) && samples == DeathSamples(rows)
    requires i < |rows| && |rows[i].cells| > 3
    requires DeathLoopState(rows, period, variation, i, rolling, previous, currentDate, lines, messages)
    ensures DeathLoopState(rows, period, variation, i + 1, rolling', previous', currentDate', lines', messages')
  {
    var message := LogTrend(rolling, previous, currentDate, variation);
    messages' := messages + [message];
    previous' := rolling;
    currentDate' := Some(rows[i].date);
    rolling' := rolling;
    var boundary := FindBoundary(samples, i, period);
    if boundary.Some? {
      rolling' := samples[i].cumulative - samples[boundary.value].cumulative;
    }
    var line := WriteDeathRow(rows[i], rolling');
    lines' := lines + [line];
    DeathLoopStateStep(rows, period, variation, i, rolling, previous, currentDate, lines, messages,
                       message, rolling', line);
  }

  /** Logging row i's message, taking its rolling total and writing its line
      extends the death loop's state by one row. */
  lemma DeathLoopStateStep(rows: seq<DatedRow>, period: int, variation: int, i: nat,
                           rolling: int, previous: int, currentDate: Option<Date>,
                           lines: seq<string>, messages: seq<Option<Logged>>,
                           message: Option<Logged>, rolling': int, line: string)
    requires AllDeathRowsKept(rows) && i < |rows| && |rows[i].cells| > 3
    requires DeathLoopState(rows, period, variation, i, rolling, previous, currentDate, lines, messages)
    requires previous != 0 ==> currentDate.Some?
    requires message.Some? <==> previous != 0
    requires message.Some? ==> message.value == Logged(Classify(rolling - previous, variation), currentDate.value)
    requires rolling' == RollingSeries(DeathSamples(rows), period)[i]
    requires line == CsvRow(DeathOutputFields(rows[i], rolling'))
    ensures DeathLoopState(rows, period, variation, i + 1, rolling', rolling, Some(rows[i].date),
                           lines + [line], messages + [message])
  {
    var samples := DeathSamples(rows);
    var values := RollingSeries(samples, period);
    var dates := SampleDates(samples);
    assert message == LoggedAt(values, dates, i, variation);
    PrefixGrows(LoggedSeries(values, dates, variation), i);
    DeathLinesExtend(rows, values, i, lines, line);
  }

  /** The death half of the processing loop: for each row, log the trend of
      the previous row's rolling total, compute this row's rolling total and
      write its line; then classify the last rolling total and set the
      attention flag when it is Increasing. A row without column 3 is an
      IndexError. */
  method ProcessDeathSeries(rows: seq<DatedRow>, period: int, variation: int) returns (r: Result<DeathReport>)
    requires AllDeathRowsKept(rows)
    ensures r.Ok? <==> forall k :: 0 <= k < |rows| ==> |rows[k].cells| > 3
    ensures r.Err? ==> r.fault == IndexOutOfRange
    ensures r.Ok? ==>
      var samples := DeathSamples(rows);
      var rolling := RollingSeries(samples, period);
      && |r.value.lines| == |rows|
      && (forall k :: 0 <= k < |rows| ==> r.value.lines[k] == CsvRow(DeathOutputFields(rows[k], rolling[k])))
      && |r.value.messages| == |rows|
      && (forall k :: 0 <= k < |rows| ==>
            r.value.messages[k] == LoggedAt(rolling, SampleDates(samples), k, variation))
      && r.value.final == FinalTrend(rolling, variation)
      && (r.value.attention <==> r.value.final == Increasing)
  {
    var samples := DeathSamples(rows);
    var rolling := 0;
    var previous := 0;
    var currentDate: Option<Date> := None;
    var lines: seq<string> := [];
    var messages: seq<Option<Logged>> := [];
    for i := 0 to |rows|
      invariant DeathLoopState(rows, period, variation, i, rolling, previous, currentDate, lines, messages)
    {
      if |rows[i].cells| <= 3 {
        return Err(IndexOutOfRange);
      }
      rolling, previous, currentDate, lines, messages :=
        DeathRowStep(rows, samples, period, variation, i, rolling, previous, currentDate, lines, messages);
    }
    DeathSeriesComplete(rows, period, variation, rolling, previous, currentDate, lines, messages);
    var final := Classify(rolling - previous, variation);
    r := Ok(DeathReport(lines, messages, final, final == Increasing));
  }

  /** The death loop's state after every row gives every row's line and
      message, and its last two rolling totals are the series' last two. */
  lemma DeathSeriesComplete(rows: seq<DatedRow>, period: int, variation: int,
                            rolling: int, previous: int, currentDate: Option<Date>,
                            lines: seq<string>, messages: seq<Option<Logged>>)
    requires AllDeathRowsKept(rows)
    requires DeathLoopState(rows, period, variation, |rows|, rolling, previous, currentDate, lines, messages)
    ensures var samples := DeathSamples(rows);
      var values := RollingSeries(samples, period);
      && (forall k :: 0 <= k < |rows| ==> |rows[k].cells| > 3)
      && |lines| == |rows|
      && (forall k :: 0 <= k < |rows| ==> lines[k] == CsvRow(DeathOutputFields(rows[k], values[k])))
      && |messages| == |rows|
      && (forall k :: 0 <= k < |rows| ==> messages[k] == LoggedAt(values, SampleDates(samples), k, variation))
      && Classify(rolling - previous, variation) == FinalTrend(values, variation)
  {
    var samples := DeathSamples(rows);
    var values := RollingSeries(samples, period);
    assert lines == DeathOutputLines(rows, values);
    assert messages == LoggedSeries(values, SampleDates(samples), variation);
  }

  // ----- The testing series -----

  /** int() of a row's cumulative positives column, when the row has one and
      it is numeric. */
  function CumulativePositive(row: DatedRow): Option<int> {
    if |row.cells| > 11 then ParseInt(row.cells[11]) else None
  }

  /** A testing row as a window sample; a value int() rejects stands as 0,
      which is only ever read when the loop has already failed. */
  function TestingSamples(rows: seq<DatedRow>): (s: seq<Sample>)
    requires AllDatesValid(rows)
    ensures |s| == |rows| && DatesValid(s)
    ensures forall k :: 0 <= k < |rows| ==> s[k].date == rows[k].date
  {
    seq(|rows|, k requires 0 <= k < |rows| =>
      Sample(rows[k].date, match CumulativePositive(rows[k]) case Some(v) => v case None => 0))
  }

  /** A sample's counter is the row's cumulative positives whenever int()
      accepts them. */
  lemma TestingSampleCounter(rows: seq<DatedRow>, k: nat)
    requires AllDatesValid(rows) && k < |rows| && CumulativePositive(rows[k]).Some?
    ensures TestingSamples(rows)[k].cumulative == CumulativePositive(rows[k]).value
  {
  }

  /** The exception row i of the testing loop raises, if any: an IndexError
      when it lacks column 11, a ValueError when int() is applied to a
      cumulative column that is not numeric, which happens for this row and
      its boundary row when a boundary is found, and for this row when it is
      on or after the change date; then the percentage's exception. */
  function TestingRowFault(rows: seq<DatedRow>, period: int, i: nat): Option<Fault>
    requires AllDatesValid(rows)
    requires i < |rows|
  {
    if |rows[i].cells| <= 11 then Some(IndexOutOfRange)
    else
      var boundary := Boundary(TestingSamples(rows), i, period);
      if boundary.Some? && (CumulativePositive(rows[i]).None? || CumulativePositive(rows[boundary.value]).None?)
      then Some(NotANumber)
      else if OnOrAfterChange(rows[i].date) && CumulativePositive(rows[i]).None? then Some(NotANumber)
      else PercentageFault(rows[i])
  }

  /** `int(Positive) / int(Daily)`: a ValueError when column 10 or column 6
      is not a number, a ZeroDivisionError when column 6 reads as 0. */
  function PercentageFault(row: DatedRow): (f: Option<Fault>)
    requires |row.cells| > 10
    ensures f.None? <==> ParseInt(row.cells[10]).Some? && ParseInt(row.cells[6]).Some? && ParseInt(row.cells[6]).value != 0
    ensures f == Some(DivisionByZero) <==> ParseInt(row.cells[10]).Some? && ParseInt(row.cells[6]) == Some(0)
    ensures f.Some? && f != Some(DivisionByZero) ==> f == Some(NotANumber)
  {
    if ParseInt(row.cells[10]).None? || ParseInt(row.cells[6]).None? then Some(NotANumber)
    else if ParseInt(row.cells[6]).value == 0 then Some(DivisionByZero)
    else None
  }

  /** A kept testing row with a numeric column 10 and a zero daily count
      fails its percentage with a ZeroDivisionError, though the line filter
      only asks for a non-empty daily count. */
  lemma ZeroDailyFails(rows: seq<DatedRow>, period: int, i: nat)
    requires AllDatesValid(rows) && i < |rows| && |rows[i].cells| > 11
    requires Boundary(TestingSamples(rows), i, period).None? && !OnOrAfterChange(rows[i].date)
    requires ParseInt(rows[i].cells[10]).Some? && rows[i].cells[6] == "0"
    ensures TestingRowFault(rows, period, i) == Some(DivisionByZero)
  {
    assert DigitsValue("0") == 0 by {
      assert "0"[..0] == "";
    }
  }

  /** The cumulative positives as written: after the change date the
      decrement is taken off again. */
  function EmittedCumulativePositive(row: DatedRow): string
    requires |row.cells| > 11
  {
    if OnOrAfterChange(row.date) && ParseInt(row.cells[11]).Some? then
      IntToString(ParseInt(row.cells[11]).value - DataDecrement)
    else row.cells[11]
  }

  /** The testing output columns, in the order the file is written. */
  const TestingOutputKeys: seq<string> :=
    ["Date", "Daily", "CumulativeDaily", "Positive", "Percentage", "CumulativePositive", "Rolling"]

  /** The output fields of a testing row; the percentage text is given. */
  function TestingOutputFields(row: DatedRow, percentage: string, rolling: int): seq<string>
    requires Valid(row.date) && |row.cells| > 11
  {
    [IsoFormat(row.date), row.cells[6], row.cells[7], row.cells[10], percentage,
     EmittedCumulativePositive(row), IntToString(rolling)]
  }

  /** For a line on or after the change date, the cumulative positives the
      report writes are exactly int() of the line's column 13: the decrement
      added while reading is taken off on output. */
  lemma CumulativePositiveRoundTrip(line: string, pillar: string)
    requires TestingLine(line, pillar).Ok? && TestingLine(line, pillar).value.Keep?
    requires OnOrAfterChange(TestingLine(line, pillar).value.row.date)
    ensures var row := TestingLine(line, pillar).value.row;
      var cells := Split(line, ',');
      |row.cells| > 13 && |cells| > 13 && ParseInt(cells[13]).Some?
      && EmittedCumulativePositive(row) == IntToString(ParseInt(cells[13]).value)
  {
    KeptTestingCells(line, pillar);
    ChangedRowEmitsBack(Split(line, ','), TestingLine(line, pillar).value.row);
  }

  /** A row holding the changed cells writes column 13 back unchanged. */
  lemma ChangedRowEmitsBack(cells: seq<string>, row: DatedRow)
    requires |cells| > 13 && ParseInt(cells[13]).Some?
    requires row.cells == ChangedCells(cells) && OnOrAfterChange(row.date)
    ensures |row.cells| > 13
    ensures EmittedCumulativePositive(row) == IntToString(ParseInt(cells[13]).value)
  {
    ChangedCellsColumns(cells);
    var v := ParseInt(cells[13]).value;
    assert ParseInt(row.cells[11]) == Some(v + DataDecrement);
  }

  /** The output row of one testing row, given its written cumulative
      positives and percentage text. */
  method WriteTestingRow(row: DatedRow, percentage: string, cumulative: string, rolling: int)
    returns (line: string)
    requires Valid(row.date) && |row.cells| > 11 && cumulative == EmittedCumulativePositive(row)
    ensures line == CsvRow(TestingOutputFields(row, percentage, rolling))
  {
    var fields := map["Date" := IsoFormat(row.date), "Pillar" := row.cells[3], "Daily" := row.cells[6],
                      "CumulativeDaily" := row.cells[7], "Positive" := row.cells[10],
                      "CumulativePositive" := cumulative, "Rolling" := IntToString(rolling),
                      "Percentage" := percentage];
    var list := GenerateFieldList(TestingOutputKeys, fields);
    assert list.value == TestingOutputFields(row, percentage, rolling);
    line := GenerateCSVRow(list.value);
  }

  /** The line the testing loop writes for a row with the given percentage
      text and rolling total: its output fields as a CSV line; nothing for a
      row without column 11, which raises before its line is built. */
  function TestingOutputLine(row: DatedRow, percentage: string, rolling: int): string
    requires Valid(row.date)
  {
    if |row.cells| > 11 then CsvRow(TestingOutputFields(row, percentage, rolling)) else ""
  }

  /** The testing lines of all rows, in row order. */
  function TestingOutputLines(rows: seq<DatedRow>, percentages: seq<string>, rolling: seq<int>): (lines: seq<string>)
    requires |rows| == |percentages| == |rolling| && AllDatesValid(rows)
    ensures |lines| == |rows|
    ensures forall k {:trigger lines[k]} :: 0 <= k < |rows| && |rows[k].cells| > 11 ==>
      lines[k] == CsvRow(TestingOutputFields(rows[k], percentages[k], rolling[k]))
  {
    seq(|rows|, k requires 0 <= k < |rows| => TestingOutputLine(rows[k], percentages[k], rolling[k]))
  }

  /** The lines written for the first n testing rows: each row has its
      column 11 and the lines are the first n testing lines. */
  predicate TestingLinesUpTo(rows: seq<DatedRow>, percentages: seq<string>, rolling: seq<int>,
                             n: nat, lines: seq<string>)
    requires n <= |rows| == |percentages| == |rolling| && AllDatesValid(rows)
  {
    && (forall k :: 0 <= k < n ==> |rows[k].cells| > 11)
    && lines == TestingOutputLines(rows, percentages, rolling)[..n]
  }

  /** Every testing row's exception, in row order. */
  function TestingRowFaults(rows: seq<DatedRow>, period: int): (faults: seq<Option<Fault>>)
    requires AllDatesValid(rows)
    ensures |faults| == |rows|
    ensures forall k {:trigger faults[k]} :: 0 <= k < |rows| ==> faults[k] == TestingRowFault(rows, period, k)
  {
    seq(|rows|, k requires 0 <= k < |rows| => TestingRowFault(rows, period, k))
  }

  /** No row before n raises. */
  predicate NoTestingFault(rows: seq<DatedRow>, period: int, n: nat)
    requires AllDatesValid(rows) && n <= |rows|
  {
    forall k :: 0 <= k < n ==> TestingRowFaults(rows, period)[k].None?
  }

  lemma NoTestingFaultAt(rows: seq<DatedRow>, period: int, n: nat)
    requires AllDatesValid(rows) && n <= |rows|
    ensures NoTestingFault(rows, period, n) <==> forall k :: 0 <= k < n ==> TestingRowFault(rows, period, k).None?
  {
    var faults := TestingRowFaults(rows, period);
    forall k | 0 <= k < n
      ensures faults[k] == TestingRowFault(rows, period, k)
    {
    }
  }

  /** The state of the testing loop after its first n rows. */
  ghost predicate TestingLoopState(rows: seq<DatedRow>, percentages: seq<string>, period: int, n: nat,
                                   rolling: int, lines: seq<string>)
    requires AllDatesValid(rows) && |percentages| == |rows|
  {
    var values := RollingSeries(TestingSamples(rows), period);
    && n <= |rows|
    && rolling == ValueBefore(values, n - 1)
    && NoTestingFault(rows, period, n)
    && TestingLinesUpTo(rows, percentages, values, n, lines)
  }

  /** The reading half of one pass of the testing loop: check column 11,
      scan for the boundary and difference the two cumulative counts, take
      the decrement off after the change date, and divide the positives by
      the daily count; or the exception the row raises. */
  method ReadTestingRow(rows: seq<DatedRow>, samples: seq<Sample>, period: int, i: nat, rolling: int)
    returns (fault: Option<Fault>, rolling': int, cumulative: string)
    requires AllDatesValid(rows) && samples == TestingSamples(rows)
    requires i < |rows|
    requires rolling == ValueBefore(RollingSeries(samples, period), i - 1)
    ensures fault == TestingRowFault(rows, period, i)
    ensures fault.None? ==> |rows[i].cells| > 11
    ensures fault.None? ==> rolling' == RollingSeries(samples, period)[i]
    ensures fault.None? ==> cumulative == EmittedCumulativePositive(rows[i])
  {
    rolling', cumulative := rolling, "";
    var row := rows[i];
    if |row.cells| <= 11 {
      return Some(IndexOutOfRange), rolling', cumulative;
    }
    var boundary := FindBoundary(samples, i, period);
    if boundary.Some? {
      var current := ParseInt(row.cells[11]);
      var earlier := CumulativePositive(rows[boundary.value]);
      if current.None? || earlier.None? {
        return Some(NotANumber), rolling', cumulative;
      }
      TestingSampleCounter(rows, i);
      TestingSampleCounter(rows, boundary.value);
      rolling' := current.value - earlier.value;
    }
    cumulative := row.cells[11];
    if OnOrAfterChange(row.date) {
      var parsed := ParseInt(row.cells[11]);
      if parsed.None? {
        return Some(NotANumber), rolling', cumulative;
      }
      cumulative := IntToString(parsed.value - DataDecrement);
    }
    var positive := ParseInt(row.cells[10]);
    var daily := ParseInt(row.cells[6]);
    if positive.None? || daily.None? {
      return Some(NotANumber), rolling', cumulative;
    }
    if daily.value == 0 {
      return Some(DivisionByZero), rolling', cumulative;
    }
    fault := None;
  }

  /** One pass of the testing loop body: read the row, then write its line. */
  method TestingRowStep(rows: seq<DatedRow>, samples: seq<Sample>, percentages: seq<string>, period: int,
                        i: nat, rolling: int, lines: seq<string>)
    returns (fault: Option<Fault>, rolling': int, lines': seq<string>)
    requires AllDatesValid(rows) && samples == TestingSamples(rows) && |percentages| == |rows|
    requires i < |rows|
    requires TestingLoopState(rows, percentages, period, i, rolling, lines)
    ensures fault == TestingRowFault(rows, period, i)
    ensures fault.None? ==> TestingLoopState(rows, percentages, period, i + 1, rolling', lines')
  {
    ghost var values := RollingSeries(samples, period);
    var cumulative;
    fault, rolling', cumulative := ReadTestingRow(rows, samples, period, i, rolling);
    lines' := lines;
    if fault.Some? {
      return;
    }
    var line := WriteTestingRow(rows[i], percentages[i], cumulative, rolling');
    lines' := lines + [line];
    TestingLoopStateStep(rows, percentages, period, i, rolling', lines, line);
  }

  /** A row that raises nothing extends the testing loop's state by its
      rolling total and its line. */
  lemma TestingLoopStateStep(rows: seq<DatedRow>, percentages: seq<string>, period: int, i: nat,
                             rolling: int, lines: seq<string>, line: string)
    requires AllDatesValid(rows) && |percentages| == |rows| && i < |rows|
    requires TestingLoopState(rows, percentages, period, i, ValueBefore(RollingSeries(TestingSamples(rows), period), i - 1), lines)
    requires TestingRowFault(rows, period, i).None?
    requires rolling == RollingSeries(TestingSamples(rows), period)[i]
    requires |rows[i].cells| > 11 && line == CsvRow(TestingOutputFields(rows[i], percentages[i], rolling))
    ensures TestingLoopState(rows, percentages, period, i + 1, rolling, lines + [line])
  {
    var values := RollingSeries(TestingSamples(rows), period);
    assert TestingRowFaults(rows, period)[i].None?;
    TestingLinesExtend(rows, percentages, values, i, lines, line);
  }

  /** Writing row n's line extends the lines of the first n rows. */
  lemma TestingLinesExtend(rows: seq<DatedRow>, percentages: seq<string>, values: seq<int>, n: nat,
                           lines: seq<string>, line: string)
    requires n < |rows| == |percentages| == |values| && AllDatesValid(rows)
    requires TestingLinesUpTo(rows, percentages, values, n, lines)
    requires |rows[n].cells| > 11 && line == CsvRow(TestingOutputFields(rows[n], percentages[n], values[n]))
    ensures TestingLinesUpTo(rows, percentages, values, n + 1, lines + [line])
  {
    PrefixGrows(TestingOutputLines(rows, percentages, values), n);
  }

  /** The testing loop proper: run the row step over every row, stopping at
      the first row that raises. */
  method RunTestingLoop(rows: seq<DatedRow>, percentages: seq<string>, period: int)
    returns (stop: Option<nat>, rolling: int, lines: seq<string>)
    requires AllDatesValid(rows) && |percentages| == |rows|
    ensures stop.None? ==> TestingLoopState(rows, percentages, period, |rows|, rolling, lines)
    ensures stop.Some? ==>
      && stop.value < |rows|
      && NoTestingFault(rows, period, stop.value)
      && TestingRowFault(rows, period, stop.value).Some?
  {
    var samples := TestingSamples(rows);
    rolling := 0;
    lines := [];
    for i := 0 to |rows|
      invariant TestingLoopState(rows, percentages, period, i, rolling, lines)
    {
      var fault;
      fault, rolling, lines := TestingRowStep(rows, samples, percentages, period, i, rolling, lines);
      if fault.Some? {
        return Some(i), rolling, lines;
      }
    }
    stop := None;
  }

  /** The testing half of the processing loop, with the percentage text
      given: for each row, compute its rolling total of cumulative positives
      and write its line. The first row that raises ends the run with its
      exception. The final trend message reads the date of the last row, so
      an empty series raises NameError there, the testing series being the
      first one processed. */
  method ProcessTestingSeries(rows: seq<DatedRow>, percentages: seq<string>, period: int)
    returns (r: Result<seq<string>>)
    requires AllDatesValid(rows)
    requires |percentages| == |rows|
    ensures |rows| == 0 ==> r == Err(Unbound)
    ensures r.Ok? <==> |rows| > 0 && forall k :: 0 <= k < |rows| ==> TestingRowFault(rows, period, k).None?
    ensures r.Err? && |rows| > 0 ==>
      exists i :: 0 <= i < |rows| && TestingRowFault(rows, period, i) == Some(r.fault)
                  && forall k :: 0 <= k < i ==> TestingRowFault(rows, period, k).None?
    ensures r.Ok? ==>
      var rolling := RollingSeries(TestingSamples(rows), period);
      && |r.value| == |rows|
      && forall k :: 0 <= k < |rows| ==>
           |rows[k].cells| > 11 && r.value[k] == CsvRow(TestingOutputFields(rows[k], percentages[k], rolling[k]))
  {
    var stop, rolling, lines := RunTestingLoop(rows, percentages, period);
    if stop.Some? {
      FirstTestingFault(rows, period, stop.value);
      return Err(TestingRowFault(rows, period, stop.value).value);
    }
    if |rows| == 0 {
      return Err(Unbound);
    }
    TestingSeriesComplete(rows, percentages, period, rolling, lines);
    r := Ok(lines);
  }

  /** A fault at row i after none before it is the first fault. */
  lemma FirstTestingFault(rows: seq<DatedRow>, period: int, i: nat)
    requires AllDatesValid(rows) && i < |rows|
    requires NoTestingFault(rows, period, i) && TestingRowFault(rows, period, i).Some?
    ensures !forall k :: 0 <= k < |rows| ==> TestingRowFault(rows, period, k).None?
    ensures forall k :: 0 <= k < i ==> TestingRowFault(rows, period, k).None?
  {
    NoTestingFaultAt(rows, period, i);
  }

  /** The testing loop's state after every row gives every row's line. */
  lemma TestingSeriesComplete(rows: seq<DatedRow>, percentages: seq<string>, period: int,
                              rolling: int, lines: seq<string>)
    requires AllDatesValid(rows) && |percentages| == |rows|
    requires TestingLoopState(rows, percentages, period, |rows|, rolling, lines)
    ensures forall k :: 0 <= k < |rows| ==> TestingRowFault(rows, period, k).None?
    ensures var values := RollingSeries(TestingSamples(rows), period);
      && |lines| == |rows|
      && forall k :: 0 <= k < |rows| ==>
           |rows[k].cells| > 11 && lines[k] == CsvRow(TestingOutputFields(rows[k], percentages[k], values[k]))
  {
    var values := RollingSeries(TestingSamples(rows), period);
    assert NoTestingFault(rows, period, |rows|);
    NoTestingFaultAt(rows, period, |rows|);
    assert lines == TestingOutputLines(rows, percentages, values);
  }
}
