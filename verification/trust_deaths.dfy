/** The NHS trust deaths update: flatten the configured trust names, take
    the header row of the converted spreadsheet apart, and for every data
    row whose trust name starts with a configured trust write the row's
    totals and report the date of the trust's last death, raising the
    attention flag when that death lies a week or less before today. */
module TrustDeaths {
  import opened Wrappers
  import opened Text
  import opened Calendar
  import opened DateFormats
  import opened ReportHelpers

  // ----- The trust list -----

  /** Every configuration line split on commas, the pieces in order. */
  function TrustList(lines: seq<string>): seq<string> {
    if |lines| == 0 then []
    else TrustList(lines[..|lines| - 1]) + Split(lines[|lines| - 1], ',')
  }

  /** The trust-list loop: each configuration line is split and each piece
      appended to the list. */
  method FlattenTrusts(lines: seq<string>) returns (trusts: seq<string>)
    ensures trusts == TrustList(lines)
  {
    trusts := [];
    for i := 0 to |lines|
      invariant trusts == TrustList(lines[..i])
    {
      assert lines[..i + 1][..i] == lines[..i];
      var pieces := Split(lines[i], ',');
      for j := 0 to |pieces|
        invariant trusts == TrustList(lines[..i]) + pieces[..j]
      {
        assert pieces[..j + 1] == pieces[..j] + [pieces[j]];
        trusts := trusts + [pieces[j]];
      }
      assert pieces[..|pieces|] == pieces;
    }
    assert lines[..|lines|] == lines;
  }

  /** The list holds exactly the pieces of the lines, none of them holding a
      comma, and at least one per line. */
  lemma {:induction false} TrustListMeaning(lines: seq<string>)
    ensures |TrustList(lines)| >= |lines|
    ensures forall t :: t in TrustList(lines) ==> ',' !in t
    ensures forall t :: t in TrustList(lines) <==> exists k :: 0 <= k < |lines| && t in Split(lines[k], ',')
  {
    if |lines| > 0 {
      var init := lines[..|lines| - 1];
      TrustListMeaning(init);
      forall t | t in TrustList(lines)
        ensures ',' !in t
      {
        if t !in TrustList(init) {
          var k :| 0 <= k < |Split(lines[|lines| - 1], ',')| && Split(lines[|lines| - 1], ',')[k] == t;
        }
      }
      forall t
        ensures (exists k :: 0 <= k < |lines| && t in Split(lines[k], ',')) ==> t in TrustList(lines)
      {
        if k :| 0 <= k < |lines| && t in Split(lines[k], ',') {
          if k < |lines| - 1 {
            assert init[k] == lines[k];
          }
        }
      }
      forall t | t in TrustList(lines)
        ensures exists k :: 0 <= k < |lines| && t in Split(lines[k], ',')
      {
        if t in TrustList(init) {
          var k :| 0 <= k < |init| && t in Split(init[k], ',');
          assert lines[k] == init[k];
        } else {
          assert t in Split(lines[|lines| - 1], ',');
        }
      }
    }
  }

  /** Reading more configuration lines only appends to the list. */
  lemma {:induction false} TrustListConcat(a: seq<string>, b: seq<string>)
    ensures TrustList(a + b) == TrustList(a) + TrustList(b)
  {
    if |b| == 0 {
      assert a + b == a;
    } else {
      var b', x := b[..|b| - 1], b[|b| - 1];
      TrustListConcat(a, b');
      assert (a + b)[..|a + b| - 1] == a + b';
      assert (a + b)[|a + b| - 1] == x;
      calc {
        TrustList(a + b);
        TrustList(a + b') + Split(x, ',');
        TrustList(a) + TrustList(b') + Split(x, ',');
        TrustList(a) + (TrustList(b') + Split(x, ','));
        TrustList(a) + TrustList(b);
      }
    }
  }

  /** The configured trusts a row's trust name starts with, in list order,
      a trust listed twice matching twice. */
  function Matching(trusts: seq<string>, name: string): seq<string> {
    if |trusts| == 0 then []
    else
      var last := trusts[|trusts| - 1];
      Matching(trusts[..|trusts| - 1], name) + (if StartsWith(name, last) then [last] else [])
  }

  /** A row is written once for every listed copy of every trust its name
      starts with, and for no other. */
  lemma {:induction false} MatchingCounts(trusts: seq<string>, name: string)
    ensures forall t :: multiset(Matching(trusts, name))[t] == if StartsWith(name, t) then multiset(trusts)[t] else 0
  {
    if |trusts| > 0 {
      var init := trusts[..|trusts| - 1];
      MatchingCounts(init, name);
      assert trusts == init + [trusts[|trusts| - 1]];
    }
  }

  // ----- Python slices -----

  /** A slice bound as Python reads it on a sequence of length n: a
      negative bound counts from the end, and both are clamped to 0..n. */
  function SliceIndex(i: int, n: nat): (j: nat)
    ensures j <= n
    ensures 0 <= i <= n ==> j == i
    ensures -(n as int) <= i < 0 ==> j == n + i
  {
    if i < 0 then (if i + n < 0 then 0 else i + n)
    else if i > n then n
    else i
  }

  /** s[start:stop]: empty when the clamped stop does not exceed the
      clamped start. */
  function PySlice<T>(s: seq<T>, start: int, stop: int): (r: seq<T>)
    ensures var lo, hi := SliceIndex(start, |s|), SliceIndex(stop, |s|);
      && |r| == (if lo < hi then hi - lo else 0)
      && forall k :: 0 <= k < |r| ==> r[k] == s[lo + k]
  {
    var lo, hi := SliceIndex(start, |s|), SliceIndex(stop, |s|);
    if lo < hi then s[lo..hi] else []
  }

  /** The daily columns of a row: from column 6 up to the last 18. */
  function DailyColumns<T>(cells: seq<T>): seq<T> {
    PySlice(cells, 6, |cells| - 18)
  }

  /** The columns written out: from column 6 up to the last 14. */
  function TotalColumns<T>(cells: seq<T>): seq<T> {
    PySlice(cells, 6, |cells| - 14)
  }

  /** On a row of at least 24 columns the daily columns are the first
      columns of the written ones, which go on four columns further. */
  lemma DailyThenTotals<T>(cells: seq<T>)
    requires |cells| >= 24
    ensures DailyColumns(cells) == cells[6..|cells| - 18]
    ensures TotalColumns(cells) == DailyColumns(cells) + cells[|cells| - 18..|cells| - 14]
  {
    assert DailyColumns(cells) == cells[6..|cells| - 18];
    assert TotalColumns(cells) == cells[6..|cells| - 14];
  }

  /** A row of 13 to 17 columns has a negative stop that wraps around: its
      daily columns are not empty but run from column 6 to column
      2 * len - 18. */
  lemma ShortRowWraps<T>(cells: seq<T>)
    requires 12 < |cells| < 18
    ensures DailyColumns(cells) == cells[6..2 * |cells| - 18]
    ensures |DailyColumns(cells)| == 2 * |cells| - 24
  {
    assert DailyColumns(cells) == cells[6..2 * |cells| - 18];
  }

  /** A row of 18 to 24 columns has no daily columns. */
  lemma NoDailyColumns<T>(cells: seq<T>)
    requires 18 <= |cells| <= 24
    ensures DailyColumns(cells) == []
  {
  }

  // ----- The last death -----

  /** Every entry is a number int() accepts. */
  predicate AllNumeric(list: seq<string>) {
    forall k :: 0 <= k < |list| ==> ParseInt(list[k]).Some?
  }

  /** The highest index whose entry is positive, if any. */
  function LastPositive(list: seq<string>): (r: Option<nat>)
    requires AllNumeric(list)
    ensures r.Some? ==> r.value < |list|
  {
    if |list| == 0 then None
    else if ParseInt(list[|list| - 1]).value > 0 then Some(|list| - 1)
    else LastPositive(list[..|list| - 1])
  }

  /** What FindLastDeath returns or raises: a ValueError when some entry is
      not a number (every entry is read), an UnboundLocalError when no entry
      is positive, else the highest index of a positive entry. */
  function LastDeath(list: seq<string>): Result<nat> {
    if !AllNumeric(list) then Err(NotANumber)
    else
      match LastPositive(list)
      case None => Err(NoPositiveEntry)
      case Some(i) => Ok(i)
  }

  /** The last death is at the highest index with a positive count: that
      entry is positive and every later one is zero or negative; with no
      positive entry the call fails, and a non-numeric entry anywhere fails
      it first. */
  lemma {:induction false} LastDeathMeaning(list: seq<string>)
    ensures LastDeath(list) == Err(NotANumber) <==> !AllNumeric(list)
    ensures LastDeath(list) == Err(NoPositiveEntry) <==>
      AllNumeric(list) && forall k :: 0 <= k < |list| ==> ParseInt(list[k]).value <= 0
    ensures LastDeath(list).Ok? ==>
      var i := LastDeath(list).value;
      && i < |list|
      && ParseInt(list[i]).value > 0
      && forall k :: i < k < |list| ==> ParseInt(list[k]).value <= 0
  {
    if |list| > 0 && AllNumeric(list) {
      var init := list[..|list| - 1];
      assert AllNumeric(init) by {
        forall k | 0 <= k < |init|
          ensures ParseInt(init[k]).Some?
        {
          assert init[k] == list[k];
        }
      }
      LastDeathMeaning(init);
      forall k | 0 <= k < |init|
        ensures init[k] == list[k]
      {
      }
    }
  }

  /** FindLastDeath: walk the list with an index, remembering the index of
      each positive entry. */
  method FindLastDeath(list: seq<string>) returns (r: Result<nat>)
    ensures r == LastDeath(list)
  {
    var result: Option<nat> := None;
    for index := 0 to |list|
      invariant AllNumeric(list[..index])
      invariant result == LastPositive(list[..index])
    {
      assert list[..index + 1][..index] == list[..index];
      var value := ParseInt(list[index]);
      if value.None? {
        assert !AllNumeric(list);
        return Err(NotANumber);
      }
      if value.value > 0 {
        result := Some(index);
      }
    }
    assert list[..|list|] == list;
    if result.None? {
      return Err(NoPositiveEntry);
    }
    r := Ok(result.value);
  }

  // ----- Specimen dates -----

  /** The header's date columns read as DD-Mon-YY dates, in order, or the
      exception the first unreadable one raises. */
  function ParseDates(list: seq<string>): (r: Result<seq<Date>>)
    ensures r.Ok? ==> |r.value| == |list|
    ensures r.Ok? ==> forall k :: 0 <= k < |list| ==> ParseDayMonYear(list[k]) == Ok(r.value[k])
  {
    if |list| == 0 then Ok([])
    else
      match ParseDates(list[..|list| - 1])
      case Err(f) => Err(f)
      case Ok(dates) =>
        match ParseDayMonYear(list[|list| - 1])
        case Err(f) => Err(f)
        case Ok(d) => Ok(dates + [d])
  }

  /** The dates are read exactly when every column is a date. */
  lemma {:induction false} ParseDatesSucceeds(list: seq<string>)
    ensures ParseDates(list).Ok? <==> forall k :: 0 <= k < |list| ==> ParseDayMonYear(list[k]).Ok?
  {
    if |list| > 0 {
      var init := list[..|list| - 1];
      ParseDatesSucceeds(init);
      forall k | 0 <= k < |init|
        ensures init[k] == list[k]
      {
      }
    }
  }

  predicate AllValid(dates: seq<Date>) {
    forall k :: 0 <= k < |dates| ==> Valid(dates[k])
  }

  /** The specimen-date loop: each date column is converted in turn. */
  method ReadSpecimenDates(list: seq<string>) returns (r: Result<seq<Date>>)
    ensures r == ParseDates(list)
    ensures r.Ok? ==> AllValid(r.value)
  {
    var dates: seq<Date> := [];
    for i := 0 to |list|
      invariant ParseDates(list[..i]) == Ok(dates)
      invariant AllValid(dates)
    {
      assert list[..i + 1][..i] == list[..i];
      var d := ParseDayMonYear(list[i]);
      if d.Err? {
        PrefixFaultPersists(list, i + 1);
        return Err(d.fault);
      }
      dates := dates + [d.value];
    }
    assert list[..|list|] == list;
    r := Ok(dates);
  }

  /** Once some prefix of the columns fails, the whole list fails the same
      way. */
  lemma {:induction false} PrefixFaultPersists(list: seq<string>, n: nat)
    requires n <= |list| && ParseDates(list[..n]).Err?
    ensures ParseDates(list) == ParseDates(list[..n])
    decreases |list| - n
  {
    if n < |list| {
      assert list[..n + 1][..n] == list[..n];
      PrefixFaultPersists(list, n + 1);
    } else {
      assert list[..n] == list;
    }
  }

  // ----- Output rows -----

  /** The message logged for a written row: the configured trust, the date
      of its last death and whether that is a week or less before today. */
  datatype LastDeathNote = LastDeathNote(trust: string, date: Date, recent: bool)

  /** One written data line and its message. */
  datatype TrustLine = TrustLine(line: string, note: LastDeathNote)

  /** The data line of a row: its trust name, then its written columns. */
  function DataLine(cells: seq<string>): string
    requires |cells| > 4
  {
    cells[4] + "," + CsvRow(TotalColumns(cells))
  }

  /** The lines of a row, one per matching trust in the given order. */
  function LinesFor(matches: seq<string>, line: string, date: Date, recent: bool): (r: seq<TrustLine>)
    ensures |r| == |matches|
    ensures forall k :: 0 <= k < |r| ==> r[k] == TrustLine(line, LastDeathNote(matches[k], date, recent))
  {
    if |matches| == 0 then []
    else LinesFor(matches[..|matches| - 1], line, date, recent) + [TrustLine(line, LastDeathNote(matches[|matches| - 1], date, recent))]
  }

  /** The date of a row's last death, or the exception finding it raises:
      a last-death index beyond the header's dates is an IndexError. */
  function LastDeathDate(cells: seq<string>, dates: seq<Date>): (r: Result<Date>)
    ensures r.Ok? ==> exists i :: 0 <= i < |dates| && LastDeath(DailyColumns(cells)) == Ok(i) && r.value == dates[i]
  {
    match LastDeath(DailyColumns(cells))
    case Err(f) => Err(f)
    case Ok(i) => if i < |dates| then Ok(dates[i]) else Err(IndexOutOfRange)
  }

  /** The lines one data row produces: reading its trust name (column 4)
      fails on a short row, whether or not it matches; a row no trust
      matches produces nothing; otherwise every match writes the row and
      reports the date of its last death against today. */
  function RowLines(cells: seq<string>, trusts: seq<string>, dates: seq<Date>, today: Date): (r: Result<seq<TrustLine>>)
    requires Valid(today) && AllValid(dates)
  {
    if |cells| <= 4 then Err(IndexOutOfRange)
    else
      var matches := Matching(trusts, cells[4]);
      if |matches| == 0 then Ok([])
      else
        match LastDeathDate(cells, dates)
        case Err(f) => Err(f)
        case Ok(d) => Ok(LinesFor(matches, DataLine(cells), d, DaysBetween(d, today) <= 7))
  }

  /** A written line always carries the row's data line and a trust the
      name starts with, and it is marked recent exactly when the last death
      is at most 7 days before today. */
  lemma RowLinesMeaning(cells: seq<string>, trusts: seq<string>, dates: seq<Date>, today: Date)
    requires Valid(today) && AllValid(dates) && RowLines(cells, trusts, dates, today).Ok?
    ensures var lines := RowLines(cells, trusts, dates, today).value;
      && (|cells| > 4 ==> |lines| == |Matching(trusts, cells[4])|)
      && forall k :: 0 <= k < |lines| ==>
           && |cells| > 4
           && lines[k].line == DataLine(cells)
           && lines[k].note.trust in trusts && StartsWith(cells[4], lines[k].note.trust)
           && LastDeathDate(cells, dates) == Ok(lines[k].note.date)
           && (lines[k].note.recent <==> DaysBetween(lines[k].note.date, today) <= 7)
  {
    if |cells| > 4 {
      MatchingMembers(trusts, cells[4]);
    }
  }

  lemma {:induction false} MatchingMembers(trusts: seq<string>, name: string)
    ensures forall t :: t in Matching(trusts, name) ==> t in trusts && StartsWith(name, t)
  {
    if |trusts| > 0 {
      MatchingMembers(trusts[..|trusts| - 1], name);
    }
  }

  /** Some line is marked recent. */
  predicate AnyRecent(lines: seq<TrustLine>) {
    exists k :: 0 <= k < |lines| && lines[k].note.recent
  }

  /** The inner loop over the trust list for one row (trust name read,
      then each matching trust writes the row and logs its last death). The
      flag comes back raised when it was, or when some line is recent. */
  method ProcessTrustRow(cells: seq<string>, trusts: seq<string>, dates: seq<Date>, today: Date, attention: bool)
    returns (r: Result<seq<TrustLine>>, attention': bool)
    requires Valid(today) && AllValid(dates)
    ensures r == RowLines(cells, trusts, dates, today)
    ensures r.Ok? ==> (attention' <==> attention || AnyRecent(r.value))
  {
    attention' := attention;
    if |cells| <= 4 {
      return Err(IndexOutOfRange), attention';
    }
    var name := cells[4];
    var lines: seq<TrustLine> := [];
    ghost var found: Option<Date> := None;
    for j := 0 to |trusts|
      invariant TrustScanState(cells, trusts, dates, today, j, found, lines)
      invariant attention' <==> attention || AnyRecent(lines)
    {
      if StartsWith(name, trusts[j]) {
        var line := name + "," ;
        var written := GenerateCSVRow(TotalColumns(cells));
        line := line + written;
        var index := FindLastDeath(DailyColumns(cells));
        if index.Err? {
          TrustScanFails(cells, trusts, dates, today, j, found, lines);
          return Err(index.fault), attention';
        }
        if index.value >= |dates| {
          TrustScanFails(cells, trusts, dates, today, j, found, lines);
          return Err(IndexOutOfRange), attention';
        }
        var date := dates[index.value];
        var recent := DaysBetween(date, today) <= 7;
        var note := TrustLine(line, LastDeathNote(trusts[j], date, recent));
        TrustScanTake(cells, trusts, dates, today, j, found, lines, date);
        AnyRecentConcat(lines, [note]);
        assert [note][0] == note;
        lines := lines + [note];
        found := Some(date);
        if recent {
          attention' := true;
        }
      } else {
        TrustScanSkip(cells, trusts, dates, today, j, found, lines);
      }
    }
    TrustScanEnd(cells, trusts, dates, today, found, lines);
    r := Ok(lines);
  }

  /** The trust loop of one row after its first j trusts: no line until
      some trust matches; from then on, one line per match so far, all
      with the row's last death. */
  ghost predicate TrustScanState(cells: seq<string>, trusts: seq<string>, dates: seq<Date>, today: Date,
                                 j: nat, found: Option<Date>, lines: seq<TrustLine>)
    requires Valid(today) && AllValid(dates)
    requires |cells| > 4 && j <= |trusts|
  {
    var m := Matching(trusts[..j], cells[4]);
    && (found.None? <==> |m| == 0)
    && (found.None? ==> lines == [])
    && (found.Some? ==> LastDeathDate(cells, dates) == Ok(found.value)
                        && lines == LinesFor(m, DataLine(cells), found.value, DaysBetween(found.value, today) <= 7))
  }

  lemma TrustScanSkip(cells: seq<string>, trusts: seq<string>, dates: seq<Date>, today: Date,
                      j: nat, found: Option<Date>, lines: seq<TrustLine>)
    requires Valid(today) && AllValid(dates) && |cells| > 4 && j < |trusts|
    requires TrustScanState(cells, trusts, dates, today, j, found, lines)
    requires !StartsWith(cells[4], trusts[j])
    ensures TrustScanState(cells, trusts, dates, today, j + 1, found, lines)
  {
    assert trusts[..j + 1][..j] == trusts[..j];
  }

  lemma TrustScanTake(cells: seq<string>, trusts: seq<string>, dates: seq<Date>, today: Date,
                      j: nat, found: Option<Date>, lines: seq<TrustLine>, date: Date)
    requires Valid(today) && AllValid(dates) && |cells| > 4 && j < |trusts|
    requires TrustScanState(cells, trusts, dates, today, j, found, lines)
    requires StartsWith(cells[4], trusts[j]) && LastDeathDate(cells, dates) == Ok(date)
    ensures Valid(date)
    ensures var recent := DaysBetween(date, today) <= 7;
      TrustScanState(cells, trusts, dates, today, j + 1, Some(date),
                     lines + [TrustLine(DataLine(cells), LastDeathNote(trusts[j], date, recent))])
  {
    assert trusts[..j + 1][..j] == trusts[..j];
    var recent := DaysBetween(date, today) <= 7;
    LinesForAppend(Matching(trusts[..j], cells[4]), trusts[j], DataLine(cells), date, recent);
  }

  lemma TrustScanFails(cells: seq<string>, trusts: seq<string>, dates: seq<Date>, today: Date,
                       j: nat, found: Option<Date>, lines: seq<TrustLine>)
    requires Valid(today) && AllValid(dates) && |cells| > 4 && j < |trusts|
    requires TrustScanState(cells, trusts, dates, today, j, found, lines)
    requires StartsWith(cells[4], trusts[j]) && LastDeathDate(cells, dates).Err?
    ensures RowLines(cells, trusts, dates, today) == Err(LastDeathDate(cells, dates).fault)
  {
    assert trusts[..j + 1][..j] == trusts[..j];
    MatchingGrows(trusts, j + 1, cells[4]);
  }

  lemma TrustScanEnd(cells: seq<string>, trusts: seq<string>, dates: seq<Date>, today: Date,
                     found: Option<Date>, lines: seq<TrustLine>)
    requires Valid(today) && AllValid(dates) && |cells| > 4
    requires TrustScanState(cells, trusts, dates, today, |trusts|, found, lines)
    ensures RowLines(cells, trusts, dates, today) == Ok(lines)
  {
    assert trusts[..|trusts|] == trusts;
  }

  lemma LinesForAppend(matches: seq<string>, t: string, line: string, date: Date, recent: bool)
    ensures LinesFor(matches + [t], line, date, recent) ==
      LinesFor(matches, line, date, recent) + [TrustLine(line, LastDeathNote(t, date, recent))]
  {
    assert (matches + [t])[..|matches|] == matches;
  }

  /** Once some trust matches, the row matches at least one trust. */
  lemma {:induction false} MatchingGrows(trusts: seq<string>, j: nat, name: string)
    requires j <= |trusts|
    ensures |Matching(trusts[..j], name)| <= |Matching(trusts, name)|
    decreases |trusts| - j
  {
    if j < |trusts| {
      assert trusts[..j + 1][..j] == trusts[..j];
      MatchingGrows(trusts, j + 1, name);
    } else {
      assert trusts[..j] == trusts;
    }
  }

  /** The lines all data rows produce, row after row, or the first
      exception. */
  function AllRowLines(rows: seq<seq<string>>, trusts: seq<string>, dates: seq<Date>, today: Date): Result<seq<TrustLine>>
    requires Valid(today) && AllValid(dates)
  {
    if |rows| == 0 then Ok([])
    else
      match AllRowLines(rows[..|rows| - 1], trusts, dates, today)
      case Err(f) => Err(f)
      case Ok(lines) =>
        match RowLines(rows[|rows| - 1], trusts, dates, today)
        case Err(f) => Err(f)
        case Ok(more) => Ok(lines + more)
  }

  /** What the update produces: the header line, the data lines with their
      messages, and the attention flag. */
  datatype TrustReport = TrustReport(header: string, lines: seq<TrustLine>, attention: bool)

  /** The header line: the header row's column 4, then its written
      columns. */
  function HeaderLine(header: seq<string>): string
    requires |header| > 4
  {
    header[4] + "," + CsvRow(TotalColumns(header))
  }

  /** Each converted spreadsheet line split on commas. */
  function SplitRows(csvLines: seq<string>): (rows: seq<seq<string>>)
    ensures |rows| == |csvLines|
    ensures forall k :: 0 <= k < |csvLines| ==> rows[k] == Split(csvLines[k], ',')
  {
    seq(|csvLines|, k requires 0 <= k < |csvLines| => Split(csvLines[k], ','))
  }

  /** The whole update on the converted spreadsheet's lines: an empty file
      leaves the line list undefined (NameError); the first row is the
      header, whose column 4 must exist and whose daily columns must all be
      dates; then every other row in turn. The flag is raised exactly when
      some written line's last death is recent. */
  function TrustDeaths(csvLines: seq<string>, trusts: seq<string>, today: Date): (r: Result<TrustReport>)
    requires Valid(today)
    ensures |csvLines| == 0 ==> r == Err(Unbound)
    ensures |csvLines| > 0 && |Split(csvLines[0], ',')| <= 4 ==> r == Err(IndexOutOfRange)
    ensures |csvLines| > 0 && |Split(csvLines[0], ',')| > 4 && ParseDates(DailyColumns(Split(csvLines[0], ','))).Err? ==>
      r == Err(ParseDates(DailyColumns(Split(csvLines[0], ','))).fault)
    ensures r.Ok? ==>
      && |csvLines| > 0
      && ParseDates(DailyColumns(Split(csvLines[0], ','))).Ok?
      && (r.value.attention <==>
            AnyRecentRow(SplitRows(csvLines)[1..], trusts, ParseDates(DailyColumns(Split(csvLines[0], ','))).value, today))
  {
    if |csvLines| == 0 then Err(Unbound)
    else
      var rows := SplitRows(csvLines);
      var header := rows[0];
      if |header| <= 4 then Err(IndexOutOfRange)
      else
        match ParseDates(DailyColumns(header))
        case Err(f) => Err(f)
        case Ok(dates) =>
          ParseDatesValid(DailyColumns(header));
          match AllRowLines(rows[1..], trusts, dates, today)
          case Err(f) => Err(f)
          case Ok(lines) =>
            AttentionMeaning(rows[1..], trusts, dates, today);
            Ok(TrustReport(HeaderLine(header), lines, AnyRecent(lines)))
  }

  lemma ParseDatesValid(list: seq<string>)
    requires ParseDates(list).Ok?
    ensures AllValid(ParseDates(list).value)
  {
  }

  /** The state of the row loop after the first i data rows. */
  ghost predicate RowLoopState(rows: seq<seq<string>>, trusts: seq<string>, dates: seq<Date>, today: Date,
                               i: nat, lines: seq<TrustLine>, attention: bool)
    requires Valid(today) && AllValid(dates)
  {
    && i <= |rows|
    && AllRowLines(rows[..i], trusts, dates, today) == Ok(lines)
    && (attention <==> AnyRecent(lines))
  }

  lemma RowLoopStep(rows: seq<seq<string>>, trusts: seq<string>, dates: seq<Date>, today: Date,
                    i: nat, lines: seq<TrustLine>, attention: bool, more: seq<TrustLine>, attention': bool)
    requires Valid(today) && AllValid(dates) && i < |rows|
    requires RowLoopState(rows, trusts, dates, today, i, lines, attention)
    requires RowLines(rows[i], trusts, dates, today) == Ok(more)
    requires attention' <==> attention || AnyRecent(more)
    ensures RowLoopState(rows, trusts, dates, today, i + 1, lines + more, attention')
  {
    assert rows[..i + 1][..i] == rows[..i];
    if AnyRecent(more) {
      var k :| 0 <= k < |more| && more[k].note.recent;
      assert (lines + more)[|lines| + k] == more[k];
    }
    if AnyRecent(lines) {
      var k :| 0 <= k < |lines| && lines[k].note.recent;
      assert (lines + more)[k] == lines[k];
    }
  }

  lemma RowLoopFails(rows: seq<seq<string>>, trusts: seq<string>, dates: seq<Date>, today: Date, i: nat, f: Fault)
    requires Valid(today) && AllValid(dates) && i < |rows|
    requires AllRowLines(rows[..i], trusts, dates, today).Ok?
    requires RowLines(rows[i], trusts, dates, today) == Err(f)
    ensures AllRowLines(rows, trusts, dates, today) == Err(f)
  {
    assert rows[..i + 1][..i] == rows[..i];
    RowFaultPersists(rows, trusts, dates, today, i + 1);
  }

  lemma {:induction false} RowFaultPersists(rows: seq<seq<string>>, trusts: seq<string>, dates: seq<Date>, today: Date, n: nat)
    requires Valid(today) && AllValid(dates) && n <= |rows|
    requires AllRowLines(rows[..n], trusts, dates, today).Err?
    ensures AllRowLines(rows, trusts, dates, today) == AllRowLines(rows[..n], trusts, dates, today)
    decreases |rows| - n
  {
    if n < |rows| {
      assert rows[..n + 1][..n] == rows[..n];
      RowFaultPersists(rows, trusts, dates, today, n + 1);
    } else {
      assert rows[..n] == rows;
    }
  }

  /** The script from the configuration lines onwards: an empty
      configuration file leaves its line list undefined (NameError, already
      raised by the misspelt error-file name of its error report); otherwise
      flatten the configuration lines, split the spreadsheet lines, pop the
      header row, build the header line and the specimen dates, then process
      every data row. */
  method UpdateTrustDeaths(csvLines: seq<string>, configLines: seq<string>, today: Date)
    returns (r: Result<TrustReport>)
    requires Valid(today)
    ensures |configLines| == 0 ==> r == Err(Unbound)
    ensures |configLines| > 0 ==> r == TrustDeaths(csvLines, TrustList(configLines), today)
  {
    if |configLines| == 0 {
      return Err(Unbound);
    }
    var trusts := FlattenTrusts(configLines);
    if |csvLines| == 0 {
      return Err(Unbound);
    }
    var rows := SplitRows(csvLines);
    var header := rows[0];
    rows := rows[1..];
    if |header| <= 4 {
      return Err(IndexOutOfRange);
    }
    var headerLine := header[4];
    var columns := GenerateCSVRow(TotalColumns(header));
    headerLine := headerLine + "," + columns;
    var dates := ReadSpecimenDates(DailyColumns(header));
    if dates.Err? {
      return Err(dates.fault);
    }
    var lines: seq<TrustLine> := [];
    var attention := false;
    for i := 0 to |rows|
      invariant RowLoopState(rows, trusts, dates.value, today, i, lines, attention)
    {
      var more, attention' := ProcessTrustRow(rows[i], trusts, dates.value, today, attention);
      if more.Err? {
        RowLoopFails(rows, trusts, dates.value, today, i, more.fault);
        return Err(more.fault);
      }
      RowLoopStep(rows, trusts, dates.value, today, i, lines, attention, more.value, attention');
      lines, attention := lines + more.value, attention';
    }
    assert rows[..|rows|] == rows;
    r := Ok(TrustReport(headerLine, lines, attention));
  }

  /** The flag is raised exactly when some data row whose name starts with
      a configured trust had its last death a week or less before today. */
  lemma {:induction false} AttentionMeaning(rows: seq<seq<string>>, trusts: seq<string>, dates: seq<Date>, today: Date)
    requires Valid(today) && AllValid(dates) && AllRowLines(rows, trusts, dates, today).Ok?
    ensures AnyRecent(AllRowLines(rows, trusts, dates, today).value) <==> AnyRecentRow(rows, trusts, dates, today)
  {
    if |rows| > 0 {
      var init := rows[..|rows| - 1];
      var last := rows[|rows| - 1];
      AttentionMeaning(init, trusts, dates, today);
      RecentRow(last, trusts, dates, today);
      AnyRecentConcat(AllRowLines(init, trusts, dates, today).value, RowLines(last, trusts, dates, today).value);
      AnyRecentRowSplit(rows, trusts, dates, today);
    }
  }

  /** Some row matches a trust and had its last death recently. */
  predicate AnyRecentRow(rows: seq<seq<string>>, trusts: seq<string>, dates: seq<Date>, today: Date)
    requires Valid(today) && AllValid(dates)
  {
    exists k :: 0 <= k < |rows| && RecentMatch(rows[k], trusts, dates, today)
  }

  lemma AnyRecentRowSplit(rows: seq<seq<string>>, trusts: seq<string>, dates: seq<Date>, today: Date)
    requires Valid(today) && AllValid(dates) && |rows| > 0
    ensures AnyRecentRow(rows, trusts, dates, today) <==>
      AnyRecentRow(rows[..|rows| - 1], trusts, dates, today) || RecentMatch(rows[|rows| - 1], trusts, dates, today)
  {
    var init := rows[..|rows| - 1];
    if k :| 0 <= k < |rows| && RecentMatch(rows[k], trusts, dates, today) {
      if k < |init| {
        assert init[k] == rows[k];
      }
    }
    if k :| 0 <= k < |init| && RecentMatch(init[k], trusts, dates, today) {
      assert init[k] == rows[k];
    }
  }

  /** A row with some matching trust whose last death is at most 7 days
      before today. */
  predicate RecentMatch(cells: seq<string>, trusts: seq<string>, dates: seq<Date>, today: Date)
    requires Valid(today) && AllValid(dates)
  {
    && |cells| > 4
    && |Matching(trusts, cells[4])| > 0
    && LastDeathDate(cells, dates).Ok?
    && DaysBetween(LastDeathDate(cells, dates).value, today) <= 7
  }

  lemma RecentRow(cells: seq<string>, trusts: seq<string>, dates: seq<Date>, today: Date)
    requires Valid(today) && AllValid(dates) && RowLines(cells, trusts, dates, today).Ok?
    ensures AnyRecent(RowLines(cells, trusts, dates, today).value) <==> RecentMatch(cells, trusts, dates, today)
  {
    var more := RowLines(cells, trusts, dates, today).value;
    RowLinesMeaning(cells, trusts, dates, today);
    if RecentMatch(cells, trusts, dates, today) {
      assert more[0].note.recent;
    }
  }

  lemma AnyRecentConcat(a: seq<TrustLine>, b: seq<TrustLine>)
    ensures AnyRecent(a + b) <==> AnyRecent(a) || AnyRecent(b)
  {
    if AnyRecent(a) {
      var k :| 0 <= k < |a| && a[k].note.recent;
      assert (a + b)[k] == a[k];
    }
    if AnyRecent(b) {
      var k :| 0 <= k < |b| && b[k].note.recent;
      assert (a + b)[|a| + k] == b[k];
    }
  }
}
