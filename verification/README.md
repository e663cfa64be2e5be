# COVID-19 update scripts: the time-series engine

This project models the data-processing core of three scripts that turn
downloaded COVID-19 spreadsheets into dated CSV reports:

- **Pillar 1** (`pillar1_covid_update.py`). It picks the rows of the
  configured local areas out of the case file. That file lists each area
  newest first, so each area's rows are put back into date order. For every
  row it estimates the number of infectious cases: the cumulative count
  minus the count of the latest row at least `InfectiousPeriod` days
  earlier. It logs the trend of that estimate (Decreasing, Potentially
  increasing, Increasing, against a variation of 5). It raises the
  attention flag when some area ends on an increase.
- **Pillar 2** (`pillar2_covid_update.py`). It filters the testing file
  (by pillar prefix and non-empty daily count) and the death file (by a
  numeric cumulative column) into dated rows. On or after 1 July 2020 it
  moves the testing positives from the new columns and shifts the
  cumulative positives by 30301. It computes each row's rolling total: the
  difference to the latest row at least `RollingPeriod` days earlier,
  carried over when there is none. It writes one line per row and, for
  deaths, logs the trend and sets the attention flag.
- **NHS trust deaths** (`nhs_trust_deaths.py`). It flattens the configured
  trust names and reads the header row's specimen dates. For each data row
  whose trust name starts with a configured trust, it writes the row's
  totals. It then reports the date of the trust's last death, and raises
  the attention flag when that date is a week or less before today.

The scripts' Python exceptions are modelled as values. Every operation that
can fail returns a `Result`, and its `Fault` names the exception the script
would raise: `IndexError`, `ValueError` from `int()` or `date()`,
`KeyError`, `AttributeError`, `UnboundLocalError`, `NameError` or
`ZeroDivisionError`. None of
these is caught, so the first one ends the run. Today's date is a
parameter. The download, the configuration parsing and the files written
are represented by the lines and values they carry.

Modules:

- `wrappers.dfy`: `Option`, `Result`, `Fault`.
- `text.dfy`: `split`, `join`, `rstrip`, `int()`, `str()` and `isdigit()`
  on strings.
- `calendar.dfy`: proleptic Gregorian dates, day differences, ISO output.
- `date_formats.dfy`: the three date readers (`12-Jun-20`, `20/06/2020`,
  `2020-06-20`) and their round trips.
- `report_helpers.dfy`: the helpers the scripts share; each script carries
  its own copy of them, and they are defined once here.
- `window.dfy`: the scan-back window behind both `Rolling` and
  `Infectious`.
- `trend.dfy`: the trend classifier and the per-row messages.
- `pillar2.dfy`, `pillar1.dfy`, `trust_deaths.dfy`: the three scripts' main
  loops.

The loops in the scripts are methods with `while`/`for` loops. Each is
proved equal to a specification function, and the properties are proved
about that function.

Where the scripts' comments or evident intent and the code differ, the
model follows the code:

- **Row 0 is never scanned.** The window scan is `range(i, 0, -1)`, so row
  0 is never a window boundary (`Window.RowZeroNeverScanned`). A series
  that starts exactly one period before a row gets no boundary for that
  row.
- **Pillar 1 on a line matching two areas.** A line whose area name starts
  with two configured areas has its date converted twice. The second
  conversion calls `split` on a date object, which raises
  `AttributeError`.
- **Pillar 1 when the first area has no rows.** The final trend message of
  that area reads a date that was never assigned (`NameError`).
- **Trust deaths on an empty spreadsheet or configuration file.** An empty
  converted spreadsheet or an empty configuration file leaves its line list
  unassigned (`NameError`).
- **Pillar 2 testing on a zero daily count.** The line filter only asks for a
  non-empty daily count, so a kept row whose daily count is `0` raises
  `ZeroDivisionError` in the percentage, and a non-numeric one `ValueError`.
- **Pillar 2 on an empty testing series.** The final testing trend message
  reads a date no row has set (`NameError`).
- **Negative slice stops wrap.** The daily and total column slices use
  Python semantics, so a short row's negative stop wraps around.

## Model

| member | source | states |
|---|---|---|
| ReportHelpers.IsPresent | pillar1_covid_update.py:83-90 | an IndexError exactly when the column is missing; otherwise true iff the pattern is a prefix of the column |
| ReportHelpers.GenerateCSVRow | pillar1_covid_update.py:95-103 | the row built item by item is the comma-joined items with the trailing commas stripped |
| ReportHelpers.CsvRowIsJoin | pillar1_covid_update.py:99-101 | when the last item is non-empty and does not end in a comma, the row is exactly the items joined by commas |
| ReportHelpers.CsvRowDropsTrailingEmpty | pillar1_covid_update.py:99-101 | a trailing empty item leaves no trace in the written row |
| ReportHelpers.GenerateFieldList | pillar1_covid_update.py:107-114 | succeeds iff every key is in the dictionary (else KeyError); item k is the value of key k |
| ReportHelpers.ConfigurationDataTypeValid | pillar2_covid_update.py:118-127 | true iff the name is one of the keys |
| ReportHelpers.DateStamp | pillar1_covid_update.py:146-155 | eight digits that read back as today's year, month and day |
| ReportHelpers.ReturnFileName | pillar1_covid_update.py:142-157 | starts with base_type_ and is 14 characters longer than base and type |
| ReportHelpers.FileNameReadsBack | pillar1_covid_update.py:142-157 | the name ends in .csv and its date digits read back as today |
| ReportHelpers.FileNameExample | pillar1_covid_update.py:142-157 | 5 March 2020 gives pillar1_region_20200305.csv |
| ReportHelpers.ReturnOutputFileName | nhs_trust_deaths.py:119-134 | starts with base_ and is 13 characters longer than base |
| ReportHelpers.OutputFileNameReadsBack | nhs_trust_deaths.py:119-134 | the name ends in .csv and its date digits read back as today |
| ReportHelpers.GetDecimalPart | pillar1_covid_update.py:161-169 | for a text not starting with '.', exactly the text up to its first '.' (or all of it); "0" for an empty text or one starting with '.'; never holds a '.' |
| ReportHelpers.GetDecimalPartIdempotent | pillar1_covid_update.py:161-169 | cutting the decimal part twice changes nothing more |
| ReportHelpers.ReturnTierType | pillar1_covid_update.py:129-138 | utla... is upper, ltla... is lower, anything else is unchanged |
| ReportHelpers.ReturnTierTypeIdempotent | pillar1_covid_update.py:129-138 | the shortened names are not shortened again |
| Text.ParseInt | pillar1_covid_update.py:353 | int() succeeds iff the text is digits with an optional sign |
| Text.ParseIntToString | pillar1_covid_update.py:353-354 | int(str(n)) is n |
| Text.Split | pillar1_covid_update.py:280 | at least one piece, no piece holds the separator, the pieces join back to the text |
| Text.SplitJoin | pillar1_covid_update.py:280 | splitting separator-free pieces joined by the separator gives the pieces back |
| Text.RStrip | pillar1_covid_update.py:101 | a prefix of the text, not ending in the character, with only that character removed |
| Text.NatToString | pillar1_covid_update.py:147-149 | decimal digits that read back as the number, with no leading zero |
| Calendar.MakeDate | pillar1_covid_update.py:126 | date(year, month, day) succeeds iff the date is valid; otherwise ValueError |
| Calendar.BeforeIffSmallerDayNumber | pillar2_covid_update.py:417 | date comparison agrees with day-number comparison, both ways |
| Calendar.DaysInMonth | pillar1_covid_update.py:126 | every month has 28 to 31 days |
| DateFormats.MonthName | nhs_trust_deaths.py:219 | the month table maps each month's name back to its number |
| DateFormats.ParseDayMonYear | nhs_trust_deaths.py:166-178 | IndexError iff fewer than three fields; ValueError iff the year or day field is not a number; then KeyError for an unknown month name, else a date iff date() accepts the fields; a parsed date's day, month and year are int(DD), the month table's number and int('20' + YY) |
| DateFormats.ExtendedYear | nhs_trust_deaths.py:171-172 | '20' + yy read as a number lies in 20, 200-209, 2000-2099 or beyond 9999 |
| DateFormats.DayMonYearRoundTrip | nhs_trust_deaths.py:166-178 | every 21st-century date written as dd-Mon-yy parses back to itself |
| DateFormats.ParseSlashDate | pillar2_covid_update.py:182-194 | a parsed date is valid |
| DateFormats.SlashDateRoundTrip | pillar2_covid_update.py:182-194 | every date written as dd/mm/yyyy parses back to itself |
| DateFormats.DefectiveDateFallback | pillar2_covid_update.py:187 | any text starting with "the" reads as 20 June 2020 |
| DateFormats.ParseIsoDate | pillar1_covid_update.py:117-126 | a parsed date is valid |
| DateFormats.IsoDateRoundTrip | pillar1_covid_update.py:117-126 | every date written in ISO form parses back to itself |
| Window.ScanBack | pillar1_covid_update.py:345-350 | a boundary lies between 1 and the start of the scan |
| Window.ScanBackMeaning | pillar1_covid_update.py:345-350 | the boundary is the highest index at least a period back; none is found iff no index in 1..j is |
| Window.FindBoundary | pillar1_covid_update.py:345-350 | the loop with its break finds the boundary the scan defines |
| Window.RollingSeries | pillar2_covid_update.py:482-490 | one rolling value per row, each the row's Rolling after the inner loop |
| Window.InfectiousSeries | pillar1_covid_update.py:342-354 | one infectious value per row, each the cumulative count minus the recovered count |
| Window.InfectiousWithoutBoundary | pillar1_covid_update.py:342-353 | with no boundary, Infectious is the whole cumulative count while Rolling keeps its previous value |
| Window.BoundaryPersists | pillar1_covid_update.py:345-350 | in a chronological series, once a row has a boundary every later row has one at or after it |
| Window.RollingFreshWhenChronological | pillar2_covid_update.py:482-490 | in a chronological series, Rolling is the difference to the boundary, or 0 when there is none |
| Window.RollingNonNegative | pillar2_covid_update.py:486 | with non-decreasing counters, Rolling is never negative |
| Window.InfectiousWithinCumulative | pillar1_covid_update.py:349-353 | with non-decreasing counters, Infectious lies between 0 and the cumulative count |
| Window.RowZeroNeverScanned | pillar1_covid_update.py:345 | a series whose only earlier row far enough back is row 0 gets no boundary |
| Trend.Classify | pillar1_covid_update.py:331-334 | Increasing iff the increase reaches the variation; Potentially increasing iff it is positive but below; Decreasing otherwise |
| Trend.RowMessage | pillar1_covid_update.py:330-339 | a message is logged at row i iff the value two rows back is non-zero, classifying the last change |
| Trend.FinalTrend | pillar1_covid_update.py:362-367 | Increasing iff the last value minus the one before reaches the variation |
| Trend.LoggedAt | pillar1_covid_update.py:329-336 | the message at row i reports that trend for row i-1's date |
| Pillar2.TestingLine | pillar2_covid_update.py:396-425 | a kept testing line has the pillar prefix, a non-empty daily count and a valid date; a testing line never stops the scan |
| Pillar2.TestingLineKeeps | pillar2_covid_update.py:396-425 | a line of the pillar with a daily count and a readable date is kept: as it is before the change date, with the changed cells on or after it when column 12 is numeric and column 13 a number |
| Pillar2.TestingLineFaults | pillar2_covid_update.py:396-425 | IndexError for a missing column 3, 6, 12 or 13 where it is read; the date's own fault; ValueError when column 13 is not a number |
| Pillar2.NonNumericPositiveSkipped | pillar2_covid_update.py:419-422 | on or after the change date, a line whose column 12 is not numeric is skipped |
| Pillar2.KeptTestingCells | pillar2_covid_update.py:410-425 | a kept row is dated by column 0 and holds the line's cells, changed as below on or after the change date |
| Pillar2.ChangedCellsColumns | pillar2_covid_update.py:418-425 | the change leaves every column but 10 and 11 alone; column 10 is column 12 and column 11 reads as column 13 plus 30301 |
| Pillar2.OtherPillarSkipped | pillar2_covid_update.py:401 | a line for another pillar is skipped |
| Pillar2.EmptyDailySkipped | pillar2_covid_update.py:402 | a line with an empty daily count is skipped |
| Pillar2.DeathLine | pillar2_covid_update.py:405-410 | a death line is skipped iff column 2 is not all digits; a kept row holds the cells and the parsed date |
| Pillar2.LineOutcomeOf | pillar2_covid_update.py:393-425 | the scan stops exactly at an empty line; kept rows meet their series' filter |
| Pillar2.Ingest | pillar2_covid_update.py:390-429 | at most one row per line, every row meeting its series' filter |
| Pillar2.IngestSeries | pillar2_covid_update.py:382-429 | an empty download fails on pop(0); otherwise the lines after the header are ingested and the count is the number of rows |
| Pillar2.ScanLines | pillar2_covid_update.py:390-429 | the scanning loop returns exactly the scan of the lines, and its count is the number of rows kept |
| Pillar2.IngestStopsAtEmptyLine | pillar2_covid_update.py:393 | nothing after the first empty line changes the result |
| Pillar2.IngestConcat | pillar2_covid_update.py:390-429 | ingesting two blocks is ingesting the first, then the second, stopping at the first fault |
| Pillar2.DeathSamples | pillar2_covid_update.py:481-486 | one sample per row, with the row's date and its cumulative deaths |
| Pillar2.DeathOutputReadsBack | pillar2_covid_update.py:466-524 | the written death line splits back into its fields, and its date and rolling value read back |
| Pillar2.WriteDeathRow | pillar2_covid_update.py:521-524 | the written line is the death output fields as a CSV row |
| Pillar2.LogTrend | pillar2_covid_update.py:471-479 | a message is logged iff the previous rolling value is non-zero, classifying the change for the held date |
| Pillar2.ProcessDeathSeries | pillar2_covid_update.py:459-536 | IndexError iff a row is too short; otherwise one line and message per row, the final trend, and attention iff it is Increasing |
| Pillar2.TestingSamples | pillar2_covid_update.py:504-509 | one sample per row, with the row's date |
| Pillar2.TestingSampleCounter | pillar2_covid_update.py:509 | a sample's counter is the row's cumulative positives |
| Pillar2.CumulativePositiveRoundTrip | pillar2_covid_update.py:513 | on or after the change date, the cumulative positives written are exactly the line's column 13 |
| Pillar2.WriteTestingRow | pillar2_covid_update.py:513-524 | the written line is the testing output fields as a CSV row |
| Pillar2.PercentageFault | pillar2_covid_update.py:517 | no fault iff columns 10 and 6 are numbers and column 6 is not 0; ZeroDivisionError iff column 10 is a number and column 6 reads as 0; ValueError otherwise |
| Pillar2.ZeroDailyFails | pillar2_covid_update.py:517 | a kept row with a daily count of "0" raises ZeroDivisionError |
| Pillar2.ReadTestingRow | pillar2_covid_update.py:504-517 | the row's fault is the one the loop raises, the percentage's included; otherwise the new rolling value and the emitted cumulative positives |
| Pillar2.RunTestingLoop | pillar2_covid_update.py:464-524 | either every row is processed, or it stops at the first row that raises |
| Pillar2.ProcessTestingSeries | pillar2_covid_update.py:459-545 | NameError on an empty series; otherwise succeeds iff no row raises, else the first row's fault; one line per row with its rolling value |
| Pillar2.FirstTestingFault | pillar2_covid_update.py:464-513 | a fault at a row whose predecessors are clean makes the series fail |
| Pillar2.TestingSeriesComplete | pillar2_covid_update.py:464-524 | a finished loop has met no fault and written every row's line |
| Pillar1.MatchingAreasMeaning | pillar1_covid_update.py:282-283 | an area matches iff it is configured and the line's area name starts with it |
| Pillar1.ReadAreaRow | pillar1_covid_update.py:289-293 | fails iff column 5 is missing or the date does not parse; columns 4 and 5 lose their decimal part, the rest is unchanged |
| Pillar1.MatchOutcome | pillar1_covid_update.py:282-296 | a taken row is tagged with a configured area (its full meaning is the next row) |
| Pillar1.MatchOutcomeMeaning | pillar1_covid_update.py:282-296 | nothing iff no area matches; the row, tagged with the one matching area, iff exactly one matches and the row reads; otherwise the row's fault, or AttributeError at a second match |
| Pillar1.TakeLine | pillar1_covid_update.py:282-296 | the area loop over one line gives the outcome the matching defines |
| Pillar1.AreaLineOutcome | pillar1_covid_update.py:278-296 | extraction ends exactly at an empty line; a taken row belongs to a configured area and has a valid date |
| Pillar1.AreaLineOutcomeMeaning | pillar1_covid_update.py:278-296 | a row is taken iff the tier matches, exactly one area matches and the row reads; a line passes iff the tier differs or no area matches; it raises iff the type column is missing, or the tier matches with a second match or an unreadable row: IndexError, the row's fault or AttributeError |
| Pillar1.Extract | pillar1_covid_update.py:275-296 | at most one row per line, every row tagged with a configured area and dated |
| Pillar1.ExtractLine | pillar1_covid_update.py:278-296 | the processing of one line gives the outcome the matching defines |
| Pillar1.RowsForTaken | pillar1_covid_update.py:296 | an area's rows are exactly the rows taken for it |
| Pillar1.AreaRowsOf | pillar1_covid_update.py:296 | an area's rows are dated, and they are exactly the rows taken for it |
| Pillar1.ReversedAt | pillar1_covid_update.py:295-296 | front insertion puts the k-th newest row at position k from the end |
| Pillar1.ReversedSameElements | pillar1_covid_update.py:295-296 | reversal keeps exactly the same rows |
| Pillar1.ReversedTwice | pillar1_covid_update.py:295-296 | reversing twice gives the rows back |
| Pillar1.ExtractionStart | pillar1_covid_update.py:266-272 | every configured area starts with no rows and a count of 0 |
| Pillar1.TakeStep | pillar1_covid_update.py:285-296 | inserting a row at the front of its area's list and counting it keeps the extraction state |
| Pillar1.ScanLine | pillar1_covid_update.py:275-296 | one line either raises the fault extraction defines or keeps the extraction state |
| Pillar1.ExtractAreas | pillar1_covid_update.py:266-296 | succeeds iff extraction does, with the same fault; each configured area holds exactly its taken rows in reverse file order, and its count is their number |
| Pillar1.ReversedIsChronological | pillar1_covid_update.py:295-296 | a newest-first list, reversed, is in date order |
| Pillar1.AreaSamples | pillar1_covid_update.py:344-349 | one sample per row, with the row's date |
| Pillar1.AreaSampleCounter | pillar1_covid_update.py:349 | a sample's counter is the row's cumulative count |
| Pillar1.FirstAreaFaultMeaning | pillar1_covid_update.py:324-353 | no fault iff no row raises; otherwise the fault of the first row that raises |
| Pillar1.WriteAreaRow | pillar1_covid_update.py:326-359 | the written line is the area output fields as a CSV row |
| Pillar1.ReadAreaRowCounts | pillar1_covid_update.py:341-354 | the row's fault is the one the loop raises; otherwise its infectious estimate |
| Pillar1.LogInfectiousTrend | pillar1_covid_update.py:330-336 | a message is logged iff the previous estimate is non-zero, classifying the change for the held date |
| Pillar1.AreaRowStep | pillar1_covid_update.py:324-359 | one row either raises its fault or extends the area's lines and messages |
| Pillar1.ProcessArea | pillar1_covid_update.py:320-367 | succeeds iff no row raises, else the first fault; lines, messages and final trend as the window defines; the held date is the last row's |
| Pillar1.AreaFaultAt | pillar1_covid_update.py:324-353 | the area's fault is that of its first row that raises |
| Pillar1.AreaCompletes | pillar1_covid_update.py:324-367 | a finished loop has met no fault and gives the report the window defines |
| Pillar1.ProcessAreas | pillar1_covid_update.py:318-369 | NameError when the first area is empty; otherwise the first area's fault, or one report per area with attention iff some area ends Increasing |
| Pillar1.AreasDoneExtend | pillar1_covid_update.py:318-369 | adding a clean area's report keeps the reports and the flag in step |
| Pillar1.AreaFaultIsFirst | pillar1_covid_update.py:318-353 | a fault met after clean areas is the first area fault |
| Pillar1.FirstOccurrences | pillar1_covid_update.py:267-268 | the dictionary's keys: each configured area once, in first-occurrence order |
| Pillar1.ProcessTakenAreas | pillar1_covid_update.py:318-369 | the processing loop's outcome over the rows the scan took for each area: succeeds iff the first area has rows (or there is none) and no area's rows raise, NameError when the first area is empty, else the first faulty area's fault; on success one report per area meeting its rows, attention iff some configured area ends Increasing |
| Pillar1.UpdateAreas | pillar1_covid_update.py:266-369 | an extraction fault is passed through; after a successful extraction the update succeeds iff the first configured area has rows (or there is none) and no area's rows raise, fails with NameError when the first area has no rows, and otherwise raises the fault of the first area (in dictionary order) whose rows raise; on success one report per distinct area on its rows, attention iff some configured area ends Increasing |
| Pillar1.ExtractedData | pillar1_covid_update.py:266-296 | the extracted map holds each area's taken rows with valid dates |
| Pillar1.AttentionOverAreas | pillar1_covid_update.py:309-367 | the flag raised over the reports is the same as some configured area ending Increasing |
| TrustDeaths.FlattenTrusts | nhs_trust_deaths.py:258-262 | the nested loops build the trust list the configuration lines define |
| TrustDeaths.TrustListMeaning | nhs_trust_deaths.py:258-262 | the list holds exactly the comma-separated pieces of the lines, none holding a comma, at least one per line |
| TrustDeaths.TrustListConcat | nhs_trust_deaths.py:258-262 | the list of two blocks of lines is the first's list followed by the second's |
| TrustDeaths.MatchingCounts | nhs_trust_deaths.py:353-354 | each trust the name starts with matches once per occurrence in the list; others never |
| TrustDeaths.MatchingMembers | nhs_trust_deaths.py:353-354 | every match is a configured trust the name starts with |
| TrustDeaths.SliceIndex | nhs_trust_deaths.py:338 | a slice bound is clamped to the list, and a negative bound counts from the end |
| TrustDeaths.PySlice | nhs_trust_deaths.py:338 | the slice holds the items between the adjusted bounds, empty when they cross |
| TrustDeaths.DailyThenTotals | nhs_trust_deaths.py:338-341 | on a full row the daily columns run from 6 to 18 before the end, and the totals add the next four |
| TrustDeaths.ShortRowWraps | nhs_trust_deaths.py:356 | on a row of 13 to 17 cells the negative stop wraps and the daily slice is 2n - 24 cells long |
| TrustDeaths.NoDailyColumns | nhs_trust_deaths.py:356 | a row of 18 to 24 cells has no daily columns |
| TrustDeaths.LastDeathMeaning | nhs_trust_deaths.py:151-161 | ValueError iff some entry is not a number; UnboundLocalError iff none is positive; otherwise the last positive index |
| TrustDeaths.FindLastDeath | nhs_trust_deaths.py:151-161 | the loop returns what the last-death definition gives |
| TrustDeaths.ParseDates | nhs_trust_deaths.py:346-348 | one date per entry, each the entry parsed |
| TrustDeaths.ParseDatesSucceeds | nhs_trust_deaths.py:346-348 | the list parses iff every entry does |
| TrustDeaths.ReadSpecimenDates | nhs_trust_deaths.py:346-348 | the loop gives the parsed list, all valid dates |
| TrustDeaths.PrefixFaultPersists | nhs_trust_deaths.py:346-348 | a fault in a prefix is the fault of the whole list |
| TrustDeaths.LinesFor | nhs_trust_deaths.py:353-361 | one written line per match, each with the match's last-death note |
| TrustDeaths.LastDeathDate | nhs_trust_deaths.py:364 | the date is the header date at the last-death index |
| TrustDeaths.RowLinesMeaning | nhs_trust_deaths.py:351-369 | one line per matching trust, carrying the row's data line, and marked recent iff the last death is at most 7 days before today |
| TrustDeaths.ProcessTrustRow | nhs_trust_deaths.py:352-369 | the trust loop gives the row's lines, and the flag is raised iff it was or some line is recent |
| TrustDeaths.SplitRows | nhs_trust_deaths.py:318-321 | one row per line, each the line split on commas |
| TrustDeaths.TrustDeaths | nhs_trust_deaths.py:311-369 | an empty file is a NameError, a header without column 4 an IndexError, an unreadable daily header column that date's fault; on success the header's daily columns read as dates and the flag is raised iff some data row matches a configured trust and its last death is recent |
| TrustDeaths.RowLoopFails | nhs_trust_deaths.py:351-369 | a row that raises after clean rows makes the update fail with its fault |
| TrustDeaths.RowFaultPersists | nhs_trust_deaths.py:351-369 | a fault among the first rows is the fault of the whole file |
| TrustDeaths.UpdateTrustDeaths | nhs_trust_deaths.py:249-369 | NameError on an empty configuration file; otherwise the whole update gives what the report definition gives on the flattened trust list |
| TrustDeaths.AttentionMeaning | nhs_trust_deaths.py:351-369 | some written line is recent iff some row matches a trust and its last death is recent |
| TrustDeaths.RecentRow | nhs_trust_deaths.py:353-369 | a row's lines hold a recent one iff the row matches a trust and its last death is recent |
| TrustDeaths.AnyRecentConcat | nhs_trust_deaths.py:366-369 | the flag over two blocks of lines is the flag of either block |

## Left out

- Downloading (`requests.get`, `FindDownloadFile`), the spreadsheet conversion script, and opening the result in a spreadsheet: the model starts from the downloaded lines and ends with the report values.
- Log and file output (`File.Open`, `File.Writeline`, `File.Logerror`): the written lines and the logged trend messages are returned as values. Message texts, progress and count messages are not modelled. `File.Logerror` is taken to return, as the code that follows it assumes.
- The "good news" message of Pillar 1 (`Infectious == 0`): it is a log message only.
- The line terminator `'\n'` appended to each written line is not part of the modelled lines.
- Output written before an exception ends a run is not modelled: a failing run is its fault alone.
- Configuration file parsing (the split of the configuration line into page, tier, period and areas, and the per-type configuration lists of Pillar 2): the tier, areas, periods and variations are parameters.
- Pillar2.ProcessTestingSeries: the Percentage column is a float division rounded to two places. Its exceptions are modelled (`Pillar2.PercentageFault`), but its value is passed in as the text written, and the testing trend messages and testing attention flag built on it are not modelled.
- Pillar2.TestingSamples: int() of the cumulative positives is evaluated for every row up front, while the script evaluates it only when it is used. Any row where the two differ raises the same fault (`Pillar2.TestingRowFault`).
- Text.ParseInt: int() also accepts surrounding whitespace, underscores between digits and non-ASCII digits. These forms are not modelled.
- Text.IsDigits: `str.isdigit()` is modelled as ASCII digits only; Python also accepts other Unicode digits (superscripts, other scripts' digits). This guards the death filter and the cutover filter of Pillar 2.
- ReportHelpers.IsPresent: `re.match` is modelled as a literal prefix test. The configured tier, pillar and area strings hold no regular-expression metacharacters.
- The current date (`date.today()`) is a parameter of the file-name functions and of the trust deaths update.
- ReportHelpers.DateStamp: requires a four-digit year. The scripts write a year below 1000 unpadded, which `date.today()` never gives.
- The Pillar 2 death Variation and both rolling periods are read with `int()` from the configuration. They are parameters here.
