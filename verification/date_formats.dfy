/** The three date encodings found in the downloaded data, each parsed into
    a Calendar.Date the way the scripts do it. */
module DateFormats {
  import opened Wrappers
  import opened Text
  import opened Calendar

  /** The 12-entry month-name table; a name outside it is a KeyError. */
  function MonthNumber(name: string): (r: Option<int>)
    ensures r.Some? ==> 1 <= r.value <= 12
  {
    if name == "Jan" then Some(1)
    else if name == "Feb" then Some(2)
    else if name == "Mar" then Some(3)
    else if name == "Apr" then Some(4)
    else if name == "May" then Some(5)
    else if name == "Jun" then Some(6)
    else if name == "Jul" then Some(7)
    else if name == "Aug" then Some(8)
    else if name == "Sep" then Some(9)
    else if name == "Oct" then Some(10)
    else if name == "Nov" then Some(11)
    else if name == "Dec" then Some(12)
    else None
  }

  /** The name the table gives each month number. */
  function MonthName(m: int): (name: string)
    requires 1 <= m <= 12
    ensures MonthNumber(name) == Some(m)
    ensures '-' !in name
  {
    ["Jan", "Feb", "Mar", "Apr", "May", "Jun", "Jul", "Aug", "Sep", "Oct", "Nov", "Dec"][m - 1]
  }

  /** "DD-Mon-YY": the day, the month name and the year's last digits, with
      the year read as int("20" + YY). The year is read first, then the day,
      then the month name; the first of them that fails raises. */
  function ParseDayMonYear(s: string): (r: Result<Date>)
    ensures r.Ok? ==> Valid(r.value)
    ensures r.Ok? ==> r.value.year == 20 || 200 <= r.value.year <= 209 || 2000 <= r.value.year <= 2099
    ensures var p := Split(s, '-');
      r.Ok? ==> && |p| >= 3
                && ParseInt(p[0]) == Some(r.value.day)
                && MonthNumber(p[1]) == Some(r.value.month)
                && ParseInt("20" + p[2]) == Some(r.value.year)
    ensures var p := Split(s, '-');
      |p| >= 3 && ParseInt("20" + p[2]).Some? && ParseInt(p[0]).Some? ==>
        && (MonthNumber(p[1]).None? ==> r == Err(UnknownMonth))
        && (MonthNumber(p[1]).Some? ==>
              (r.Ok? <==> Valid(Date(ParseInt("20" + p[2]).value, MonthNumber(p[1]).value, ParseInt(p[0]).value))))
    ensures var p := Split(s, '-');
      r.Err? && r.fault == NotANumber <==>
        |p| >= 3 && (ParseInt("20" + p[2]).None? || ParseInt(p[0]).None?)
    ensures r == Err(IndexOutOfRange) <==> |Split(s, '-')| < 3
  {
    var parts := Split(s, '-');
    if |parts| < 3 then Err(IndexOutOfRange)
    else
      match ParseInt("20" + parts[2])
      case None => Err(NotANumber)
      case Some(year) =>
        ExtendedYear(parts[2]);
        match ParseInt(parts[0])
        case None => Err(NotANumber)
        case Some(day) =>
          match MonthNumber(parts[1])
          case None => Err(UnknownMonth)
          case Some(month) => MakeDate(year, month, day)
  }

  /** The years int("20" + YY) can produce that date() accepts. */
  lemma ExtendedYear(yy: string)
    ensures ParseInt("20" + yy).Some? ==>
      var year := ParseInt("20" + yy).value;
      year == 20 || 200 <= year <= 209 || 2000 <= year <= 2099 || year > 9999
  {
    var s := "20" + yy;
    if ParseInt(s).Some? {
      assert s[0] == '2';
      assert IsDigits(s);
      assert s[2..] == yy;
      assert AllDigits(yy) by {
        forall i | 0 <= i < |yy| ensures IsDigit(yy[i]) {
          assert yy[i] == s[i + 2];
        }
      }
      assert DigitsValue("20") == 20 by {
        assert "20"[..1] == "2";
        assert "2"[..0] == "";
      }
      DigitsValueAppend("20", yy);
      DigitsValueBelowPower(yy);
      if |yy| >= 3 {
        Power10Grows(|yy|);
      }
    }
  }

  lemma {:induction false} DigitsValueBelowPower(s: string)
    requires AllDigits(s)
    ensures DigitsValue(s) < Power10(|s|)
  {
    if |s| > 0 {
      DigitsValueBelowPower(s[..|s| - 1]);
    }
  }

  lemma {:induction false} Power10Grows(n: nat)
    requires n >= 3
    ensures Power10(n) >= 1000
  {
    if n > 3 {
      Power10Grows(n - 1);
    }
  }

  /** "DD/MM/YYYY". Any text starting with "the" is the known defect in the
      testing series and stands for 20/06/2020. */
  function ParseSlashDate(s: string): (r: Result<Date>)
    ensures r.Ok? ==> Valid(r.value)
  {
    ParseSlashFields(if StartsWith(s, "the") then "20/06/2020" else s)
  }

  /** The day, month and year fields of "DD/MM/YYYY", read from the right. */
  function ParseSlashFields(text: string): (r: Result<Date>)
    ensures r.Ok? ==> Valid(r.value)
  {
    var parts := Split(text, '/');
    if |parts| < 3 then Err(IndexOutOfRange)
    else
      match ParseInt(parts[2])
      case None => Err(NotANumber)
      case Some(year) =>
        match ParseInt(parts[1])
        case None => Err(NotANumber)
        case Some(month) =>
          match ParseInt(parts[0])
          case None => Err(NotANumber)
          case Some(day) => MakeDate(year, month, day)
  }

  /** "YYYY-MM-DD", read field by field from the left. */
  function ParseIsoDate(s: string): (r: Result<Date>)
    ensures r.Ok? ==> Valid(r.value)
  {
    var parts := Split(s, '-');
    match ParseInt(parts[0])
    case None => Err(NotANumber)
    case Some(year) =>
      if |parts| < 2 then Err(IndexOutOfRange)
      else
        match ParseInt(parts[1])
        case None => Err(NotANumber)
        case Some(month) =>
          if |parts| < 3 then Err(IndexOutOfRange)
          else
            match ParseInt(parts[2])
            case None => Err(NotANumber)
            case Some(day) => MakeDate(year, month, day)
  }

  /** A date written back as "DD-Mon-YY", for years 2000 to 2099. */
  function FormatDayMonYear(d: Date): string
    requires Valid(d) && 2000 <= d.year <= 2099
  {
    ZeroPad(NatToString(d.day), 2) + "-" + MonthName(d.month) + "-"
    + ZeroPad(NatToString(d.year - 2000), 2)
  }

  /** A date written back as "DD/MM/YYYY". */
  function FormatSlashDate(d: Date): string
    requires Valid(d)
  {
    ZeroPad(NatToString(d.day), 2) + "/" + ZeroPad(NatToString(d.month), 2) + "/"
    + ZeroPad(NatToString(d.year), 4)
  }

  lemma NoSeparatorInNumeral(s: string, sep: char)
    requires AllDigits(s) && !IsDigit(sep)
    ensures sep !in s
  {
  }

  /** Three pieces joined by a separator none of them holds split back into
      those pieces. */
  lemma SplitThree(a: string, b: string, c: string, sep: char)
    requires sep !in a && sep !in b && sep !in c
    ensures Split(a + [sep] + b + [sep] + c, sep) == [a, b, c]
  {
    var tail := b + [sep] + c;
    JoinedRegroups(a, b, c, sep);
    SplitTwo(b, c, sep);
    SplitAfterPiece(a, tail, sep);
    assert [a] + [b, c] == [a, b, c];
  }

  lemma JoinedRegroups(a: string, b: string, c: string, sep: char)
    ensures a + [sep] + b + [sep] + c == a + [sep] + (b + [sep] + c)
  {
  }

  lemma SplitTwo(b: string, c: string, sep: char)
    requires sep !in b && sep !in c
    ensures Split(b + [sep] + c, sep) == [b, c]
  {
    SplitNoSeparator(c, sep);
    SplitAfterPiece(b, c, sep);
  }

  /** Reading a "DD-Mon-YY" rendering of a date gives the date back. */
  lemma DayMonYearRoundTrip(d: Date)
    requires Valid(d) && 2000 <= d.year <= 2099
    ensures ParseDayMonYear(FormatDayMonYear(d)) == Ok(d)
  {
    var dd := ZeroPad(NatToString(d.day), 2);
    var yy := ZeroPad(NatToString(d.year - 2000), 2);
    NoSeparatorInNumeral(dd, '-');
    NoSeparatorInNumeral(yy, '-');
    assert FormatDayMonYear(d) == dd + "-" + MonthName(d.month) + "-" + yy;
    SplitThree(dd, MonthName(d.month), yy, '-');
    ParsePadded(d.day, 2);
    CenturyPrefix(d.year - 2000);
  }

  /** int("20" + YY) for a two-digit rendering of n below 100 is 2000 + n. */
  lemma CenturyPrefix(n: nat)
    requires n < 100
    ensures ParseInt("20" + ZeroPad(NatToString(n), 2)) == Some(2000 + n)
  {
    var yy := ZeroPad(NatToString(n), 2);
    ShortNumeral(n);
    assert DigitsValue("20") == 20 by {
      assert "20"[..1] == "2";
      assert "2"[..0] == "";
    }
    DigitsValueAppend("20", yy);
    assert IsDigit(("20" + yy)[0]);
  }

  /** Reading a "DD/MM/YYYY" rendering of a date gives the date back. */
  lemma SlashDateRoundTrip(d: Date)
    requires Valid(d)
    ensures ParseSlashDate(FormatSlashDate(d)) == Ok(d)
  {
    var dd := ZeroPad(NatToString(d.day), 2);
    var mm := ZeroPad(NatToString(d.month), 2);
    var yyyy := ZeroPad(NatToString(d.year), 4);
    var s := FormatSlashDate(d);
    assert IsDigit(s[0]);
    assert !StartsWith(s, "the");
    NoSeparatorInNumeral(dd, '/');
    NoSeparatorInNumeral(mm, '/');
    NoSeparatorInNumeral(yyyy, '/');
    SplitThree(dd, mm, yyyy, '/');
    ParsePadded(d.day, 2);
    ParsePadded(d.month, 2);
    ParsePadded(d.year, 4);
  }

  /** The known defect: every text starting with "the" reads as 20 June 2020. */
  lemma DefectiveDateFallback(s: string)
    requires StartsWith(s, "the")
    ensures ParseSlashDate(s) == Ok(Date(2020, 6, 20))
  {
    StandInDate("20", "06", "2020", "20/06/2020");
  }

  /** The stand-in text, taken apart at its separators, reads as 20 June
      2020. */
  lemma StandInDate(day: string, month: string, year: string, text: string)
    requires day == "20" && month == "06" && year == "2020"
    requires text == day + "/" + month + "/" + year
    ensures ParseSlashFields(text) == Ok(Date(2020, 6, 20))
  {
    NoSeparatorInNumeral(day, '/');
    NoSeparatorInNumeral(month, '/');
    NoSeparatorInNumeral(year, '/');
    SplitThree(day, month, year, '/');
    StandInNumerals();
  }

  lemma StandInNumerals()
    ensures ParseInt("20") == Some(20) && ParseInt("06") == Some(6) && ParseInt("2020") == Some(2020)
  {
    assert "20"[..1] == "2";
    assert "2"[..0] == "";
    assert "06"[..1] == "0";
    assert "0"[..0] == "";
    assert "2020"[..3] == "202";
    assert "202"[..2] == "20";
  }

  /** Reading str(date) with the YYYY-MM-DD parser gives the date back. */
  lemma IsoDateRoundTrip(d: Date)
    requires Valid(d)
    ensures ParseIsoDate(IsoFormat(d)) == Ok(d)
  {
    var yyyy := ZeroPad(NatToString(d.year), 4);
    var mm := ZeroPad(NatToString(d.month), 2);
    var dd := ZeroPad(NatToString(d.day), 2);
    NoSeparatorInNumeral(yyyy, '-');
    NoSeparatorInNumeral(mm, '-');
    NoSeparatorInNumeral(dd, '-');
    SplitThree(yyyy, mm, dd, '-');
    ParsePadded(d.year, 4);
    ParsePadded(d.month, 2);
    ParsePadded(d.day, 2);
  }
}
