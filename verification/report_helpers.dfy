/** The small helpers the three scripts share (each script carries its own
    copy): the anchored pattern test on a column, CSV row and field-list
    assembly, the configuration key test, dated output file names, the
    decimal-part guard and the tier-name shortening. */
module ReportHelpers {
  import opened Wrappers
  import opened Text
  import opened Calendar

  /** IsPresent(string, index, list): does the pattern match at the start of
      the column? Reading a column the row does not have is an IndexError. */
  function IsPresent(pattern: string, index: nat, cells: seq<string>): (r: Result<bool>)
    ensures r.Err? <==> index >= |cells|
    ensures r.Ok? ==> (r.value <==> |pattern| <= |cells[index]| && cells[index][..|pattern|] == pattern)
  {
    if index < |cells| then Ok(StartsWith(cells[index], pattern)) else Err(IndexOutOfRange)
  }

  /** What GenerateCSVRow writes: the items joined by commas, then every
      trailing comma stripped. */
  function CsvRow(items: seq<string>): string {
    if |items| == 0 then "" else RStrip(Join(items, ','), ',')
  }

  /** GenerateCSVRow(list): append each item and a comma, then rstrip(','). */
  method GenerateCSVRow(items: seq<string>) returns (row: string)
    ensures row == CsvRow(items)
  {
    var acc := "";
    var i := 0;
    while i < |items|
      invariant 0 <= i <= |items|
      invariant i == 0 ==> acc == ""
      invariant i > 0 ==> acc == Join(items[..i], ',') + ","
    {
      if i > 0 {
        assert items[..i + 1] == items[..i] + [items[i]];
        JoinAppend(items[..i], items[i], ',');
      } else {
        assert items[..1] == [items[0]];
      }
      acc := acc + items[i] + ",";
      i := i + 1;
    }
    assert i > 0 ==> items[..i] == items;
    if i > 0 {
      StripAfterComma(Join(items, ','));
    }
    row := RStrip(acc, ',');
  }

  lemma StripAfterComma(s: string)
    ensures RStrip(s + ",", ',') == RStrip(s, ',')
  {
    assert (s + ",")[..|s + ","| - 1] == s;
  }

  /** A row whose last item is non-empty and does not end in a comma is the
      plain comma-joined items: nothing but the terminators is stripped. */
  lemma CsvRowIsJoin(items: seq<string>)
    requires |items| >= 1
    requires var last := items[|items| - 1]; |last| > 0 && last[|last| - 1] != ','
    ensures CsvRow(items) == Join(items, ',')
  {
    if |items| > 1 {
      JoinAppend(items[..|items| - 1], items[|items| - 1], ',');
      assert items[..|items| - 1] + [items[|items| - 1]] == items;
    }
  }

  /** Trailing empty fields vanish from the written row. */
  lemma CsvRowDropsTrailingEmpty(items: seq<string>)
    ensures CsvRow(items + [""]) == CsvRow(items)
  {
    if |items| == 0 {
      assert Join([""], ',') == "";
    } else {
      JoinAppend(items, "", ',');
      assert Join(items, ',') + [','] + "" == Join(items, ',') + ",";
      StripAfterComma(Join(items, ','));
    }
  }

  /** GenerateFieldList(keys, dictionary): the value of each key, in key
      order; a key the dictionary lacks is a KeyError. */
  method GenerateFieldList(keys: seq<string>, fields: map<string, string>) returns (r: Result<seq<string>>)
    ensures r.Ok? <==> forall k :: 0 <= k < |keys| ==> keys[k] in fields
    ensures r.Err? ==> r.fault == MissingKey
    ensures r.Ok? ==> |r.value| == |keys| && forall k :: 0 <= k < |keys| ==> r.value[k] == fields[keys[k]]
  {
    var list := [];
    var i := 0;
    while i < |keys|
      invariant 0 <= i <= |keys|
      invariant forall k :: 0 <= k < i ==> keys[k] in fields
      invariant |list| == i && forall k :: 0 <= k < i ==> list[k] == fields[keys[k]]
    {
      if keys[i] !in fields {
        return Err(MissingKey);
      }
      list := list + [fields[keys[i]]];
      i := i + 1;
    }
    r := Ok(list);
  }

  /** ConfigurationDataTypeValid(string, dictionary): is the string one of
      the dictionary's keys? */
  method ConfigurationDataTypeValid(name: string, keys: seq<string>) returns (valid: bool)
    ensures valid <==> name in keys
  {
    valid := false;
    for i := 0 to |keys|
      invariant valid <==> name in keys[..i]
    {
      assert keys[..i + 1] == keys[..i] + [keys[i]];
      if keys[i] == name {
        valid := true;
      }
    }
    assert keys[..|keys|] == keys;
  }

  /** The file-name padding: a one-character number gets a leading '0'. */
  function LeadingZero(s: string): string {
    if |s| == 1 then "0" + s else s
  }

  /** year + MM + DD as the file-name functions write today's date. */
  function DateStamp(today: Date): (r: string)
    requires Valid(today) && 1000 <= today.year
    ensures |r| == 8 && AllDigits(r)
    ensures DigitsValue(r[..4]) == today.year
    ensures DigitsValue(r[4..6]) == today.month
    ensures DigitsValue(r[6..]) == today.day
  {
    var y := NatToString(today.year);
    var m := LeadingZero(NatToString(today.month));
    var d := LeadingZero(NatToString(today.day));
    FourDigitYear(today.year);
    PaddedTwoDigits(today.month);
    PaddedTwoDigits(today.day);
    var r := y + m + d;
    assert r[..4] == y && r[4..6] == m && r[6..] == d;
    r
  }

  lemma FourDigitYear(y: nat)
    requires 1000 <= y <= 9999
    ensures |NatToString(y)| == 4
  {
    assert |NatToString(y / 1000)| == 1;
    assert |NatToString(y / 100)| == 2;
    assert |NatToString(y / 10)| == 3;
  }

  lemma PaddedTwoDigits(n: nat)
    requires 1 <= n <= 99
    ensures var s := LeadingZero(NatToString(n));
      |s| == 2 && AllDigits(s) && DigitsValue(s) == n
  {
    ShortNumeral(n);
    if n < 10 {
      DigitsValueAppend("0", NatToString(n));
    }
  }

  /** ReturnFileName(base, type): base_type_YYYYMMDD.csv for today. */
  function ReturnFileName(base: string, kind: string, today: Date): (name: string)
    requires Valid(today) && 1000 <= today.year
    ensures |name| == |base| + |kind| + 14
    ensures StartsWith(name, base + "_" + kind + "_")
  {
    base + "_" + kind + "_" + DateStamp(today) + ".csv"
  }

  /** ReturnOutputFileName(base): base_YYYYMMDD.csv for today. */
  function ReturnOutputFileName(base: string, today: Date): (name: string)
    requires Valid(today) && 1000 <= today.year
    ensures |name| == |base| + 13
    ensures StartsWith(name, base + "_")
  {
    base + "_" + DateStamp(today) + ".csv"
  }

  /** The eight characters before ".csv" read back as today's date. */
  lemma FileNameReadsBack(base: string, kind: string, today: Date)
    requires Valid(today) && 1000 <= today.year
    ensures var name := ReturnFileName(base, kind, today);
      && name[|name| - 4..] == ".csv"
      && DigitsValue(name[|name| - 12..|name| - 8]) == today.year
      && DigitsValue(name[|name| - 8..|name| - 6]) == today.month
      && DigitsValue(name[|name| - 6..|name| - 4]) == today.day
  {
    StampSlices(base + "_" + kind + "_", DateStamp(today));
  }

  /** The output file name ends in .csv, and the eight characters before it
      read back as today's date. */
  lemma OutputFileNameReadsBack(base: string, today: Date)
    requires Valid(today) && 1000 <= today.year
    ensures var name := ReturnOutputFileName(base, today);
      && name[|name| - 4..] == ".csv"
      && DigitsValue(name[|name| - 12..|name| - 8]) == today.year
      && DigitsValue(name[|name| - 8..|name| - 6]) == today.month
      && DigitsValue(name[|name| - 6..|name| - 4]) == today.day
  {
    StampSlices(base + "_", DateStamp(today));
  }

  /** Where the eight stamp characters sit in prefix + stamp + ".csv". */
  lemma StampSlices(prefix: string, stamp: string)
    requires |stamp| == 8
    ensures var name := prefix + stamp + ".csv";
      && name[|name| - 4..] == ".csv"
      && name[|name| - 12..|name| - 8] == stamp[..4]
      && name[|name| - 8..|name| - 6] == stamp[4..6]
      && name[|name| - 6..|name| - 4] == stamp[6..]
  {
    var name := prefix + stamp + ".csv";
    assert name[|name| - 12..|name| - 4] == stamp;
  }

  lemma FileNameExample()
    ensures ReturnFileName("pillar1", "region", Date(2020, 3, 5)) == "pillar1_region_20200305.csv"
  {
    assert NatToString(2020) == "2020" by {
      assert NatToString(2) == "2";
      assert NatToString(20) == "20";
      assert NatToString(202) == "202";
    }
  }

  /** GetDecimalPart(string): the text before the first '.', or "0" when
      that text is empty. */
  function GetDecimalPart(s: string): (r: string)
    ensures r != "" && '.' !in r
    ensures r == "0" || (StartsWith(s, r) && (|r| == |s| || s[|r|] == '.'))
    ensures (s == "" || s[0] == '.') ==> r == "0"
    ensures |s| > 0 && s[0] != '.' ==> StartsWith(s, r) && (|r| == |s| || s[|r|] == '.')
  {
    var part := Split(s, '.')[0];
    SplitHead(s, '.');
    if |part| == 0 then "0" else part
  }

  /** Stripping the decimal part twice changes nothing more. */
  lemma GetDecimalPartIdempotent(s: string)
    ensures GetDecimalPart(GetDecimalPart(s)) == GetDecimalPart(s)
  {
    SplitNoSeparator(GetDecimalPart(s), '.');
  }

  /** ReturnTierType(string): "utla..." is "upper", "ltla..." is "lower",
      anything else is returned unchanged. */
  function ReturnTierType(tier: string): (r: string)
    ensures StartsWith(tier, "utla") ==> r == "upper"
    ensures StartsWith(tier, "ltla") ==> r == "lower"
    ensures !StartsWith(tier, "utla") && !StartsWith(tier, "ltla") ==> r == tier
  {
    var result := if StartsWith(tier, "utla") then "upper" else tier;
    if StartsWith(tier, "ltla") then "lower" else result
  }

  /** The shortened names are not shortened again, so applying the
      shortening twice gives the same file-name part. */
  lemma ReturnTierTypeIdempotent(tier: string)
    ensures ReturnTierType(ReturnTierType(tier)) == ReturnTierType(tier)
  {
    assert !StartsWith("upper", "utla") && !StartsWith("upper", "ltla") by {
      assert "upper"[..4] == "uppe";
    }
    assert !StartsWith("lower", "utla") && !StartsWith("lower", "ltla") by {
      assert "lower"[..4] == "lowe";
    }
  }
}
