/** `parse_date`: `datetime.strptime(date_str, "%Y-%m-%d").date()`, with every
    failure turned into `None`.

    `strptime` compiles the format into a regular expression, matches it at
    the start of the text, rejects any text left over after the match, and
    finally builds the date, which fails for a day the month does not have or
    for year 0. The directives compile to
      %Y  four digits
      %m  `1[0-2]|0[1-9]|[1-9]`
      %d  `3[01]|[12]\d|0[1-9]|[1-9]| [1-9]`
    whose alternatives are tried in that order, backtracking into the month
    when no day can follow it. */
module IsoDate {
  import opened Wrappers
  import opened Text

  datatype Date = Date(year: nat, month: nat, day: nat)

  predicate IsLeap(y: nat)
  {
    y % 4 == 0 && (y % 100 != 0 || y % 400 == 0)
  }

  function DaysInMonth(y: nat, m: nat): (n: nat)
    requires 1 <= m <= 12
    ensures 28 <= n <= 31
    ensures n == 29 <==> m == 2 && IsLeap(y)
  {
    if m == 2 then (if IsLeap(y) then 29 else 28)
    else if m == 4 || m == 6 || m == 9 || m == 11 then 30
    else 31
  }

  /** The dates `datetime.date` accepts. */
  predicate ValidDate(d: Date)
  {
    1 <= d.year <= 9999 && 1 <= d.month <= 12 && 1 <= d.day <= DaysInMonth(d.year, d.month)
  }

  function Digits2(a: char, b: char): nat
    requires IsDigit(a) && IsDigit(b)
  {
    10 * DigitValue(a) + DigitValue(b)
  }

  /** One way a directive can match: the number it reads and where it ends. */
  datatype Field = Field(value: nat, end: nat)

  /** The alternatives of `%m` that match at `i`, in the order they are tried. */
  function MonthAlternatives(s: string, i: nat): (fs: seq<Field>)
    ensures forall j :: 0 <= j < |fs| ==> 1 <= fs[j].value <= 12 && i < fs[j].end <= |s|
  {
    (if i + 1 < |s| && s[i] == '1' && '0' <= s[i + 1] <= '2'
     then [Field(10 + DigitValue(s[i + 1]), i + 2)] else []) +
    (if i + 1 < |s| && s[i] == '0' && '1' <= s[i + 1] <= '9'
     then [Field(DigitValue(s[i + 1]), i + 2)] else []) +
    (if i < |s| && '1' <= s[i] <= '9'
     then [Field(DigitValue(s[i]), i + 1)] else [])
  }

  /** The alternatives of `%d` that match at `i`, in the order they are tried. */
  function DayAlternatives(s: string, i: nat): (fs: seq<Field>)
    ensures forall j :: 0 <= j < |fs| ==> 1 <= fs[j].value <= 31 && i < fs[j].end <= |s|
  {
    (if i + 1 < |s| && s[i] == '3' && '0' <= s[i + 1] <= '1'
     then [Field(30 + DigitValue(s[i + 1]), i + 2)] else []) +
    (if i + 1 < |s| && '1' <= s[i] <= '2' && IsDigit(s[i + 1])
     then [Field(Digits2(s[i], s[i + 1]), i + 2)] else []) +
    (if i + 1 < |s| && s[i] == '0' && '1' <= s[i + 1] <= '9'
     then [Field(DigitValue(s[i + 1]), i + 2)] else []) +
    (if i < |s| && '1' <= s[i] <= '9'
     then [Field(DigitValue(s[i]), i + 1)] else []) +
    (if i + 1 < |s| && s[i] == ' ' && '1' <= s[i + 1] <= '9'
     then [Field(DigitValue(s[i + 1]), i + 2)] else [])
  }

  /** The first month alternative, in order, after which a '-' and a day
      match, with the first day alternative there: the path the regular
      expression engine settles on. */
  function MonthAndDay(s: string, months: seq<Field>): (r: Option<(Field, Field)>)
    ensures r.Some? ==> r.value.0 in months
    ensures r.Some? ==> r.value.0.end < |s| && s[r.value.0.end] == '-'
    ensures r.Some? ==> r.value.1 in DayAlternatives(s, r.value.0.end + 1)
    ensures r.None? ==> forall m :: m in months && m.end < |s| && s[m.end] == '-' ==>
      DayAlternatives(s, m.end + 1) == []
  {
    if months == [] then None
    else
      var m := months[0];
      if m.end < |s| && s[m.end] == '-' && DayAlternatives(s, m.end + 1) != []
      then Some((m, DayAlternatives(s, m.end + 1)[0]))
      else MonthAndDay(s, months[1..])
  }

  /** `re.match` of the compiled format: the fields read and where the match
      ends. */
  function MatchFormat(s: string): (r: Option<(Date, nat)>)
    ensures r.Some? ==> r.value.1 <= |s|
    ensures r.Some? ==> 1 <= r.value.0.month <= 12 && 1 <= r.value.0.day <= 31 && r.value.0.year <= 9999
    ensures r.Some? ==> 8 <= r.value.1 <= 10
  {
    if |s| < 5 || !(IsDigit(s[0]) && IsDigit(s[1]) && IsDigit(s[2]) && IsDigit(s[3])) || s[4] != '-'
    then None
    else
      var year := 100 * Digits2(s[0], s[1]) + Digits2(s[2], s[3]);
      match MonthAndDay(s, MonthAlternatives(s, 5))
      case None => None
      case Some((m, d)) => Some((Date(year, m.value, d.value), d.end))
  }

  /** What `parse_date` returns. */
  function ParseDate(dateStr: Option<string>): (r: Option<Date>)
    ensures r.Some? ==> ValidDate(r.value)
    ensures r.Some? ==> dateStr.Some? && 8 <= |dateStr.value| <= 10
  {
    if dateStr.None? || dateStr.value == "" then None
    else
      match MatchFormat(dateStr.value)
      case None => None
      case Some((d, end)) =>
        if end == |dateStr.value| && ValidDate(d) then Some(d) else None
  }

  /** `date.isoformat()`: zero-padded year, month and day. */
  function DigitChar(n: nat): (c: char)
    requires n < 10
    ensures IsDigit(c) && DigitValue(c) == n
  {
    ('0' as int + n) as char
  }

  function IsoFormat(d: Date): (s: string)
    requires ValidDate(d)
    ensures |s| == 10 && s[4] == '-' && s[7] == '-'
  {
    [DigitChar(d.year / 1000), DigitChar(d.year / 100 % 10), DigitChar(d.year / 10 % 10), DigitChar(d.year % 10),
     '-', DigitChar(d.month / 10), DigitChar(d.month % 10),
     '-', DigitChar(d.day / 10), DigitChar(d.day % 10)]
  }

  /** A missing or empty value gives `None`. */
  lemma EmptyIsNone()
    ensures ParseDate(None) == None && ParseDate(Some("")) == None
  {
  }

  /** Text of the exact shape `DDDD-DD-DD`. */
  predicate IsoShape(s: string)
  {
    |s| == 10 && s[4] == '-' && s[7] == '-' &&
    forall i :: 0 <= i < 10 && i != 4 && i != 7 ==> IsDigit(s[i])
  }

  /** In such text only the two-digit month can be followed by '-', and only
      when it names a month. */
  lemma MonthOfShape(s: string)
    requires IsoShape(s)
    ensures var m := Digits2(s[5], s[6]);
      1 <= m <= 12 ==> MonthAlternatives(s, 5) != [] && MonthAlternatives(s, 5)[0] == Field(m, 7)
    ensures forall f :: f in MonthAlternatives(s, 5) && f.end < |s| && s[f.end] == '-' ==>
      f == Field(Digits2(s[5], s[6]), 7)
  {
    assert IsDigit(s[5]) && IsDigit(s[6]);
  }

  /** In such text the first day alternative reads both digits exactly when
      they name a day from 1 to 31. */
  lemma DayOfShape(s: string)
    requires IsoShape(s)
    ensures var d := Digits2(s[8], s[9]);
      1 <= d <= 31 ==> DayAlternatives(s, 8) != [] && DayAlternatives(s, 8)[0] == Field(d, 10)
    ensures var d := Digits2(s[8], s[9]);
      !(1 <= d <= 31) ==> DayAlternatives(s, 8) == [] || DayAlternatives(s, 8)[0].end < 10
  {
    assert IsDigit(s[8]) && IsDigit(s[9]);
  }

  /** In such text the engine's path goes through the two-digit month, and
      through the two-digit day when both name a month and a day of 1 to 31. */
  lemma PathOfShape(s: string)
    requires IsoShape(s)
    ensures var r := MonthAndDay(s, MonthAlternatives(s, 5));
      r.Some? ==> r.value.0 == Field(Digits2(s[5], s[6]), 7)
    ensures var m, d := Digits2(s[5], s[6]), Digits2(s[8], s[9]);
      1 <= m <= 12 && 1 <= d <= 31 ==>
        MonthAndDay(s, MonthAlternatives(s, 5)) == Some((Field(m, 7), Field(d, 10)))
  {
    MonthOfShape(s);
    DayOfShape(s);
  }

  /** In such text the match reads the date the digits spell; it reaches the
      end whenever the month and the day are in range, and then only. */
  lemma MatchOfShape(s: string)
    requires IsoShape(s)
    ensures var d := Date(100 * Digits2(s[0], s[1]) + Digits2(s[2], s[3]), Digits2(s[5], s[6]), Digits2(s[8], s[9]));
      var r := MatchFormat(s);
      (r.Some? && r.value.1 == 10 ==> r.value.0 == d) &&
      (1 <= d.month <= 12 && 1 <= d.day <= 31 ==> r == Some((d, 10)))
  {
    PathOfShape(s);
    DayOfShape(s);
    assert IsDigit(s[0]) && IsDigit(s[1]) && IsDigit(s[2]) && IsDigit(s[3]);
  }

  /** Text of the exact shape `DDDD-DD-DD` parses to the date its digits
      spell when that date exists, and to `None` otherwise. */
  lemma IsoShaped(s: string)
    requires IsoShape(s)
    ensures var d := Date(100 * Digits2(s[0], s[1]) + Digits2(s[2], s[3]), Digits2(s[5], s[6]), Digits2(s[8], s[9]));
      ParseDate(Some(s)) == if ValidDate(d) then Some(d) else None
  {
    MatchOfShape(s);
  }

  /** The four digits `IsoFormat` writes for a year spell that year. */
  lemma YearDigits(y: nat)
    requires y < 10000
    ensures 100 * (10 * (y / 1000) + y / 100 % 10) + (10 * (y / 10 % 10) + y % 10) == y
  {
    var a, b := y / 100, y % 100;
    assert y == 100 * a + b;
    assert y / 1000 == a / 10 && y / 100 % 10 == a % 10;
    assert y / 10 % 10 == b / 10 && y % 10 == b % 10;
  }

  /** `IsoFormat` writes text of the `DDDD-DD-DD` shape spelling the date. */
  lemma FormatSpells(d: Date)
    requires ValidDate(d)
    ensures var s := IsoFormat(d);
      IsoShape(s) &&
      100 * Digits2(s[0], s[1]) + Digits2(s[2], s[3]) == d.year &&
      Digits2(s[5], s[6]) == d.month && Digits2(s[8], s[9]) == d.day
  {
    YearDigits(d.year);
  }

  /** `parse_date` reads back every date `date.isoformat()` writes. */
  lemma RoundTrip(d: Date)
    requires ValidDate(d)
    ensures ParseDate(Some(IsoFormat(d))) == Some(d)
  {
    var s := IsoFormat(d);
    FormatSpells(d);
    IsoShaped(s);
    assert Date(100 * Digits2(s[0], s[1]) + Digits2(s[2], s[3]), Digits2(s[5], s[6]), Digits2(s[8], s[9])) == d;
  }

  /** A string with a four-digit year and a '-' whose month and day
      directives settle on `m` and `d`, ending the string, gives that date
      when it is valid. */
  lemma ParsedAs(s: string, year: nat, m: Field, d: Field)
    requires |s| >= 5 && IsDigit(s[0]) && IsDigit(s[1]) && IsDigit(s[2]) && IsDigit(s[3]) && s[4] == '-'
    requires 100 * Digits2(s[0], s[1]) + Digits2(s[2], s[3]) == year
    requires MonthAndDay(s, MonthAlternatives(s, 5)) == Some((m, d)) && d.end == |s|
    requires ValidDate(Date(year, m.value, d.value))
    ensures ParseDate(Some(s)) == Some(Date(year, m.value, d.value))
  {
    assert MatchFormat(s) == Some((Date(year, m.value, d.value), d.end));
  }

  lemma YearOf2024(s: string)
    requires |s| >= 5 && s[..5] == "2024-"
    ensures IsDigit(s[0]) && IsDigit(s[1]) && IsDigit(s[2]) && IsDigit(s[3]) && s[4] == '-'
    ensures 100 * Digits2(s[0], s[1]) + Digits2(s[2], s[3]) == 2024
  {
    assert s[0] == '2' && s[1] == '0' && s[2] == '2' && s[3] == '4';
  }

  lemma FieldsOneDigit(s: string)
    requires s == "2024-1-5"
    ensures s[..5] == "2024-"
    ensures MonthAlternatives(s, 5) == [Field(1, 6)] && s[6] == '-'
    ensures DayAlternatives(s, 7) == [Field(5, 8)]
  {
  }

  /** Like `strptime`, the parser also takes one-digit months and days... */
  lemma OneDigitFields(s: string)
    requires s == "2024-1-5"
    ensures ParseDate(Some(s)) == Some(Date(2024, 1, 5))
  {
    FieldsOneDigit(s);
    YearOf2024(s);
    assert MonthAndDay(s, [Field(1, 6)]) == Some((Field(1, 6), Field(5, 8)));
    ParsedAs(s, 2024, Field(1, 6), Field(5, 8));
  }

  lemma FieldsSpacePadded(s: string)
    requires s == "2024-01- 5"
    ensures s[..5] == "2024-"
    ensures MonthAlternatives(s, 5) == [Field(1, 7)] && s[7] == '-'
    ensures DayAlternatives(s, 8) == [Field(5, 10)]
  {
  }

  /** ...and a day padded with a space. */
  lemma SpacePaddedDay(s: string)
    requires s == "2024-01- 5"
    ensures ParseDate(Some(s)) == Some(Date(2024, 1, 5))
  {
    FieldsSpacePadded(s);
    YearOf2024(s);
    assert MonthAndDay(s, [Field(1, 7)]) == Some((Field(1, 7), Field(5, 10)));
    ParsedAs(s, 2024, Field(1, 7), Field(5, 10));
  }

  /** A day the month does not have gives `None`... */
  lemma NoLeapDay(s: string)
    requires s == "2023-02-29"
    ensures ParseDate(Some(s)) == None
  {
    assert IsoShape(s);
    IsoShaped(s);
  }

  /** ...but 29 February is a date in a leap year. */
  lemma LeapDay(s: string)
    requires s == "2024-02-29"
    ensures ParseDate(Some(s)) == Some(Date(2024, 2, 29))
  {
    assert IsoShape(s);
    IsoShaped(s);
  }

  /** Text after the date, such as a time of day, gives `None`, and so does
      a day number the first day alternative reads only in part. */
  lemma LeftoverText(s: string, t: string)
    requires s == "2024-01-05T09:30" && t == "2024-01-311"
    ensures ParseDate(Some(s)) == None
    ensures ParseDate(Some(t)) == None
  {
  }

  /** Year 0 is not a date. */
  lemma YearZero(s: string)
    requires s == "0000-01-01"
    ensures ParseDate(Some(s)) == None
  {
    assert IsoShape(s);
    IsoShaped(s);
  }
}
