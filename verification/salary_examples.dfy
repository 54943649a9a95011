/** The salary cases listed in `test_utils.py`, worked out on the model.
    Each case is split into small facts about the literal text (where the
    scanner finds a number, what the number is worth, which keyword applies)
    that are then put together. */
module SalaryExamples {
  import opened Wrappers
  import opened Text
  import opened Salary

  lemma NormalizeIdentity(s: string)
    requires forall i :: 0 <= i < |s| ==> !('A' <= s[i] <= 'Z') && s[i] != ','
    ensures Normalize(s) == s
  {
    assert LowerText(s) == s;
    WithoutAbsent(s, ',');
  }

  /** Without any of the letters every period keyword contains, the text is
      read as annual. */
  lemma NoKeyword(s: string)
    requires 'h' !in s && 'd' !in s && 'w' !in s && 'm' !in s
    ensures KeywordPeriod(s) == Annual
  {
    ContainsAnyNeedsChar(s, HourlyMarkers, 'h');
    ContainsAnyNeedsChar(s, DailyMarkers, 'd');
    ContainsAnyNeedsChar(s, WeeklyMarkers, 'w');
    ContainsAnyNeedsChar(s, MonthlyMarkers, 'm');
  }

  /** A text with one number: the pair is that number, annualised. */
  lemma OneAmount(s: string, t: Token, v: real, p: Period, f: int)
    requires WellFormed(t) && Scan(Normalize(s), 0) == [t] && TokenValue(t) == v
    requires ChosenPeriod(Normalize(s), [v]) == p && Annualize(v, p).Floor == f
    ensures ParseSalarySpec(Some(s)) == Range(Some(f), Some(f))
  {
    SingleAmount(s);
  }

  /** The pair for a non-empty text whose numbers have the values `vs`. */
  lemma RangeOfValues(s: string, vs: seq<real>)
    requires s != "" && vs != []
    requires forall k :: 0 <= k < |Scan(Normalize(s), 0)| ==> WellFormed(Scan(Normalize(s), 0)[k])
    requires TokenValues(Scan(Normalize(s), 0)) == vs
    ensures var annual := Scale(vs, ChosenPeriod(Normalize(s), vs));
      ParseSalarySpec(Some(s)) == Range(Some(Min(annual).Floor), Some(Max(annual).Floor))
  {
  }

  lemma TwoValues(t: Token, u: Token)
    requires WellFormed(t) && WellFormed(u)
    ensures TokenValues([t, u]) == [TokenValue(t), TokenValue(u)]
  {
    assert [t, u][..1] == [t];
  }

  lemma OrderedPair(a: real, b: real)
    requires a <= b && 200.0 <= b
    ensures !AllBelow200([a, b])
    ensures Min(Scale([a, b], Annual)) == a && Max(Scale([a, b], Annual)) == b
  {
    assert [a, b][1] == b;
    assert Scale([a, b], Annual) == [a, b];
    assert [a, b][1..] == [b];
  }

  /** A text with two numbers, the smaller first, and no keyword: the pair is
      the two numbers themselves. */
  lemma TwoAmounts(s: string, t: Token, u: Token, a: real, b: real)
    requires s != "" && WellFormed(t) && WellFormed(u) && Scan(Normalize(s), 0) == [t, u]
    requires TokenValue(t) == a && TokenValue(u) == b
    requires a <= b && 200.0 <= b && KeywordPeriod(Normalize(s)) == Annual
    ensures ParseSalarySpec(Some(s)) == Range(Some(a.Floor), Some(b.Floor))
  {
    TwoValues(t, u);
    RangeOfValues(s, [a, b]);
    OrderedPair(a, b);
  }

  // "$100k - $120k"

  lemma Lex100k()
    ensures Lex("$100k - $120k", 1) == (Token("100", "", true), 5)
  {
    DigitsEndAt("$100k - $120k", 1, 4);
    SpacesEndAt("$100k - $120k", 4, 4);
    assert "$100k - $120k"[1..4] == "100";
  }

  lemma Lex120k()
    ensures Lex("$100k - $120k", 9) == (Token("120", "", true), 13)
  {
    DigitsEndAt("$100k - $120k", 9, 12);
    SpacesEndAt("$100k - $120k", 12, 12);
    assert "$100k - $120k"[9..12] == "120";
  }

  lemma Scan100kTo120k(s: string)
    requires s == "$100k - $120k"
    ensures Scan(s, 0) == [Token("100", "", true), Token("120", "", true)]
  {
    Lex100k();
    Lex120k();
  }

  lemma Digits100()
    ensures DigitsValue("100") == 100
  {
    assert "100"[..2] == "10";
    assert "10"[..1] == "1";
  }

  lemma Value100k(t: Token)
    requires t == Token("100", "", true)
    ensures WellFormed(t) && TokenValue(t) == 100000.0
  {
    Digits100();
  }

  lemma Digits120()
    ensures DigitsValue("120") == 120
  {
    assert "120"[..2] == "12";
    assert "12"[..1] == "1";
  }

  lemma Value120k(t: Token)
    requires t == Token("120", "", true)
    ensures WellFormed(t) && TokenValue(t) == 120000.0
  {
    Digits120();
  }

  lemma NoKeyword100kTo120k(s: string)
    requires s == "$100k - $120k"
    ensures KeywordPeriod(s) == Annual
  {
    NoKeyword(s);
  }

  lemma Facts100kTo120k(s: string, t: Token, u: Token)
    requires s == "$100k - $120k"
    requires t == Token("100", "", true) && u == Token("120", "", true)
    ensures Scan(Normalize(s), 0) == [t, u]
    ensures KeywordPeriod(Normalize(s)) == Annual
  {
    NormalizeIdentity(s);
    Scan100kTo120k(s);
    NoKeyword100kTo120k(s);
  }

  /** "$100k - $120k" gives (100000, 120000). */
  lemma ThousandsSuffix(s: string)
    requires s == "$100k - $120k"
    ensures ParseSalarySpec(Some(s)) == Range(Some(100000), Some(120000))
  {
    var t, u := Token("100", "", true), Token("120", "", true);
    Facts100kTo120k(s, t, u);
    Value100k(t);
    Value120k(u);
    TwoAmounts(s, t, u, 100000.0, 120000.0);
  }

  // "100,000 - 120,000"

  lemma DropFirstSeparator(s: string)
    requires s == "100,000 - 120,000"
    ensures Without(s, ',') == s[..3] + Without(s[4..], ',')
  {
    assert s == s[..3] + [','] + s[4..];
    WithoutSkip(s[..3], s[4..], ',');
  }

  lemma DropSecondSeparator(s: string)
    requires s == "100,000 - 120,000"
    ensures Without(s[4..], ',') == s[4..13] + s[14..]
  {
    var r := s[4..];
    assert r == r[..9] + [','] + r[10..];
    WithoutSkip(r[..9], r[10..], ',');
    WithoutAbsent(r[10..], ',');
    assert r[..9] == s[4..13] && r[10..] == s[14..];
  }

  lemma JoinedPieces(s: string)
    requires s == "100,000 - 120,000"
    ensures s[..3] + s[4..13] + s[14..] == "100000 - 120000"
  {
  }

  lemma DropSeparators(s: string)
    requires s == "100,000 - 120,000"
    ensures Without(s, ',') == "100000 - 120000"
  {
    DropFirstSeparator(s);
    DropSecondSeparator(s);
    JoinedPieces(s);
  }

  lemma Lex100000()
    ensures Lex("100000 - 120000", 0) == (Token("100000", "", false), 7)
  {
    DigitsEndAt("100000 - 120000", 0, 6);
    SpacesEndAt("100000 - 120000", 6, 7);
    assert "100000 - 120000"[0..6] == "100000";
  }

  lemma Lex120000()
    ensures Lex("100000 - 120000", 9) == (Token("120000", "", false), 15)
  {
    DigitsEndAt("100000 - 120000", 9, 15);
    SpacesEndAt("100000 - 120000", 15, 15);
    assert "100000 - 120000"[9..15] == "120000";
  }

  lemma Scan100000To120000(s: string)
    requires s == "100000 - 120000"
    ensures Scan(s, 0) == [Token("100000", "", false), Token("120000", "", false)]
  {
    Lex100000();
    Lex120000();
  }

  lemma Digits100000()
    ensures DigitsValue("100000") == 100000
  {
    assert "100000"[..5] == "10000";
    assert "10000"[..4] == "1000";
    assert "1000"[..3] == "100";
    assert "100"[..2] == "10";
    assert "10"[..1] == "1";
  }

  lemma Value100000(t: Token)
    requires t == Token("100000", "", false)
    ensures WellFormed(t) && TokenValue(t) == 100000.0
  {
    Digits100000();
  }

  lemma Digits120000()
    ensures DigitsValue("120000") == 120000
  {
    assert "120000"[..5] == "12000";
    assert "12000"[..4] == "1200";
    assert "1200"[..3] == "120";
    assert "120"[..2] == "12";
    assert "12"[..1] == "1";
  }

  lemma Value120000(t: Token)
    requires t == Token("120000", "", false)
    ensures WellFormed(t) && TokenValue(t) == 120000.0
  {
    Digits120000();
  }

  lemma NoKeyword100000To120000(s: string)
    requires s == "100000 - 120000"
    ensures KeywordPeriod(s) == Annual
  {
    NoKeyword(s);
  }

  lemma Facts100000To120000(s: string, t: Token, u: Token)
    requires s == "100000 - 120000"
    requires t == Token("100000", "", false) && u == Token("120000", "", false)
    ensures Scan(Normalize(s), 0) == [t, u]
    ensures KeywordPeriod(Normalize(s)) == Annual
  {
    NormalizeIdentity(s);
    Scan100000To120000(s);
    NoKeyword100000To120000(s);
  }

  lemma PlainHundredThousands(s: string)
    requires s == "100000 - 120000"
    ensures ParseSalarySpec(Some(s)) == Range(Some(100000), Some(120000))
  {
    var t, u := Token("100000", "", false), Token("120000", "", false);
    Facts100000To120000(s, t, u);
    Value100000(t);
    Value120000(u);
    TwoAmounts(s, t, u, 100000.0, 120000.0);
  }

  /** "100,000 - 120,000" gives (100000, 120000): the commas are dropped. */
  lemma ThousandsSeparators(s: string)
    requires s == "100,000 - 120,000"
    ensures ParseSalarySpec(Some(s)) == Range(Some(100000), Some(120000))
  {
    CommasIgnored(s);
    DropSeparators(s);
    PlainHundredThousands("100000 - 120000");
  }

  // "$50 per hour"

  lemma LexPerHour()
    ensures Lex("$50 per hour", 1) == (Token("50", "", false), 4)
  {
    DigitsEndAt("$50 per hour", 1, 3);
    SpacesEndAt("$50 per hour", 3, 4);
    assert "$50 per hour"[1..3] == "50";
  }

  lemma NoDigitAfterPerHour()
    ensures Scan("$50 per hour", 4) == []
  {
  }

  lemma ScanPerHour(s: string)
    requires s == "$50 per hour"
    ensures Scan(s, 0) == [Token("50", "", false)]
  {
    LexPerHour();
    NoDigitAfterPerHour();
  }

  lemma Digits50()
    ensures DigitsValue("50") == 50
  {
    assert "50"[..1] == "5";
  }

  lemma Value50(t: Token)
    requires t == Token("50", "", false)
    ensures WellFormed(t) && TokenValue(t) == 50.0
  {
    Digits50();
  }

  lemma HourKeyword(s: string)
    requires s == "$50 per hour"
    ensures KeywordPeriod(s) == Hourly
  {
    assert s[8..12] == "hour";
    ContainsAt(s, "hour", 8);
  }

  lemma FactsPerHour(s: string, t: Token)
    requires s == "$50 per hour"
    requires t == Token("50", "", false)
    ensures Scan(Normalize(s), 0) == [t]
    ensures KeywordPeriod(Normalize(s)) == Hourly
  {
    NormalizeIdentity(s);
    ScanPerHour(s);
    HourKeyword(s);
  }

  /** "$50 per hour" gives (104000, 104000): 50 * 2080. */
  lemma PerHour(s: string)
    requires s == "$50 per hour"
    ensures ParseSalarySpec(Some(s)) == Range(Some(104000), Some(104000))
  {
    var t := Token("50", "", false);
    FactsPerHour(s, t);
    Value50(t);
    OneAmount(s, t, 50.0, Hourly, 104000);
  }

  // "$800 per day"

  lemma LexPerDay()
    ensures Lex("$800 per day", 1) == (Token("800", "", false), 5)
  {
    DigitsEndAt("$800 per day", 1, 4);
    SpacesEndAt("$800 per day", 4, 5);
    assert "$800 per day"[1..4] == "800";
  }

  lemma NoDigitAfterPerDay()
    ensures Scan("$800 per day", 5) == []
  {
  }

  lemma ScanPerDay(s: string)
    requires s == "$800 per day"
    ensures Scan(s, 0) == [Token("800", "", false)]
  {
    LexPerDay();
    NoDigitAfterPerDay();
  }

  lemma Digits800()
    ensures DigitsValue("800") == 800
  {
    assert "800"[..2] == "80";
    assert "80"[..1] == "8";
  }

  lemma Value800(t: Token)
    requires t == Token("800", "", false)
    ensures WellFormed(t) && TokenValue(t) == 800.0
  {
    Digits800();
  }

  lemma DayKeyword(s: string)
    requires s == "$800 per day"
    ensures KeywordPeriod(s) == Daily
  {
    ContainsAnyNeedsChar(s, HourlyMarkers, 'h');
    assert s[9..12] == "day";
    ContainsAt(s, "day", 9);
  }

  lemma FactsPerDay(s: string, t: Token)
    requires s == "$800 per day"
    requires t == Token("800", "", false)
    ensures Scan(Normalize(s), 0) == [t]
    ensures KeywordPeriod(Normalize(s)) == Daily
  {
    NormalizeIdentity(s);
    ScanPerDay(s);
    DayKeyword(s);
  }

  /** "$800 per day" gives (208000, 208000): 800 * 260. */
  lemma PerDay(s: string)
    requires s == "$800 per day"
    ensures ParseSalarySpec(Some(s)) == Range(Some(208000), Some(208000))
  {
    var t := Token("800", "", false);
    FactsPerDay(s, t);
    Value800(t);
    OneAmount(s, t, 800.0, Daily, 208000);
  }

  // "80k + super"

  lemma LexSuper()
    ensures Lex("80k + super", 0) == (Token("80", "", true), 3)
  {
    DigitsEndAt("80k + super", 0, 2);
    SpacesEndAt("80k + super", 2, 2);
    assert "80k + super"[0..2] == "80";
  }

  lemma NoDigitAfterSuper()
    ensures Scan("80k + super", 3) == []
  {
  }

  lemma ScanSuper(s: string)
    requires s == "80k + super"
    ensures Scan(s, 0) == [Token("80", "", true)]
  {
    LexSuper();
    NoDigitAfterSuper();
  }

  lemma Digits80()
    ensures DigitsValue("80") == 80
  {
    assert "80"[..1] == "8";
  }

  lemma Value80k(t: Token)
    requires t == Token("80", "", true)
    ensures WellFormed(t) && TokenValue(t) == 80000.0
  {
    Digits80();
  }

  lemma NoKeywordSuper(s: string)
    requires s == "80k + super"
    ensures KeywordPeriod(s) == Annual
  {
    NoKeyword(s);
  }

  lemma FactsSuper(s: string, t: Token)
    requires s == "80k + super"
    requires t == Token("80", "", true)
    ensures Scan(Normalize(s), 0) == [t]
    ensures KeywordPeriod(Normalize(s)) == Annual
  {
    NormalizeIdentity(s);
    ScanSuper(s);
    NoKeywordSuper(s);
  }

  /** "80k + super" gives (80000, 80000): the words after the number are
      ignored. */
  lemma PlusSuper(s: string)
    requires s == "80k + super"
    ensures ParseSalarySpec(Some(s)) == Range(Some(80000), Some(80000))
  {
    var t := Token("80", "", true);
    FactsSuper(s, t);
    Value80k(t);
    assert !AllBelow200([80000.0]) by { assert [80000.0][0] == 80000.0; }
    OneAmount(s, t, 80000.0, Annual, 80000);
  }

  // "Some text"

  /** "Some text" gives (None, None). */
  lemma NoNumber(s: string)
    requires s == "Some text"
    ensures ParseSalarySpec(Some(s)) == NoRange
  {
    assert !HasDigit(s);
    NoDigitIffNoRange(s);
  }

  // "$100000"

  lemma LexPlain()
    ensures Lex("$100000", 1) == (Token("100000", "", false), 7)
  {
    DigitsEndAt("$100000", 1, 7);
    SpacesEndAt("$100000", 7, 7);
    assert "$100000"[1..7] == "100000";
  }

  lemma ScanPlain(s: string)
    requires s == "$100000"
    ensures Scan(s, 0) == [Token("100000", "", false)]
  {
    LexPlain();
  }

  lemma NoKeywordPlain(s: string)
    requires s == "$100000"
    ensures KeywordPeriod(s) == Annual
  {
    NoKeyword(s);
  }

  lemma FactsPlain(s: string, t: Token)
    requires s == "$100000"
    requires t == Token("100000", "", false)
    ensures Scan(Normalize(s), 0) == [t]
    ensures KeywordPeriod(Normalize(s)) == Annual
  {
    NormalizeIdentity(s);
    ScanPlain(s);
    NoKeywordPlain(s);
  }

  /** "$100000" gives (100000, 100000). */
  lemma PlainAmount(s: string)
    requires s == "$100000"
    ensures ParseSalarySpec(Some(s)) == Range(Some(100000), Some(100000))
  {
    var t := Token("100000", "", false);
    FactsPlain(s, t);
    Value100000(t);
    assert !AllBelow200([100000.0]) by { assert [100000.0][0] == 100000.0; }
    OneAmount(s, t, 100000.0, Annual, 100000);
  }

  // "$30.50/hr"

  lemma LexDecimalRate()
    ensures Lex("$30.50/hr", 1) == (Token("30", "50", false), 6)
  {
    DigitsEndAt("$30.50/hr", 1, 3);
    DigitsEndAt("$30.50/hr", 4, 6);
    SpacesEndAt("$30.50/hr", 6, 6);
    assert "$30.50/hr"[1..3] == "30";
    assert "$30.50/hr"[4..6] == "50";
  }

  lemma ScanDecimalRate(s: string)
    requires s == "$30.50/hr"
    ensures Scan(s, 0) == [Token("30", "50", false)]
  {
    LexDecimalRate();
  }

  lemma Digits30()
    ensures DigitsValue("30") == 30
  {
    assert "30"[..1] == "3";
  }

  lemma Value30Point50(t: Token)
    requires t == Token("30", "50", false)
    ensures WellFormed(t) && TokenValue(t) == 30.5
  {
    Digits30();
    assert "50"[1..] == "0";
    assert "0"[1..] == "";
  }

  lemma HrKeyword(s: string)
    requires s == "$30.50/hr"
    ensures KeywordPeriod(s) == Hourly
  {
    assert s[7..9] == "hr";
    ContainsAt(s, "hr", 7);
    assert HourlyMarkers[1..][0] == "hr";
    assert ContainsAny(s, HourlyMarkers[1..]);
  }

  lemma FactsDecimalRate(s: string, t: Token)
    requires s == "$30.50/hr"
    requires t == Token("30", "50", false)
    ensures Scan(Normalize(s), 0) == [t]
    ensures KeywordPeriod(Normalize(s)) == Hourly
  {
    NormalizeIdentity(s);
    ScanDecimalRate(s);
    HrKeyword(s);
  }

  /** "$30.50/hr" gives (63440, 63440): 30.5 * 2080. */
  lemma DecimalRate(s: string)
    requires s == "$30.50/hr"
    ensures ParseSalarySpec(Some(s)) == Range(Some(63440), Some(63440))
  {
    var t := Token("30", "50", false);
    FactsDecimalRate(s, t);
    Value30Point50(t);
    OneAmount(s, t, 30.5, Hourly, 63440);
  }

  // "45"

  lemma ScanBare(s: string)
    requires s == "45"
    ensures Scan(s, 0) == [Token("45", "", false)]
  {
    assert Lex("45", 0) == (Token("45", "", false), 2) by {
      assert "45"[0..2] == "45";
    }
  }

  lemma NoKeywordBare(s: string)
    requires s == "45"
    ensures KeywordPeriod(s) == Annual
  {
    NoKeyword(s);
  }

  lemma Digits45()
    ensures DigitsValue("45") == 45
  {
    assert "45"[..1] == "4";
  }

  lemma Value45(t: Token)
    requires t == Token("45", "", false)
    ensures WellFormed(t) && TokenValue(t) == 45.0
  {
    Digits45();
  }

  lemma FactsBare(s: string, t: Token)
    requires s == "45"
    requires t == Token("45", "", false)
    ensures Scan(Normalize(s), 0) == [t]
    ensures KeywordPeriod(Normalize(s)) == Annual
  {
    NormalizeIdentity(s);
    ScanBare(s);
    NoKeywordBare(s);
  }

  /** A bare small number is read as an hourly rate: "45" gives
      (93600, 93600), 45 * 2080. */
  lemma BareSmallNumber(s: string)
    requires s == "45"
    ensures ParseSalarySpec(Some(s)) == Range(Some(93600), Some(93600))
  {
    var t := Token("45", "", false);
    FactsBare(s, t);
    Value45(t);
    assert AllBelow200([45.0]);
    OneAmount(s, t, 45.0, Hourly, 93600);
  }
}
