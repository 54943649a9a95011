/** `parse_salary`: a free-text salary is turned into an annual (min, max)
    pair of whole numbers. Amounts are exact reals; Python's `int()` on the
    non-negative annual amounts is `.Floor`. */
module Salary {
  import opened Wrappers
  import opened Text

  /** The result pair: `(None, None)` or two whole annual amounts. */
  datatype Range = Range(minAnnual: Option<int>, maxAnnual: Option<int>)

  const NoRange := Range(None, None)

  /** One match of `(\d+(?:\.\d+)?)\s*(k)?`: the digits before and after the
      decimal point, and whether the `k` group matched. */
  datatype Token = Token(whole: string, frac: string, thousand: bool)

  predicate WellFormed(t: Token)
  {
    t.whole != [] && AllDigits(t.whole) && AllDigits(t.frac)
  }

  /** The match of the number pattern that starts at position `i`, where `s`
      holds a digit, and the position just after it. */
  function Lex(s: string, i: nat): (r: (Token, nat))
    requires i < |s| && IsDigit(s[i])
    ensures WellFormed(r.0) && i < r.1 <= |s|
  {
    var n := DigitsEnd(s, i);
    var m := if n + 1 < |s| && s[n] == '.' && IsDigit(s[n + 1]) then DigitsEnd(s, n + 1) else n;
    var w := SpacesEnd(s, m);
    var k := w < |s| && s[w] == 'k';
    (Token(s[i..n], if m == n then "" else s[n + 1..m], k), if k then w + 1 else w)
  }

  /** `re.findall` of the number pattern from position `i` on, left to right,
      without overlap. Whitespace after a number is consumed by `\s*` whether
      or not a `k` follows; it cannot start a match, so this does not change
      what is found. */
  function Scan(s: string, i: nat): (ts: seq<Token>)
    requires i <= |s|
    ensures forall k :: 0 <= k < |ts| ==> WellFormed(ts[k])
    ensures ts == [] <==> !HasDigitFrom(s, i)
    decreases |s| - i
  {
    if i == |s| then []
    else if !IsDigit(s[i]) then
      assert HasDigitFrom(s, i) <==> HasDigitFrom(s, i + 1);
      Scan(s, i + 1)
    else
      var (t, j) := Lex(s, i);
      [t] + Scan(s, j)
  }

  /** `float(num_str)`, times 1000 when the `k` group matched. */
  function TokenValue(t: Token): (v: real)
    requires WellFormed(t)
    ensures v >= 0.0
  {
    var x := DigitsValue(t.whole) as real + FracValue(t.frac);
    if t.thousand then x * 1000.0 else x
  }

  function TokenValues(ts: seq<Token>): (vs: seq<real>)
    requires forall i :: 0 <= i < |ts| ==> WellFormed(ts[i])
    ensures |vs| == |ts|
    ensures forall i :: 0 <= i < |ts| ==> vs[i] == TokenValue(ts[i])
  {
    if ts == [] then [] else TokenValues(ts[..|ts| - 1]) + [TokenValue(ts[|ts| - 1])]
  }

  /** The text after `lower()` and `replace(',', '')`. */
  function Normalize(s: string): string
  {
    Without(LowerText(s), ',')
  }

  const HourlyMarkers: seq<string> := ["hour", "hr", "/h", "p.h"]
  const DailyMarkers: seq<string> := ["day", "daily", "/d", "p.d"]
  const WeeklyMarkers: seq<string> := ["week", "weekly", "/w"]
  const MonthlyMarkers: seq<string> := ["month", "monthly", "/m"]

  /** The pay period a text is read as. */
  datatype Period = Hourly | Daily | Weekly | Monthly | Annual

  /** The multiplier that turns an amount per period into an amount per year:
      40 * 52 working hours, 5 * 52 working days, 52 weeks, 12 months. */
  function Factor(p: Period): real
  {
    match p
    case Hourly => 2080.0
    case Daily => 260.0
    case Weekly => 52.0
    case Monthly => 12.0
    case Annual => 1.0
  }

  /** The period the keywords select, first match wins; `Annual` when none is
      present. */
  function KeywordPeriod(text: string): Period
  {
    if ContainsAny(text, HourlyMarkers) then Hourly
    else if ContainsAny(text, DailyMarkers) then Daily
    else if ContainsAny(text, WeeklyMarkers) then Weekly
    else if ContainsAny(text, MonthlyMarkers) then Monthly
    else Annual
  }

  predicate AllBelow200(vs: seq<real>)
  {
    forall i :: 0 <= i < |vs| ==> vs[i] < 200.0
  }

  /** The period after the heuristic that bare small numbers are hourly rates. */
  function ChosenPeriod(text: string, vs: seq<real>): Period
  {
    if KeywordPeriod(text) == Annual && AllBelow200(vs) then Hourly else KeywordPeriod(text)
  }

  /** `v * multiplier`, written per period so that every product has a
      constant factor. */
  function Annualize(v: real, p: Period): real
  {
    match p
    case Hourly => v * 2080.0
    case Daily => v * 260.0
    case Weekly => v * 52.0
    case Monthly => v * 12.0
    case Annual => v
  }

  lemma AnnualizeIsProduct(v: real, p: Period)
    ensures Annualize(v, p) == v * Factor(p)
  {
  }

  /** `[v * multiplier for v in values]`. */
  function Scale(vs: seq<real>, p: Period): (ws: seq<real>)
    ensures |ws| == |vs|
    ensures forall i :: 0 <= i < |vs| ==> ws[i] == Annualize(vs[i], p)
  {
    if vs == [] then [] else [Annualize(vs[0], p)] + Scale(vs[1..], p)
  }

  function Min(vs: seq<real>): (m: real)
    requires vs != []
    ensures m in vs && forall i :: 0 <= i < |vs| ==> m <= vs[i]
  {
    if |vs| == 1 then vs[0]
    else
      var rest := Min(vs[1..]);
      assert forall i :: 1 <= i < |vs| ==> vs[i] == vs[1..][i - 1];
      if vs[0] <= rest then vs[0] else rest
  }

  function Max(vs: seq<real>): (m: real)
    requires vs != []
    ensures m in vs && forall i :: 0 <= i < |vs| ==> vs[i] <= m
  {
    if |vs| == 1 then vs[0]
    else
      var rest := Max(vs[1..]);
      assert forall i :: 1 <= i < |vs| ==> vs[i] == vs[1..][i - 1];
      if rest <= vs[0] then vs[0] else rest
  }

  /** What `parse_salary` returns: the smallest and the largest annualised
      amount, truncated to whole numbers. */
  function ParseSalarySpec(salaryText: Option<string>): Range
  {
    if salaryText.None? || salaryText.value == "" then NoRange
    else
      var text := Normalize(salaryText.value);
      var vs := TokenValues(Scan(text, 0));
      if vs == [] then NoRange
      else
        var annual := Scale(vs, ChosenPeriod(text, vs));
        Range(Some(Min(annual).Floor), Some(Max(annual).Floor))
  }

  predicate Sorted(s: seq<real>)
  {
    forall p, q :: 0 <= p < q < |s| ==> s[p] <= s[q]
  }

  /** `list.sort()` on the annual amounts: an insertion sort by adjacent swaps. */
  method SortInPlace(a: array<real>)
    modifies a
    ensures Sorted(a[..])
    ensures multiset(a[..]) == old(multiset(a[..]))
  {
    if a.Length == 0 {
      return;
    }
    var i := 1;
    while i < a.Length
      invariant 1 <= i <= a.Length
      invariant Sorted(a[..i])
      invariant multiset(a[..]) == old(multiset(a[..]))
    {
      InsertNext(a, i);
      i := i + 1;
    }
    assert a[..] == a[..i];
  }

  /** One pass of the insertion sort: the element at `i` moves left past the
      larger elements of the sorted prefix before it. */
  method InsertNext(a: array<real>, i: int)
    requires 1 <= i < a.Length && Sorted(a[..i])
    modifies a
    ensures Sorted(a[..i + 1])
    ensures multiset(a[..]) == old(multiset(a[..]))
  {
    var j := i;
    while j > 0 && a[j - 1] > a[j]
      invariant 0 <= j <= i
      invariant forall p, q :: 0 <= p < q <= i && p != j && q != j ==> a[p] <= a[q]
      invariant forall q :: j < q <= i ==> a[j] <= a[q]
      invariant multiset(a[..]) == old(multiset(a[..]))
    {
      ghost var before := a[..];
      a[j - 1], a[j] := a[j], a[j - 1];
      assert a[..] == before[j - 1 := before[j]][j := before[j - 1]];
      j := j - 1;
    }
  }

  /** The first and last elements of a sorted permutation are the minimum and
      the maximum. */
  lemma SortedEnds(s: seq<real>, t: seq<real>)
    requires Sorted(s) && multiset(s) == multiset(t) && t != []
    ensures |s| == |t| && s[0] == Min(t) && s[|s| - 1] == Max(t)
  {
    assert |s| == |multiset(s)| == |multiset(t)| == |t|;
    assert Min(t) in multiset(s) && Max(t) in multiset(s);
    assert s[0] in multiset(t) && s[|s| - 1] in multiset(t);
  }

  /** `parse_salary`, step by step as the source does it. */
  method ParseSalary(salaryText: Option<string>) returns (r: Range)
    ensures r == ParseSalarySpec(salaryText)
  {
    if salaryText.None? || salaryText.value == "" {
      return NoRange;
    }
    var text := Normalize(salaryText.value);
    var matches := Scan(text, 0);
    if matches == [] {
      return NoRange;
    }
    // `float(num_str)` cannot fail on a match of the number pattern, so the
    // `except ValueError` branch and the later `if not values` are dead.
    var values: seq<real> := [];
    var i := 0;
    while i < |matches|
      invariant 0 <= i <= |matches|
      invariant values == TokenValues(matches[..i])
    {
      assert matches[..i + 1][..i] == matches[..i];
      values := values + [TokenValue(matches[i])];
      i := i + 1;
    }
    assert matches[..i] == matches;
    r := AnnualRange(text, values);
  }

  /** The second half of `parse_salary`: choose the multiplier, annualise,
      sort, and take the first and the last amount. */
  method AnnualRange(text: string, values: seq<real>) returns (r: Range)
    requires values != []
    ensures var annual := Scale(values, ChosenPeriod(text, values));
      r == Range(Some(Min(annual).Floor), Some(Max(annual).Floor))
  {
    var multiplier := Multiplier(text, values);
    ghost var period := ChosenPeriod(text, values);
    var annual := new real[|values|](k requires 0 <= k < |values| => values[k] * multiplier);
    forall k | 0 <= k < |values|
      ensures annual[k] == Scale(values, period)[k]
    {
      AnnualizeIsProduct(values[k], period);
    }
    assert annual[..] == Scale(values, period);
    SortInPlace(annual);
    SortedEnds(annual[..], Scale(values, period));
    // The length is at least one here, so the source's final
    // `return None, None` cannot be reached.
    if annual.Length >= 2 {
      r := Range(Some(annual[0].Floor), Some(annual[annual.Length - 1].Floor));
    } else {
      var val := annual[0].Floor;
      r := Range(Some(val), Some(val));
    }
  }

  /** The multiplier: the first keyword list that matches, then the fallback
      that bare small numbers are hourly rates. */
  method Multiplier(text: string, values: seq<real>) returns (multiplier: real)
    ensures multiplier == Factor(ChosenPeriod(text, values))
  {
    multiplier := 1.0;
    if ContainsAny(text, HourlyMarkers) {
      multiplier := 2080.0;  // 40 * 52
    } else if ContainsAny(text, DailyMarkers) {
      multiplier := 260.0;   // 5 * 52
    } else if ContainsAny(text, WeeklyMarkers) {
      multiplier := 52.0;
    } else if ContainsAny(text, MonthlyMarkers) {
      multiplier := 12.0;
    }
    if multiplier == 1.0 {
      if forall k :: 0 <= k < |values| ==> values[k] < 200.0 {
        multiplier := 2080.0;
      }
    }
  }

  /** Lower-casing and removing commas keep exactly the digits of the text. */
  lemma NormalizeKeepsDigits(s: string)
    ensures HasDigit(Normalize(s)) <==> HasDigit(s)
  {
    var l := LowerText(s);
    var t := Normalize(s);
    if HasDigit(s) {
      var i :| 0 <= i < |s| && IsDigit(s[i]);
      assert l[i] == s[i] && s[i] in l;
      assert s[i] in t;
      var j :| 0 <= j < |t| && t[j] == s[i];
    }
    if HasDigit(t) {
      var j :| 0 <= j < |t| && IsDigit(t[j]);
      assert t[j] in l;
      var i :| 0 <= i < |l| && l[i] == t[j];
      assert IsDigit(s[i]);
    }
  }

  /** The result is `(None, None)` exactly when the text holds no digit, the
      missing and the empty text included. */
  lemma NoDigitIffNoRange(s: string)
    ensures ParseSalarySpec(Some(s)) == NoRange <==> !HasDigit(s)
    ensures ParseSalarySpec(None) == NoRange
  {
    NormalizeKeepsDigits(s);
  }

  /** Every annual amount is non-negative. */
  lemma ScaleNonNeg(vs: seq<real>, p: Period)
    requires forall i :: 0 <= i < |vs| ==> vs[i] >= 0.0
    ensures forall i :: 0 <= i < |vs| ==> Scale(vs, p)[i] >= 0.0
  {
  }

  /** The result is `(None, None)` or a pair of non-negative whole numbers with
      the minimum not above the maximum. */
  lemma RangeOrdered(salaryText: Option<string>)
    ensures var r := ParseSalarySpec(salaryText);
      (r.minAnnual.None? && r.maxAnnual.None?) ||
      (r.minAnnual.Some? && r.maxAnnual.Some? && 0 <= r.minAnnual.value <= r.maxAnnual.value)
  {
    if salaryText.Some? && salaryText.value != "" {
      var text := Normalize(salaryText.value);
      var vs := TokenValues(Scan(text, 0));
      if vs != [] {
        var annual := Scale(vs, ChosenPeriod(text, vs));
        ScaleNonNeg(vs, ChosenPeriod(text, vs));
        var hi :| 0 <= hi < |annual| && annual[hi] == Max(annual);
        assert 0.0 <= Min(annual) <= Max(annual);
      }
    }
  }

  lemma SingletonExtremes(vs: seq<real>, p: Period)
    requires |vs| == 1
    ensures Min(Scale(vs, p)) == Annualize(vs[0], p) == Max(Scale(vs, p))
  {
    assert Scale(vs, p) == [Annualize(vs[0], p)];
  }

  /** A single number in the text gives the same value as minimum and maximum:
      that number, annualised and truncated. */
  lemma SingleAmount(s: string)
    requires |Scan(Normalize(s), 0)| == 1
    ensures var text := Normalize(s);
      var v := TokenValue(Scan(text, 0)[0]);
      var f := Annualize(v, ChosenPeriod(text, [v])).Floor;
      ParseSalarySpec(Some(s)) == Range(Some(f), Some(f))
  {
    var text := Normalize(s);
    var v := TokenValue(Scan(text, 0)[0]);
    var vs := TokenValues(Scan(text, 0));
    assert vs == [v];
    SingletonExtremes(vs, ChosenPeriod(text, vs));
  }

  lemma {:induction false} WithoutThenLower(s: string)
    ensures Normalize(Without(s, ',')) == Normalize(s)
  {
    if s != [] {
      WithoutThenLower(s[1..]);
      assert LowerText(s) == [Lower(s[0])] + LowerText(s[1..]);
      if s[0] != ',' {
        var t := Without(s[1..], ',');
        assert Without(s, ',') == [s[0]] + t;
        assert LowerText([s[0]] + t) == [Lower(s[0])] + LowerText(t);
      }
    }
  }

  /** Thousands separators make no difference: "100,000" reads as "100000". */
  lemma CommasIgnored(s: string)
    ensures ParseSalarySpec(Some(s)) == ParseSalarySpec(Some(Without(s, ',')))
  {
    WithoutThenLower(s);
    if Without(s, ',') == "" {
      assert Normalize(s) == Normalize("") == "";
    }
  }
}
