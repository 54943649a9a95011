/** `parse_posted_date`: a relative phrase such as "Posted 2 days ago" is
    turned into the calendar day it refers to.

    The clock is a parameter: `now` counts whole minutes from the earliest
    representable moment (0001-01-01 00:00), and a day is the number of whole
    days from that moment, `minutes / 1440`. Seconds can be left out: they
    never move a moment across a day boundary or below the earliest moment. */
module PostedDate {
  import opened Wrappers
  import opened Text

  const MinutesPerHour := 60
  const MinutesPerDay := 1440
  const MinutesPerWeek := 7 * 1440

  /** `(now - delta).date()`: the day `delta` minutes before `now`, or `None`
      when that moment lies before the earliest representable one (Python
      raises `OverflowError`, which the function swallows). */
  function Back(now: nat, delta: nat): (r: Option<nat>)
    ensures r.Some? <==> delta <= now
    ensures r.Some? ==> r.value * MinutesPerDay <= now - delta < (r.value + 1) * MinutesPerDay
  {
    if delta <= now then Some((now - delta) / MinutesPerDay) else None
  }

  /** Whether `(\d+)\s*([a-z]+)` matches starting at position `k`: a digit
      there, and a letter after the digit run and the whitespace that
      follows it. */
  predicate MatchesAt(s: string, k: nat)
  {
    k < |s| && IsDigit(s[k]) &&
    var w := SpacesEnd(s, DigitsEnd(s, k));
    w < |s| && IsLowerLetter(s[w])
  }

  /** `re.search`: the leftmost position from `i` on where the pattern
      matches. */
  function FirstMatch(s: string, i: nat): (r: Option<nat>)
    requires i <= |s|
    ensures r.None? ==> forall k :: i <= k < |s| ==> !MatchesAt(s, k)
    ensures r.Some? ==> i <= r.value < |s| && MatchesAt(s, r.value)
    ensures r.Some? ==> forall k :: i <= k < r.value ==> !MatchesAt(s, k)
    decreases |s| - i
  {
    if i == |s| then None
    else if MatchesAt(s, i) then Some(i)
    else FirstMatch(s, i + 1)
  }

  /** Conversely, a position where the pattern matches with no match before
      it is the one `re.search` finds. */
  lemma {:induction false} FirstMatchAt(s: string, i: nat, k: nat)
    requires i <= k < |s| && MatchesAt(s, k)
    requires forall j :: i <= j < k ==> !MatchesAt(s, j)
    ensures FirstMatch(s, i) == Some(k)
    decreases k - i
  {
    if i < k {
      FirstMatchAt(s, i + 1, k);
    }
  }

  /** Group 1 of the match at `k`: the whole digit run. */
  function NumberAt(s: string, k: nat): (d: string)
    requires MatchesAt(s, k)
    ensures d != [] && AllDigits(d)
  {
    s[k..DigitsEnd(s, k)]
  }

  /** Group 2 of the match at `k`: the whole run of letters after the
      whitespace. */
  function UnitAt(s: string, k: nat): (u: string)
    requires MatchesAt(s, k)
    ensures u != [] && forall j :: 0 <= j < |u| ==> IsLowerLetter(u[j])
  {
    var w := SpacesEnd(s, DigitsEnd(s, k));
    s[w..LettersEnd(s, w)]
  }

  /** The `timedelta`, in minutes, that a unit word and a count stand for;
      the unit is tested by substring, in the source's order. */
  function UnitDelta(unit: string, num: nat): nat
  {
    if 'h' in unit then num * MinutesPerHour
    else if 'd' in unit then num * MinutesPerDay
    else if 'm' in unit && !Contains(unit, "mon") then num
    else if 'w' in unit then num * MinutesPerWeek
    else if Contains(unit, "mon") then num * 30 * MinutesPerDay
    else if 'y' in unit then num * 365 * MinutesPerDay
    else 0
  }

  /** What `parse_posted_date` returns, as a day number. */
  function ParsePostedDate(dateText: Option<string>, now: nat): Option<nat>
  {
    if dateText.None? || dateText.value == "" then None
    else
      var text := LowerText(dateText.value);
      if Contains(text, "30+") then Back(now, 30 * MinutesPerDay)
      else
        match FirstMatch(text, 0)
        case None => None
        case Some(k) => Back(now, UnitDelta(UnitAt(text, k), DigitsValue(NumberAt(text, k))))
  }

  /** A missing or empty phrase gives `None`. */
  lemma EmptyIsNone(now: nat)
    ensures ParsePostedDate(None, now) == None
    ensures ParsePostedDate(Some(""), now) == None
  {
  }

  /** Going back never leads past today. */
  lemma BackNotAfterToday(now: nat, delta: nat)
    ensures Back(now, delta).Some? ==> Back(now, delta).value <= now / MinutesPerDay
  {
  }

  /** The day found is never later than today. */
  lemma NeverAfterToday(dateText: Option<string>, now: nat)
    ensures var r := ParsePostedDate(dateText, now);
      r.Some? ==> r.value <= now / MinutesPerDay
  {
    if dateText.Some? && dateText.value != "" {
      var text := LowerText(dateText.value);
      if Contains(text, "30+") {
        BackNotAfterToday(now, 30 * MinutesPerDay);
      } else if FirstMatch(text, 0).Some? {
        var k := FirstMatch(text, 0).value;
        BackNotAfterToday(now, UnitDelta(UnitAt(text, k), DigitsValue(NumberAt(text, k))));
      }
    }
  }

  /** "30+" anywhere in the phrase means thirty days ago, whatever else the
      phrase holds; `None` only when that is before the earliest moment. */
  lemma ThirtyPlus(s: string, now: nat)
    requires Contains(LowerText(s), "30+")
    ensures now >= 30 * MinutesPerDay ==> ParsePostedDate(Some(s), now) == Some(now / MinutesPerDay - 30)
    ensures now < 30 * MinutesPerDay ==> ParsePostedDate(Some(s), now) == None
  {
  }

  /** Without "30+" and without a number followed by a word, the phrase gives
      `None`. */
  lemma NoNumberIsNone(s: string, now: nat)
    requires !Contains(LowerText(s), "30+")
    requires forall k :: 0 <= k < |s| ==> !MatchesAt(LowerText(s), k)
    ensures ParsePostedDate(Some(s), now) == None
  {
  }

  /** Otherwise the result is `now` minus the unit delta of the leftmost
      number-and-word pair. */
  lemma LeftmostPair(s: string, now: nat, k: nat)
    requires !Contains(LowerText(s), "30+")
    requires k < |s| && MatchesAt(LowerText(s), k)
    requires forall j :: 0 <= j < k ==> !MatchesAt(LowerText(s), j)
    ensures var text := LowerText(s);
      ParsePostedDate(Some(s), now) == Back(now, UnitDelta(UnitAt(text, k), DigitsValue(NumberAt(text, k))))
  {
    FirstMatchAt(LowerText(s), 0, k);
  }

  /** A unit word with an 'h' is read as hours, before every other test. */
  lemma HoursFirst(unit: string, num: nat)
    requires 'h' in unit
    ensures UnitDelta(unit, num) == num * 60
  {
  }

  /** The unit words the source names resolve as its comments say. */
  lemma DaysUnit(num: nat)
    ensures UnitDelta("days", num) == num * 1440
  {
  }

  lemma MinutesUnit(num: nat)
    ensures UnitDelta("minutes", num) == num
  {
    if Contains("minutes", "mon") {
      ContainsNeedsChar("minutes", "mon", 'o');
    }
  }

  lemma WeeksUnit(num: nat)
    ensures UnitDelta("w", num) == num * 10080
    ensures UnitDelta("weeks", num) == num * 10080
  {
  }

  lemma YearsUnit(num: nat)
    ensures UnitDelta("years", num) == num * 365 * 1440
  {
    if Contains("years", "mon") {
      ContainsNeedsChar("years", "mon", 'm');
    }
  }

  /** A word with none of the letters the tests look at gives a zero delta:
      the result is today. */
  lemma UnknownUnitIsToday(unit: string, num: nat, now: nat)
    requires 'h' !in unit && 'd' !in unit && 'm' !in unit && 'w' !in unit && 'y' !in unit
    ensures UnitDelta(unit, num) == 0
    ensures Back(now, UnitDelta(unit, num)) == Some(now / MinutesPerDay)
  {
    if Contains(unit, "mon") {
      ContainsNeedsChar(unit, "mon", 'm');
    }
  }

  /** The order the `# months` branch and the `'mon'` guard of the minutes
      test imply: "mon" is tested before 'h', so that "months" means
      thirty-day months rather than hours. */
  function UnitDeltaIntended(unit: string, num: nat): nat
  {
    if Contains(unit, "mon") then num * 30 * MinutesPerDay
    else if 'h' in unit then num * MinutesPerHour
    else if 'd' in unit then num * MinutesPerDay
    else if 'm' in unit then num
    else if 'w' in unit then num * MinutesPerWeek
    else if 'y' in unit then num * 365 * MinutesPerDay
    else 0
  }

  /** `parse_posted_date` as its tests expect it: units resolved by
      `UnitDeltaIntended`, and "yesterday" without a number meaning one day
      ago. */
  function ParsePostedDateIntended(dateText: Option<string>, now: nat): Option<nat>
  {
    if dateText.None? || dateText.value == "" then None
    else
      var text := LowerText(dateText.value);
      if Contains(text, "30+") then Back(now, 30 * MinutesPerDay)
      else
        match FirstMatch(text, 0)
        case None => if Contains(text, "yesterday") then Back(now, MinutesPerDay) else None
        case Some(k) => Back(now, UnitDeltaIntended(UnitAt(text, k), DigitsValue(NumberAt(text, k))))
  }

  /** Under the intended order a unit word holding "mon" means months. */
  lemma MonthsMeanMonths(unit: string, num: nat)
    requires Contains(unit, "mon")
    ensures UnitDeltaIntended(unit, num) == num * 30 * 1440
    ensures 'h' in unit ==> UnitDelta(unit, num) == num * 60
  {
  }

  /** The intended order differs from the written one only for words holding
      "mon". */
  lemma UnitOrdersAgree(unit: string, num: nat)
    requires !Contains(unit, "mon")
    ensures UnitDeltaIntended(unit, num) == UnitDelta(unit, num)
  {
  }

  /** The corrected parser gives the same day as the written one on every
      phrase without "mon" and without "yesterday". */
  lemma IntendedAgrees(s: string, now: nat)
    requires !Contains(LowerText(s), "mon") && !Contains(LowerText(s), "yesterday")
    ensures ParsePostedDateIntended(Some(s), now) == ParsePostedDate(Some(s), now)
  {
    var text := LowerText(s);
    if s != "" && !Contains(text, "30+") && FirstMatch(text, 0).Some? {
      var k := FirstMatch(text, 0).value;
      var w := SpacesEnd(text, DigitsEnd(text, k));
      if Contains(UnitAt(text, k), "mon") {
        ContainsInPiece(text, w, LettersEnd(text, w), "mon");
      }
      UnitOrdersAgree(UnitAt(text, k), DigitsValue(NumberAt(text, k)));
    }
  }

  /** The corrected parser never gives a day later than today either. */
  lemma IntendedNeverAfterToday(dateText: Option<string>, now: nat)
    ensures var r := ParsePostedDateIntended(dateText, now);
      r.Some? ==> r.value <= now / MinutesPerDay
  {
    if dateText.Some? && dateText.value != "" {
      var text := LowerText(dateText.value);
      if Contains(text, "30+") {
        BackNotAfterToday(now, 30 * MinutesPerDay);
      } else if FirstMatch(text, 0).Some? {
        var k := FirstMatch(text, 0).value;
        BackNotAfterToday(now, UnitDeltaIntended(UnitAt(text, k), DigitsValue(NumberAt(text, k))));
      } else {
        BackNotAfterToday(now, MinutesPerDay);
      }
    }
  }
}
