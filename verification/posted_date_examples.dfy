/** The date cases listed in `test_utils.py`, worked out on the model, and
    the two places where the code and its test or its comments disagree. */
module PostedDateExamples {
  import opened Wrappers
  import opened Text
  import opened PostedDate

  /** The result of a phrase without "30+" whose leftmost number-and-word
      pair is at `k`. */
  lemma PhraseResult(s: string, now: nat, k: nat, num: string, unit: string, n: nat)
    requires s != "" && !Contains(LowerText(s), "30+")
    requires FirstMatch(LowerText(s), 0) == Some(k)
    requires NumberAt(LowerText(s), k) == num && DigitsValue(num) == n
    requires UnitAt(LowerText(s), k) == unit
    ensures ParsePostedDate(Some(s), now) == Back(now, UnitDelta(unit, n))
  {
  }

  /** A match preceded only by non-digits is the leftmost one. */
  lemma MatchAfterPrefix(t: string, k: nat)
    requires k < |t| && MatchesAt(t, k)
    requires forall j :: 0 <= j < k ==> !IsDigit(t[j])
    ensures FirstMatch(t, 0) == Some(k)
  {
    FirstMatchAt(t, 0, k);
  }

  /** The leftmost pair, read off the character classes around it: digits
      from `k` to `d` with no digit before, whitespace up to `w`, letters up
      to `e`. */
  lemma PairAt(t: string, k: nat, d: nat, w: nat, e: nat)
    requires k < d <= w < e <= |t|
    requires forall j :: 0 <= j < k ==> !IsDigit(t[j])
    requires forall j :: k <= j < d ==> IsDigit(t[j])
    requires !IsDigit(t[d])
    requires forall j :: d <= j < w ==> IsSpace(t[j])
    requires forall j :: w <= j < e ==> IsLowerLetter(t[j])
    requires e < |t| ==> !IsLowerLetter(t[e])
    ensures FirstMatch(t, 0) == Some(k)
    ensures NumberAt(t, k) == t[k..d] && UnitAt(t, k) == t[w..e]
  {
    DigitsEndAt(t, k, d);
    SpacesEndAt(t, d, w);
    LettersEndAt(t, w, e);
    MatchAfterPrefix(t, k);
  }

  /** Going back less than a day stays on today exactly when the time of day
      is at least that far past midnight. */
  lemma SameDay(now: nat, delta: nat)
    requires delta <= now && delta < 1440
    ensures Back(now, delta) == Some(now / 1440) <==> now % 1440 >= delta
  {
  }

  /** Going back a whole number of days lands that many days before today. */
  lemma WholeDaysBack(now: nat, n: nat)
    requires n * 1440 <= now
    ensures Back(now, n * 1440) == Some(now / 1440 - n)
  {
    assert now - n * 1440 == (now / 1440 - n) * 1440 + now % 1440;
  }

  /** The same for the corrected parser. */
  lemma PhraseResultIntended(s: string, now: nat, k: nat, num: string, unit: string, n: nat)
    requires s != "" && !Contains(LowerText(s), "30+")
    requires FirstMatch(LowerText(s), 0) == Some(k)
    requires NumberAt(LowerText(s), k) == num && DigitsValue(num) == n
    requires UnitAt(LowerText(s), k) == unit
    ensures ParsePostedDateIntended(Some(s), now) == Back(now, UnitDeltaIntended(unit, n))
  {
  }

  lemma NoThirtyPlus(t: string)
    requires '+' !in t
    ensures !Contains(t, "30+")
  {
    if Contains(t, "30+") {
      ContainsNeedsChar(t, "30+", '+');
    }
  }

  // "Posted 2 days ago"

  lemma LowerTwoDays(s: string)
    requires s == "Posted 2 days ago"
    ensures LowerText(s) == "posted 2 days ago"
  {
  }

  lemma ShapeTwoDays(t: string)
    requires t == "posted 2 days ago"
    ensures forall j :: 0 <= j < 7 ==> !IsDigit(t[j])
    ensures IsDigit(t[7]) && !IsDigit(t[8]) && IsSpace(t[8])
    ensures forall j :: 9 <= j < 13 ==> IsLowerLetter(t[j])
    ensures !IsLowerLetter(t[13])
    ensures t[7..8] == "2" && t[9..13] == "days"
  {
  }

  lemma PairTwoDays(t: string)
    requires t == "posted 2 days ago"
    ensures FirstMatch(t, 0) == Some(7)
    ensures NumberAt(t, 7) == "2" && UnitAt(t, 7) == "days"
  {
    ShapeTwoDays(t);
    PairAt(t, 7, 8, 9, 13);
  }

  lemma FactsTwoDays(s: string)
    requires s == "Posted 2 days ago"
    ensures !Contains(LowerText(s), "30+")
    ensures FirstMatch(LowerText(s), 0) == Some(7)
    ensures NumberAt(LowerText(s), 7) == "2" && UnitAt(LowerText(s), 7) == "days"
  {
    LowerTwoDays(s);
    NoThirtyPlus(LowerText(s));
    PairTwoDays(LowerText(s));
  }

  /** "Posted 2 days ago" gives the day two days before today. */
  lemma TwoDaysAgo(s: string, now: nat)
    requires s == "Posted 2 days ago"
    ensures ParsePostedDate(Some(s), now) == Back(now, 2 * 1440)
    ensures now >= 2 * 1440 ==> ParsePostedDate(Some(s), now) == Some(now / 1440 - 2)
  {
    FactsTwoDays(s);
    DaysUnit(2);
    PhraseResult(s, now, 7, "2", "days", 2);
    if now >= 2 * 1440 {
      WholeDaysBack(now, 2);
    }
  }

  // "Posted 5 hours ago"

  lemma LowerFiveHours(s: string)
    requires s == "Posted 5 hours ago"
    ensures LowerText(s) == "posted 5 hours ago"
  {
  }

  lemma ShapeFiveHours(t: string)
    requires t == "posted 5 hours ago"
    ensures forall j :: 0 <= j < 7 ==> !IsDigit(t[j])
    ensures IsDigit(t[7]) && !IsDigit(t[8]) && IsSpace(t[8])
    ensures forall j :: 9 <= j < 14 ==> IsLowerLetter(t[j])
    ensures !IsLowerLetter(t[14])
    ensures t[7..8] == "5" && t[9..14] == "hours"
  {
  }

  lemma PairFiveHours(t: string)
    requires t == "posted 5 hours ago"
    ensures FirstMatch(t, 0) == Some(7)
    ensures NumberAt(t, 7) == "5" && UnitAt(t, 7) == "hours"
  {
    ShapeFiveHours(t);
    PairAt(t, 7, 8, 9, 14);
  }

  lemma FactsFiveHours(s: string)
    requires s == "Posted 5 hours ago"
    ensures !Contains(LowerText(s), "30+")
    ensures FirstMatch(LowerText(s), 0) == Some(7)
    ensures NumberAt(LowerText(s), 7) == "5" && UnitAt(LowerText(s), 7) == "hours"
  {
    LowerFiveHours(s);
    NoThirtyPlus(LowerText(s));
    PairFiveHours(LowerText(s));
  }

  /** "Posted 5 hours ago" gives today only when it is 05:00 or later; before
      that it gives yesterday. */
  lemma FiveHoursAgo(s: string, now: nat)
    requires s == "Posted 5 hours ago"
    ensures ParsePostedDate(Some(s), now) == Back(now, 300)
    ensures now >= 300 ==>
      (ParsePostedDate(Some(s), now) == Some(now / 1440) <==> now % 1440 >= 300)
  {
    FactsFiveHours(s);
    HoursFirst("hours", 5);
    PhraseResult(s, now, 7, "5", "hours", 5);
    if now >= 300 {
      SameDay(now, 300);
    }
  }

  // "Posted 1w ago"

  lemma LowerOneWeek(s: string)
    requires s == "Posted 1w ago"
    ensures LowerText(s) == "posted 1w ago"
  {
  }

  lemma ShapeOneWeek(t: string)
    requires t == "posted 1w ago"
    ensures forall j :: 0 <= j < 7 ==> !IsDigit(t[j])
    ensures IsDigit(t[7]) && !IsDigit(t[8])
    ensures forall j :: 8 <= j < 9 ==> IsLowerLetter(t[j])
    ensures !IsLowerLetter(t[9])
    ensures t[7..8] == "1" && t[8..9] == "w"
  {
  }

  lemma PairOneWeek(t: string)
    requires t == "posted 1w ago"
    ensures FirstMatch(t, 0) == Some(7)
    ensures NumberAt(t, 7) == "1" && UnitAt(t, 7) == "w"
  {
    ShapeOneWeek(t);
    PairAt(t, 7, 8, 8, 9);
  }

  lemma FactsOneWeek(s: string)
    requires s == "Posted 1w ago"
    ensures !Contains(LowerText(s), "30+")
    ensures FirstMatch(LowerText(s), 0) == Some(7)
    ensures NumberAt(LowerText(s), 7) == "1" && UnitAt(LowerText(s), 7) == "w"
  {
    LowerOneWeek(s);
    NoThirtyPlus(LowerText(s));
    PairOneWeek(LowerText(s));
  }

  /** "Posted 1w ago" gives the day a week before today. */
  lemma OneWeekAgo(s: string, now: nat)
    requires s == "Posted 1w ago"
    ensures ParsePostedDate(Some(s), now) == Back(now, 7 * 1440)
    ensures now >= 7 * 1440 ==> ParsePostedDate(Some(s), now) == Some(now / 1440 - 7)
  {
    FactsOneWeek(s);
    WeeksUnit(1);
    PhraseResult(s, now, 7, "1", "w", 1);
    if now >= 7 * 1440 {
      WholeDaysBack(now, 7);
    }
  }

  // "Posted 2 months ago"

  lemma LowerTwoMonths(s: string)
    requires s == "Posted 2 months ago"
    ensures LowerText(s) == "posted 2 months ago"
  {
  }

  lemma ShapeTwoMonths(t: string)
    requires t == "posted 2 months ago"
    ensures forall j :: 0 <= j < 7 ==> !IsDigit(t[j])
    ensures IsDigit(t[7]) && !IsDigit(t[8]) && IsSpace(t[8])
    ensures forall j :: 9 <= j < 15 ==> IsLowerLetter(t[j])
    ensures !IsLowerLetter(t[15])
    ensures t[7..8] == "2" && t[9..15] == "months"
  {
  }

  lemma PairTwoMonths(t: string)
    requires t == "posted 2 months ago"
    ensures FirstMatch(t, 0) == Some(7)
    ensures NumberAt(t, 7) == "2" && UnitAt(t, 7) == "months"
  {
    ShapeTwoMonths(t);
    PairAt(t, 7, 8, 9, 15);
  }

  lemma FactsTwoMonths(s: string)
    requires s == "Posted 2 months ago"
    ensures !Contains(LowerText(s), "30+")
    ensures FirstMatch(LowerText(s), 0) == Some(7)
    ensures NumberAt(LowerText(s), 7) == "2" && UnitAt(LowerText(s), 7) == "months"
  {
    LowerTwoMonths(s);
    NoThirtyPlus(LowerText(s));
    PairTwoMonths(LowerText(s));
  }

  /** "months" holds an 'h', so "Posted 2 months ago" is read as two hours
      ago: the `'mon'` branch is never reached for the word "months". */
  lemma MonthsAsWritten(s: string, now: nat)
    requires s == "Posted 2 months ago"
    ensures ParsePostedDate(Some(s), now) == Back(now, 120)
  {
    FactsTwoMonths(s);
    HoursFirst("months", 2);
    PhraseResult(s, now, 7, "2", "months", 2);
  }

  // "30+ days ago"

  lemma FactsThirtyPlus(s: string)
    requires s == "30+ days ago"
    ensures Contains(LowerText(s), "30+")
  {
    assert LowerText(s) == s;
    assert s[0..3] == "30+";
    ContainsAt(s, "30+", 0);
  }

  /** "30+ days ago" gives the day thirty days before today. */
  lemma ThirtyPlusDaysAgo(s: string, now: nat)
    requires s == "30+ days ago"
    requires now >= 30 * 1440
    ensures ParsePostedDate(Some(s), now) == Some(now / 1440 - 30)
  {
    FactsThirtyPlus(s);
    ThirtyPlus(s, now);
  }

  // "Posted yesterday"

  lemma LowerYesterday(s: string)
    requires s == "Posted yesterday"
    ensures LowerText(s) == "posted yesterday"
  {
  }

  lemma NoPairYesterday(t: string)
    requires t == "posted yesterday"
    ensures FirstMatch(t, 0) == None
  {
    assert forall j :: 0 <= j < |t| ==> !IsDigit(t[j]);
  }

  lemma FactsYesterday(s: string)
    requires s == "Posted yesterday"
    ensures !Contains(LowerText(s), "30+")
    ensures FirstMatch(LowerText(s), 0) == None
  {
    LowerYesterday(s);
    NoThirtyPlus(LowerText(s));
    NoPairYesterday(LowerText(s));
  }

  /** "Posted yesterday" has no number, so the code gives `None`, where the
      test expects yesterday's date. */
  lemma YesterdayAsWritten(s: string, now: nat)
    requires s == "Posted yesterday"
    ensures ParsePostedDate(Some(s), now) == None
  {
    FactsYesterday(s);
  }

  // The corrected parser on the two phrases above

  lemma MonthsWord(u: string)
    requires u == "months"
    ensures Contains(u, "mon")
  {
    assert u[0..3] == "mon";
    ContainsAt(u, "mon", 0);
  }

  /** Under the corrected order "Posted 2 months ago" is sixty days ago. */
  lemma MonthsIntended(s: string, now: nat)
    requires s == "Posted 2 months ago"
    ensures ParsePostedDateIntended(Some(s), now) == Back(now, 2 * 30 * 1440)
  {
    FactsTwoMonths(s);
    var u := "months";
    MonthsWord(u);
    MonthsMeanMonths(u, 2);
    PhraseResultIntended(s, now, 7, "2", u, 2);
  }

  lemma SaysYesterday(t: string)
    requires t == "posted yesterday"
    ensures Contains(t, "yesterday")
  {
    assert t[7..16] == "yesterday";
    ContainsAt(t, "yesterday", 7);
  }

  /** The corrected parser reads "Posted yesterday" as one day ago, as the
      test expects. */
  lemma YesterdayIntended(s: string, now: nat)
    requires s == "Posted yesterday"
    ensures ParsePostedDateIntended(Some(s), now) == Back(now, 1440)
  {
    FactsYesterday(s);
    LowerYesterday(s);
    SaysYesterday(LowerText(s));
  }
}
