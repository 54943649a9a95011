# Job-posting normalisers and batch ingest, in Dafny

This project models the core of a job-board scraper's back end. The core has
two parts:

- **The text normalisers of `utils.py`.** `parse_salary` turns a free-text
  salary such as "$100k - $120k" or "$30.50/hr" into a pair of whole annual
  amounts. `parse_posted_date` turns a phrase such as "Posted 2 days ago" into
  the calendar day it refers to.
- **The batch upsert of `ingest_jobs.py`.** `ingest_data` tags the scraped
  records of the two job boards with their source. It merges them into the
  `jobs` table, keyed by URL, in one transaction that either commits or rolls
  back. Its helper `parse_date` reads `YYYY-MM-DD` strings.

The modules follow the source:

- `Text` holds the ASCII character classes and the scanners that stand in
  for the regular expressions `\d+`, `\s*` and `[a-z]+`, plus substring search.
- `Salary` has two parts. `ParseSalarySpec` states what `parse_salary`
  returns. `ParseSalary` computes it step by step, as the source does: a loop
  collects the amounts, a method picks the multiplier, and an insertion sort
  orders the annual amounts in an array.
- `PostedDate` models `parse_posted_date` as a pure function. The clock is the
  parameter `now`, in whole minutes since 0001-01-01 00:00. A day is
  `minutes / 1440`, so the model returns a day number instead of an ISO string.
- `IsoDate` models `datetime.strptime(s, "%Y-%m-%d")`. That includes what the
  format's regular expression accepts (one-digit months, space-padded days,
  the order in which alternatives are tried) and the calendar check.
- `Ingest` models the `jobs` table as the class `JobStore`, holding a map from
  URL to row. `IngestData` is the batch. Its loop (`Stage`) keeps the session's
  changes and the three counters; the method then commits or rolls back.
  Beside it sit reference definitions of what the table must hold afterwards
  (`ExpectedRow`, `TableIs`) and what the counters must be (`CountMissing`,
  `CountKnown`, `CountFresh`).
- `SalaryExamples` and `PostedDateExamples` work the cases of `test_utils.py`
  out on the model.

Where the code disagrees with its own comments or its test, the model follows
the code:

- `test_utils.py:27` expects "Posted yesterday" to give yesterday's date.
  The code has no case for words without a number, so it gives `None`.
- The `# months` comment on the months branch (utils.py:99) and the
  `'mon' not in unit` guard on the minutes test (utils.py:95) show that
  "months" is meant as 30-day months. The code tests `'h'` first
  (utils.py:91), and "months" holds an 'h', so it means hours.

The model also keeps two behaviours of the batch exactly as written:

- Any exception inside the loop rolls back the whole batch
  (ingest_jobs.py:122-124). One example is a salary that `float()` rejects.
- A record without a URL still counts in `processed` (ingest_jobs.py:72),
  although it is skipped.

## Model

| member | source | states |
|---|---|---|
| Text.LowerText | utils.py:13 | `lower()` keeps the length and folds exactly 'A'..'Z' to lower case, position by position |
| Text.Without | utils.py:13 | `replace(',', '')` leaves no comma and keeps every other character that was present |
| Text.DigitsEnd | utils.py:17 | the greedy `\d*` run from a position: all digits up to the end, and no digit right after it |
| Salary.Lex | utils.py:17 | one match of the number pattern at a digit is a well-formed token and consumes at least one character |
| Salary.Scan | utils.py:17-20 | `re.findall` gives well-formed tokens only, and no match at all exactly when the text has no digit |
| Salary.TokenValue | utils.py:25-27 | the value of a token (`float`, times 1000 for the `k` suffix) is never negative |
| Salary.TokenValues | utils.py:22-28 | the value list has one entry per match, in match order |
| Salary.Normalize | utils.py:13 | `lower()` then `replace(',', '')`; stated by NormalizeKeepsDigits, WithoutThenLower and CommasIgnored |
| Salary.Scale | utils.py:54 | each annual amount is its amount times the chosen multiplier, position by position |
| Salary.AnnualizeIsProduct | utils.py:54 | the per-period annualisation is the product with the period's factor (2080, 260, 52, 12 or 1) |
| Salary.KeywordPeriod | utils.py:40-47 | the keyword groups tried in order, first match wins; Multiplier proves the source's reassignment cascade equal to it |
| Salary.ChosenPeriod | utils.py:49-52 | hourly when no keyword matched and every amount is below 200; stated by Multiplier, BareSmallNumber and OrderedPair |
| Salary.Min | utils.py:61 | the first amount after sorting is an element of the list and no larger than any other |
| Salary.Max | utils.py:62 | the last amount after sorting is an element of the list and no smaller than any other |
| Salary.SortInPlace | utils.py:57 | `sort()` leaves the array sorted and a permutation of what it held |
| Salary.InsertNext | utils.py:57 | one insertion step extends the sorted prefix by one and permutes the array |
| Salary.SortedEnds | utils.py:57-63 | the first and last elements of a sorted permutation are the minimum and the maximum |
| Salary.ParseSalarySpec | utils.py:4-68 | what `parse_salary` returns; ParseSalary is proved equal to it, and NoDigitIffNoRange, RangeOrdered, SingleAmount and CommasIgnored state its properties |
| Salary.ParseSalary | utils.py:4-68 | the step-by-step parser returns exactly `ParseSalarySpec` of its input |
| Salary.AnnualRange | utils.py:54-66 | annualising, sorting and taking both ends gives the truncated minimum and maximum annual amounts |
| Salary.Multiplier | utils.py:35-52 | the multiplier is the factor of the first keyword group found, or 2080 when none is found and every amount is below 200 |
| Salary.NormalizeKeepsDigits | utils.py:13 | lowering and dropping commas neither adds nor removes digits |
| Salary.NoDigitIffNoRange | utils.py:10-20 | `(None, None)` exactly when the text holds no digit, and always for `None` |
| Salary.ScaleNonNeg | utils.py:54 | annualising non-negative amounts gives non-negative amounts |
| Salary.RangeOrdered | utils.py:54-66 | the result is `(None, None)` or two whole numbers with `0 <= min <= max` |
| Salary.SingletonExtremes | utils.py:64-66 | with a single amount, minimum and maximum are both that amount annualised |
| Salary.SingleAmount | utils.py:64-66 | text with one numeric match gives `(v, v)` for its truncated annual amount `v` |
| Salary.WithoutThenLower | utils.py:13 | normalising text without commas is the same as normalising the text |
| Salary.CommasIgnored | utils.py:13 | removing commas beforehand never changes the result |
| SalaryExamples.OneAmount | utils.py:64-66 | a text with one token whose annualised value truncates to `f` gives `(f, f)` |
| SalaryExamples.OrderedPair | utils.py:49-62 | two ordered amounts, the larger at least 200, with no keyword: multiplier 1, extremes are the two amounts |
| SalaryExamples.TwoAmounts | utils.py:54-63 | two ordered matches with no keyword and the larger at least 200 give the two truncated amounts |
| SalaryExamples.ThousandsSuffix | test_utils.py:6 | "$100k - $120k" gives (100000, 120000) |
| SalaryExamples.DropSeparators | utils.py:13 | "100,000 - 120,000" without commas is "100000 - 120000" |
| SalaryExamples.ThousandsSeparators | test_utils.py:7 | "100,000 - 120,000" gives (100000, 120000) |
| SalaryExamples.PerHour | test_utils.py:8 | "$50 per hour" gives (104000, 104000) |
| SalaryExamples.PerDay | test_utils.py:9 | "$800 per day" gives (208000, 208000) |
| SalaryExamples.PlusSuper | test_utils.py:10 | "80k + super" gives (80000, 80000) |
| SalaryExamples.NoNumber | test_utils.py:11 | "Some text" gives (None, None) |
| SalaryExamples.PlainAmount | test_utils.py:12 | "$100000" gives (100000, 100000) |
| SalaryExamples.DecimalRate | test_utils.py:13 | "$30.50/hr" gives (63440, 63440) |
| SalaryExamples.BareSmallNumber | utils.py:49-52 | "45", with no keyword and below 200, is read as an hourly rate: (93600, 93600) |
| PostedDate.Back | utils.py:104 | the day `delta` minutes before `now` exists exactly when `delta <= now`, and it is the day holding that moment |
| PostedDate.FirstMatch | utils.py:85 | `re.search` finds a position where the number-and-word pattern matches, with no match before it, or reports that there is none |
| PostedDate.FirstMatchAt | utils.py:85 | conversely, a match with no match before it is the one found |
| PostedDate.NumberAt | utils.py:87 | group 1 is a non-empty run of digits |
| PostedDate.UnitAt | utils.py:88 | group 2 is a non-empty run of `[a-z]` letters |
| PostedDate.UnitDelta | utils.py:90-102 | the unit chain in the source's order; stated by HoursFirst, DaysUnit, MinutesUnit, WeeksUnit, YearsUnit, UnknownUnitIsToday and MonthsMeanMonths |
| PostedDate.ParsePostedDate | utils.py:70-109 | what `parse_posted_date` returns, as a day number; stated by EmptyIsNone, NeverAfterToday, ThirtyPlus, NoNumberIsNone and LeftmostPair |
| PostedDate.EmptyIsNone | utils.py:74-75 | a missing or empty phrase gives `None` |
| PostedDate.BackNotAfterToday | utils.py:104 | going back never leads past today |
| PostedDate.NeverAfterToday | utils.py:70-109 | the day found is never later than today's |
| PostedDate.ThirtyPlus | utils.py:81-82 | "30+" anywhere gives thirty days before today, whatever else the phrase holds |
| PostedDate.NoNumberIsNone | utils.py:85-109 | without "30+" and without a number followed by a word, the result is `None` |
| PostedDate.LeftmostPair | utils.py:85-104 | otherwise the result is `now` minus the unit delta of the leftmost number-and-word pair |
| PostedDate.HoursFirst | utils.py:91-92 | any unit word holding an 'h' is read as hours, before every other test |
| PostedDate.DaysUnit | utils.py:93-94 | "days" means days |
| PostedDate.MinutesUnit | utils.py:95-96 | "minutes" means minutes |
| PostedDate.WeeksUnit | utils.py:97-98 | "w" and "weeks" mean weeks |
| PostedDate.YearsUnit | utils.py:101-102 | "years" means 365-day years |
| PostedDate.UnknownUnitIsToday | utils.py:90 | a word with none of the tested letters gives a zero delta, so the result is today |
| PostedDate.UnitDeltaIntended | utils.py:95-100 | the corrected unit order, "mon" before 'h'; stated by MonthsMeanMonths and UnitOrdersAgree |
| PostedDate.ParsePostedDateIntended | utils.py:70-109 | the corrected parser; stated by IntendedAgrees, IntendedNeverAfterToday, MonthsIntended and YesterdayIntended |
| PostedDate.MonthsMeanMonths | utils.py:99-100 | under the corrected order a unit holding "mon" is 30-day months, where the written order reads it as hours when it holds an 'h' |
| PostedDate.UnitOrdersAgree | utils.py:90-102 | the corrected and the written unit order agree on every word without "mon" |
| PostedDate.IntendedAgrees | utils.py:80-109 | the corrected parser agrees with the written one on every phrase without "mon" and "yesterday" |
| PostedDate.IntendedNeverAfterToday | utils.py:70-109 | the corrected parser never gives a day later than today |
| PostedDateExamples.MatchAfterPrefix | utils.py:85 | a match preceded only by non-digits is the leftmost one |
| PostedDateExamples.SameDay | utils.py:104 | going back less than a day stays on today exactly when the time of day is at least that far past midnight |
| PostedDateExamples.WholeDaysBack | utils.py:104 | going back `n` whole days lands on today minus `n` |
| PostedDateExamples.TwoDaysAgo | test_utils.py:25 | "Posted 2 days ago" gives the day two days before today |
| PostedDateExamples.FiveHoursAgo | test_utils.py:26 | "Posted 5 hours ago" gives today only when it is 05:00 or later; earlier it gives yesterday |
| PostedDateExamples.YesterdayAsWritten | test_utils.py:27 | "Posted yesterday" gives `None`, not the yesterday's date the test expects |
| PostedDateExamples.ThirtyPlusDaysAgo | test_utils.py:28 | "30+ days ago" gives the day thirty days before today |
| PostedDateExamples.OneWeekAgo | test_utils.py:29 | "Posted 1w ago" gives the day seven days before today |
| PostedDateExamples.MonthsAsWritten | utils.py:91-92 | "Posted 2 months ago" gives two hours ago |
| PostedDateExamples.MonthsIntended | utils.py:99-100 | under the corrected order "Posted 2 months ago" gives sixty days ago |
| PostedDateExamples.YesterdayIntended | test_utils.py:27 | the corrected parser gives one day before today for "Posted yesterday" |
| IsoDate.DaysInMonth | ingest_jobs.py:33 | a month has 28 to 31 days, and 29 exactly for February of a leap year |
| IsoDate.MonthAlternatives | ingest_jobs.py:33 | every way `%m` can match is a month 1..12 that consumes at least one character |
| IsoDate.DayAlternatives | ingest_jobs.py:33 | every way `%d` can match is a day 1..31 that consumes at least one character |
| IsoDate.MonthAndDay | ingest_jobs.py:33 | backtracking picks a month followed by '-' and one of its day matches, or none exists |
| IsoDate.MatchFormat | ingest_jobs.py:33 | a match of `%Y-%m-%d` yields a year up to 9999, a month 1..12 and a day 1..31 |
| IsoDate.ParseDate | ingest_jobs.py:27-37 | a date is returned only for a string of 8 to 10 characters, and only a real calendar date |
| IsoDate.IsoFormat | ingest_jobs.py:32 | a date written as `YYYY-MM-DD` has ten characters with '-' at positions 4 and 7 |
| IsoDate.EmptyIsNone | ingest_jobs.py:29-30 | a missing or empty string gives `None` |
| IsoDate.IsoShaped | ingest_jobs.py:33 | a ten-character `DDDD-DD-DD` string gives the date it spells when that date is valid, else `None` |
| IsoDate.RoundTrip | ingest_jobs.py:32-33 | parsing the `YYYY-MM-DD` form of any valid date gives that date back |
| IsoDate.OneDigitFields | ingest_jobs.py:33 | "2024-1-5" is accepted as 5 January 2024 |
| IsoDate.SpacePaddedDay | ingest_jobs.py:33 | "2024-01- 5" is accepted as 5 January 2024 |
| IsoDate.NoLeapDay | ingest_jobs.py:34-35 | "2023-02-29" gives `None` |
| IsoDate.LeapDay | ingest_jobs.py:33 | "2024-02-29" is accepted |
| IsoDate.LeftoverText | ingest_jobs.py:34-35 | text after the date ("2024-01-05T09:30", "2024-01-311") gives `None` |
| IsoDate.YearZero | ingest_jobs.py:34-35 | year 0000 gives `None` |
| Ingest.SalaryColumn | ingest_jobs.py:100-101 | a falsy value gives NULL, a value `float` accepts gives that number, any other value fails the batch |
| Ingest.ParseFloat | ingest_jobs.py:100 | `float()` of a string in its decimal forms; stated by ParseFloatDigits |
| Ingest.ToFloat | ingest_jobs.py:100 | `float()` of a JSON value; stated through SalaryColumn and ColumnRules |
| Ingest.PostedDateColumn | ingest_jobs.py:103 | `parse_date(job_data.get('posted_date'))`, through IsoDate.ParseDate; stated by IsoDate.RoundTrip and the date examples |
| Ingest.UrlOf | ingest_jobs.py:75-77 | a falsy URL is skipped; stated by StepOkIff and RunCounts |
| Ingest.JobDict | ingest_jobs.py:87-106 | the row's `url` column is the record's URL |
| Ingest.Tagged | ingest_jobs.py:54-57 | tagging keeps the number of records |
| Ingest.TagSource | ingest_jobs.py:54-57 | the tagging loop sets `source` on every record and nothing else |
| Ingest.Step | ingest_jobs.py:71-117 | one loop pass never adds or removes a loaded row |
| Ingest.Run | ingest_jobs.py:71-117 | the loop never adds or removes a loaded row; new rows are only pending |
| Ingest.WithInserts | ingest_jobs.py:116-119 | the table after the commit; stated by WithInsertsAt |
| Ingest.Ingest | ingest_jobs.py:53-124 | `ingest_data` on a table; IngestData is proved equal to it, and CommittedTable, CommittedCounts, NothingToIngestIff, FailingRecordRollsBack, DuplicateNewUrlRollsBack and ReIngestUpdatesOnly state its properties |
| Ingest.JobStore.constructor | database.py:29-30 | the table starts empty, with every row filed under its URL |
| Ingest.JobStore.IngestData | ingest_jobs.py:53-124 | the report and the new table are `Ingest` of the old table, and every row stays filed under its own URL |
| Ingest.JobStore.Stage | ingest_jobs.py:66-117 | the loop ends with the session state `Run` describes, or with the first failure |
| Ingest.RunStaysFailed | ingest_jobs.py:122-124 | once part of the batch has failed, the whole batch has |
| Ingest.LastRecord | ingest_jobs.py:71-111 | the record that decides a URL's row names that URL and belongs to the batch |
| Ingest.StepOkIff | ingest_jobs.py:71-106 | a loop pass succeeds exactly when the record has no URL, or a string URL and valid salary values |
| Ingest.RunOkIff | ingest_jobs.py:71-124 | the loop gets through the batch exactly when every record passes on its own |
| Ingest.RunCounts | ingest_jobs.py:67-117 | processed is the batch size, inserted counts records with a new URL, updated those with a known one, and processed = skipped + inserted + updated |
| Ingest.RunUpdates | ingest_jobs.py:108-112 | every loaded row ends as its expected row |
| Ingest.RunAdds | ingest_jobs.py:113-117 | the last pending row for a new URL is its expected row; known URLs are never added |
| Ingest.StepAdds | ingest_jobs.py:113-117 | a record with a new URL appends one row built from its `job_dict`; any other record appends nothing |
| Ingest.StepRows | ingest_jobs.py:108-112 | a record with a known URL overwrites that row's columns with its `job_dict`; any other leaves the rows alone |
| Ingest.WithInsertsAt | ingest_jobs.py:116-119 | after the commit a URL holds its last added row, or its old row if none was added |
| Ingest.CommittedTable | ingest_jobs.py:71-119 | after a commit the table holds exactly the expected row for every URL |
| Ingest.CommittedCounts | ingest_jobs.py:67-120 | the committed counters: processed is the record count, with inserted and updated as the numbers of new and known URLs, and skipped records making up the rest |
| Ingest.NothingToIngestIff | ingest_jobs.py:61-63 | the batch does nothing exactly when both inputs are empty, and the table is unchanged |
| Ingest.FailingRecordRollsBack | ingest_jobs.py:122-124 | one failing record anywhere rolls back the whole batch and leaves the table as it was |
| Ingest.RunAddedCount | ingest_jobs.py:113-117 | a new URL is added once per record naming it |
| Ingest.DuplicateNewUrlRollsBack | ingest_jobs.py:119-124 | a URL new to the table that occurs twice in a batch makes the commit fail and the table stay as it was |
| Ingest.IngestKeepsKeyedByUrl | database.py:50 | every row stays filed under its own URL |
| Ingest.TaggedRecord | ingest_jobs.py:54-57 | a tagged record carries its source and keeps its URL |
| Ingest.JobsearchLast | ingest_jobs.py:59 | when a jobsearch record names a URL, the record that decides it is the last jobsearch record naming it |
| Ingest.JobsearchWins | ingest_jobs.py:53-71 | when both files name a URL, the committed row holds the jobsearch values and source |
| Ingest.AllUrlsKept | ingest_jobs.py:108-119 | after a commit every URL named in the batch is in the table |
| Ingest.ReIngestUpdatesOnly | ingest_jobs.py:108-117 | ingesting the same files again commits, inserts nothing, counts every record with a URL as updated, and leaves the table unchanged |
| Ingest.ColumnRules | ingest_jobs.py:95-101 | the salary columns are NULL exactly for falsy values and `float(value)` otherwise; `is_remote` and `is_hybrid` default to false only when absent |
| Ingest.UpdateOverwrites | ingest_jobs.py:108-111 | a known row whose deciding record lacks `job_title` gets a NULL title, and keeps its `classification` and `created_at` |
| Ingest.ParseFloatDigits | ingest_jobs.py:100 | `float` of a string of digits is its decimal value |

## Left out

- Text is treated as ASCII. `lower()` folds only 'A'..'Z', and `\d`, `\s`
  and the digits `strptime` accepts are the ASCII ones.
- Salaries, the salary columns and `float()` use exact reals. Binary
  floating-point rounding is not modelled. Since the annual amounts are never
  negative, `int()` is `.Floor`.
- Ingest.ParseFloat: accepts only the decimal forms `float()` reads:
  whitespace, a sign, digits and a fraction. Exponents, `inf`, `nan` and
  digit-group underscores are treated as failures.
- The regular expressions are replaced by scanners with the same greedy and
  leftmost behaviour. No general regex engine is modelled.
- PostedDate.ParsePostedDate: the clock counts whole minutes. Seconds and
  microseconds never move a moment across a day boundary, so they are left
  out. The result is a day number, not its ISO text.
- PostedDate.ParsePostedDate: Python's `int()` refuses numbers of more than
  4300 digits. The source then returns `None`; the model goes on with the
  value. This differs only when such a number meets a unit word giving a
  zero delta.
- PostedDate.Back: the latest representable date is not modelled. `now` is
  an unbounded minute count, and an overflow is modelled only as going
  before the earliest date.
- The wall clock (`datetime.now()`) and the database clock of `created_at`
  are parameters.
- `load_json_file`, logging, `init_db`, and opening and closing the session
  are left out. The model takes the two already-loaded lists. This is file
  and database I/O.
- The scraper scripts and the orchestration that runs them are not part of
  this model.
- The autoincrement `id` column is not modelled. Rows are identified by
  their unique URL.
- Ingest.Step: `setattr` over the keys of `job_dict` is modelled as replacing
  all the row's `job_dict` columns at once. The keys are exactly those
  columns, so nothing else differs.
- Ingest.Step: a truthy URL that is not a string is modelled as ending the
  batch with a failure in the URL lookup. Which values the database driver
  would in fact accept is not modelled.
- Ingest.JobStore.IngestData: JSON items that are not objects are not
  modelled. In the source, `job['source'] = ...` on such an item raises
  before the session opens.
- Ingest.JobStore.IngestData: the database's type adaptation of column
  values at commit is not modelled. Only the `url` unique constraint is a
  commit failure here.
- Ingest.CommittedTable: the column defaults of `country` ("Australia"),
  `is_remote` and `is_hybrid` (false), database.py:39-41, are not modelled.
  On insert the ORM leaves out a column whose value is `None`, so its
  default applies. The scrapers never set `country`, so a row the program
  inserts holds "Australia" where the model's new row holds NULL.
- Ingest.ReIngestUpdatesOnly: for the same reason, a second run is not
  quite a no-op in the database. The update writes `None` into `country`,
  so that column goes from "Australia" after the first insert to NULL after
  the update. The model, which holds NULL from the start, leaves the table
  unchanged.

## Findings

| source | as written | input that shows it | evidently intended | confidence | as-written member | corrected member |
|---|---|---|---|---|---|---|
| utils.py:91 | the unit test `'h' in unit` comes before `'mon' in unit`, and "months" holds an 'h' | "Posted 2 months ago" gives two hours ago | two 30-day months ago, as the `# months` branch at utils.py:99-100 says | not executed | PostedDateExamples.MonthsAsWritten | PostedDateExamples.MonthsIntended |
| utils.py:85-109 | a phrase without a number yields no match and returns `None` | "Posted yesterday" gives `None` | yesterday's date, as test_utils.py:27 expects | not executed | PostedDateExamples.YesterdayAsWritten | PostedDateExamples.YesterdayIntended |

The test case "Posted 5 hours ago" at test_utils.py:26 expects today's date.
As `PostedDateExamples.FiveHoursAgo` shows, the code gives yesterday's date
before 05:00.
