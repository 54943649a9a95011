/** `ingest_data`: the scraped job records of both sources are written to the
    `jobs` table in one transaction, keyed by their URL.

    The table is a map from URL to row (the `url` column is unique). The JSON
    files are parameters, already loaded; so is the database clock. The
    session is created with `autoflush=False`, so a lookup by URL only sees
    rows committed before the batch: a URL that is new to the table and
    occurs twice in the batch is inserted twice, and the unique constraint
    fails the whole commit. */
module Ingest {
  import opened Wrappers
  import opened Text
  import IsoDate

  /** A JSON value as `json.load` gives it; of an array or an object only
      whether it is empty matters here. */
  datatype Value = Null | Bool(b: bool) | Num(x: real) | Str(s: string) | Composite(size: nat)

  /** Python truthiness. */
  predicate Truthy(v: Value)
  {
    match v
    case Null => false
    case Bool(b) => b
    case Num(x) => x != 0.0
    case Str(s) => s != ""
    case Composite(n) => n > 0
  }

  /** A scraped job record: a JSON object. */
  type RawJob = map<string, Value>

  /** `job_data.get(key)`. */
  function Get(raw: RawJob, key: string): Value
  {
    if key in raw then raw[key] else Null
  }

  /** `job_data.get(key, default)`. */
  function GetOr(raw: RawJob, key: string, default: Value): Value
  {
    if key in raw then raw[key] else default
  }

  /** Why a batch is rolled back. */
  datatype Failure =
    | UrlNotText(url: Value)         // the lookup `Job.url == url` fails for a non-string URL
    | NotANumber(key: string)        // `float(...)` raises ValueError or TypeError
    | DuplicateUrl                   // the unique constraint on `url` fails at commit

  /** The columns `ingest_data` writes: every column of `jobs` except `id`,
      `classification` and `created_at`. */
  datatype JobFields = JobFields(
    source: Value,
    jobTitle: Value,
    companyName: Value,
    location: Value,
    city: Value,
    state: Value,
    country: Value,
    isRemote: Value,
    isHybrid: Value,
    workType: Value,
    salaryRange: Value,
    minAnnualSalary: Option<real>,
    maxAnnualSalary: Option<real>,
    postedDate: Option<IsoDate.Date>,
    jobDescription: Value,
    url: string)

  /** A row of `jobs`; `createdAt` is the database time of the insert. */
  datatype Job = Job(fields: JobFields, classification: Option<string>, createdAt: nat)

  /** `float(s)` for the decimal forms: optional surrounding whitespace, an
      optional sign, and digits with an optional fraction, at least one digit
      in all. */
  function ParseFloat(s: string): Option<real>
  {
    var a := SpacesEnd(s, 0);
    var signEnd := if a < |s| && (s[a] == '+' || s[a] == '-') then a + 1 else a;
    var intEnd := DigitsEnd(s, signEnd);
    var fracEnd := if intEnd < |s| && s[intEnd] == '.' then DigitsEnd(s, intEnd + 1) else intEnd;
    if SpacesEnd(s, fracEnd) == |s| && (intEnd > signEnd || fracEnd > intEnd + 1) then
      var magnitude := DigitsValue(s[signEnd..intEnd]) as real +
        (if fracEnd > intEnd then FracValue(s[intEnd + 1..fracEnd]) else 0.0);
      Some(if signEnd > a && s[a] == '-' then -magnitude else magnitude)
    else None
  }

  /** `float(v)`: a number as it is, a bool as 0 or 1, a string parsed; an
      array, an object or null raise. */
  function ToFloat(v: Value): Option<real>
  {
    match v
    case Null => None
    case Bool(b) => Some(if b then 1.0 else 0.0)
    case Num(x) => Some(x)
    case Str(s) => ParseFloat(s)
    case Composite(_) => None
  }

  /** `float(v) if v else None`, as the salary columns are filled. */
  function SalaryColumn(raw: RawJob, key: string): (r: Result<Option<real>, Failure>)
    ensures !Truthy(Get(raw, key)) ==> r == Ok(None)
    ensures Truthy(Get(raw, key)) && ToFloat(Get(raw, key)).Some? ==> r == Ok(Some(ToFloat(Get(raw, key)).value))
    ensures Truthy(Get(raw, key)) && ToFloat(Get(raw, key)).None? ==> r == Err(NotANumber(key))
  {
    var v := Get(raw, key);
    if !Truthy(v) then Ok(None)
    else match ToFloat(v)
      case None => Err(NotANumber(key))
      case Some(x) => Ok(Some(x))
  }

  /** `parse_date(v)`: a non-string gives `None` (a falsy one by the first
      test, a truthy one through the `TypeError` it raises). */
  function PostedDateColumn(v: Value): Option<IsoDate.Date>
  {
    if v.Str? then IsoDate.ParseDate(Some(v.s)) else None
  }

  /** What the URL of a record leads to. */
  datatype UrlStatus = Missing | Text(url: string) | NotText(value: Value)

  function UrlOf(raw: RawJob): UrlStatus
  {
    var v := Get(raw, "url");
    if !Truthy(v) then Missing
    else if v.Str? then Text(v.s)
    else NotText(v)
  }

  /** `job_dict`, built from a record whose URL is `url`. */
  function JobDict(raw: RawJob, url: string): (r: Result<JobFields, Failure>)
    ensures r.Ok? ==> r.value.url == url
  {
    var minSalary := SalaryColumn(raw, "min_annual_salary");
    var maxSalary := SalaryColumn(raw, "max_annual_salary");
    if minSalary.Err? then Err(minSalary.error)
    else if maxSalary.Err? then Err(maxSalary.error)
    else Ok(JobFields(
      source := Get(raw, "source"),
      jobTitle := Get(raw, "job_title"),
      companyName := Get(raw, "company_name"),
      location := Get(raw, "location"),
      city := Get(raw, "city"),
      state := Get(raw, "state"),
      country := Get(raw, "country"),
      isRemote := GetOr(raw, "is_remote", Bool(false)),
      isHybrid := GetOr(raw, "is_hybrid", Bool(false)),
      workType := Get(raw, "work_type"),
      salaryRange := Get(raw, "salary_range"),
      minAnnualSalary := minSalary.value,
      maxAnnualSalary := maxSalary.value,
      postedDate := PostedDateColumn(Get(raw, "posted_date")),
      jobDescription := Get(raw, "job_description"),
      url := url))
  }

  /** A record that does not fail the batch by itself. */
  predicate RecordOk(raw: RawJob)
  {
    match UrlOf(raw)
    case Missing => true
    case NotText(_) => false
    case Text(u) => JobDict(raw, u).Ok?
  }

  /** `Job(**job_dict)`: `classification` stays NULL and `created_at` takes
      the database time. */
  function NewJob(f: JobFields, now: nat): Job
  {
    Job(f, None, now)
  }

  /** The records with their `source` key set, as the two tagging loops do. */
  function Tagged(data: seq<RawJob>, source: string): (tagged: seq<RawJob>)
    ensures |tagged| == |data|
  {
    seq(|data|, i requires 0 <= i < |data| => data[i]["source" := Str(source)])
  }

  /** The session's state part-way through the batch: the committed rows
      with the updates made to them so far, the rows added, and the three
      counters. */
  datatype Pending = Pending(rows: map<string, Job>, added: seq<Job>, processed: nat, inserted: nat, updated: nat)

  /** One pass of the loop body; `db` is the committed table the lookup
      sees. */
  function Step(db: map<string, Job>, p: Pending, raw: RawJob, now: nat): (r: Result<Pending, Failure>)
    requires p.rows.Keys == db.Keys
    ensures r.Ok? ==> r.value.rows.Keys == db.Keys
  {
    var p1 := p.(processed := p.processed + 1);
    match UrlOf(raw)
    case Missing => Ok(p1)
    case NotText(v) => Err(UrlNotText(v))
    case Text(url) =>
      match JobDict(raw, url)
      case Err(e) => Err(e)
      case Ok(f) =>
        if url in db then
          Ok(p1.(rows := p1.rows[url := p1.rows[url].(fields := f)], updated := p1.updated + 1))
        else
          Ok(p1.(added := p1.added + [NewJob(f, now)], inserted := p1.inserted + 1))
  }

  /** The loop over the records `jobs`, stopped by the first failure. */
  function Run(db: map<string, Job>, jobs: seq<RawJob>, now: nat): (r: Result<Pending, Failure>)
    ensures r.Ok? ==> r.value.rows.Keys == db.Keys
  {
    if jobs == [] then Ok(Pending(db, [], 0, 0, 0))
    else match Run(db, jobs[..|jobs| - 1], now)
      case Err(e) => Err(e)
      case Ok(p) => Step(db, p, jobs[|jobs| - 1], now)
  }

  /** No two added rows share a URL. */
  predicate DistinctUrls(added: seq<Job>)
  {
    forall i, j :: 0 <= i < j < |added| ==> added[i].fields.url != added[j].fields.url
  }

  /** The table after the commit: the updated rows and the added ones. */
  function WithInserts(rows: map<string, Job>, added: seq<Job>): map<string, Job>
  {
    if added == [] then rows
    else
      var last := added[|added| - 1];
      WithInserts(rows, added[..|added| - 1])[last.fields.url := last]
  }

  /** What the run logs, or that it had nothing to do. */
  datatype Report = NothingToIngest | Committed(processed: nat, inserted: nat, updated: nat) | RolledBack(failure: Failure)

  /** `seek_data + jobsearch_data` after tagging. */
  function AllJobs(seekData: seq<RawJob>, jobsearchData: seq<RawJob>): seq<RawJob>
  {
    Tagged(seekData, "seek") + Tagged(jobsearchData, "jobsearch")
  }

  /** `ingest_data` on a table `db`: the report and the table afterwards. */
  function Ingest(db: map<string, Job>, seekData: seq<RawJob>, jobsearchData: seq<RawJob>, now: nat): (Report, map<string, Job>)
  {
    var all := AllJobs(seekData, jobsearchData);
    if all == [] then (NothingToIngest, db)
    else match Run(db, all, now)
      case Err(e) => (RolledBack(e), db)
      case Ok(p) =>
        if !DistinctUrls(p.added) then (RolledBack(DuplicateUrl), db)
        else (Committed(p.processed, p.inserted, p.updated), WithInserts(p.rows, p.added))
  }

  /** Every row is filed under its own URL. */
  predicate KeyedByUrl(rows: map<string, Job>)
  {
    forall u :: u in rows ==> rows[u].fields.url == u
  }

  /** The `jobs` table. */
  class JobStore {
    var rows: map<string, Job>

    ghost predicate Valid()
      reads this
    {
      KeyedByUrl(rows)
    }

    constructor()
      ensures rows == map[] && Valid()
    {
      rows := map[];
    }

    /** `ingest_data`, with the two loaded files and the database time as
        parameters. */
    method IngestData(seekData: seq<RawJob>, jobsearchData: seq<RawJob>, now: nat) returns (report: Report)
      requires Valid()
      modifies this
      ensures (report, rows) == Ingest(old(rows), seekData, jobsearchData, now)
      ensures Valid()
    {
      var seek := TagSource(seekData, "seek");
      var jobsearch := TagSource(jobsearchData, "jobsearch");
      var all := seek + jobsearch;
      if all == [] {
        return NothingToIngest;
      }
      var staged := Stage(all, now);
      if staged.Err? {
        return RolledBack(staged.error);
      }
      var session := staged.value;
      if !DistinctUrls(session.added) {
        return RolledBack(DuplicateUrl);
      }
      IngestKeepsKeyedByUrl(rows, seekData, jobsearchData, now);
      rows := WithInserts(session.rows, session.added);
      report := Committed(session.processed, session.inserted, session.updated);
    }

    /** The loop of `ingest_data` up to the commit: the session's updates to
        loaded rows, the rows it adds and the counters, or the exception that
        ends it. */
    method Stage(all: seq<RawJob>, now: nat) returns (outcome: Result<Pending, Failure>)
      ensures outcome == Run(rows, all, now)
    {
      // the rows the session has loaded and changed, the rows added to it
      var session, added := rows, [];
      var processed, inserted, updated := 0, 0, 0;
      var i := 0;
      while i < |all|
        invariant i <= |all|
        invariant Run(rows, all[..i], now) == Ok(Pending(session, added, processed, inserted, updated))
      {
        var job := all[i];
        ghost var before := Pending(session, added, processed, inserted, updated);
        assert all[..i + 1][..i] == all[..i];
        assert Run(rows, all[..i + 1], now) == Step(rows, before, job, now);
        processed := processed + 1;
        var url := UrlOf(job);
        if url.NotText? {
          RunStaysFailed(rows, all, i + 1, now);
          return Err(UrlNotText(url.value));
        }
        if url.Text? {
          var existing := url.url in rows;
          var jobDict := JobDict(job, url.url);
          if jobDict.Err? {
            RunStaysFailed(rows, all, i + 1, now);
            return Err(jobDict.error);
          }
          if existing {
            session := session[url.url := session[url.url].(fields := jobDict.value)];
            updated := updated + 1;
          } else {
            added := added + [NewJob(jobDict.value, now)];
            inserted := inserted + 1;
          }
        }
        assert Step(rows, before, job, now) == Ok(Pending(session, added, processed, inserted, updated));
        i := i + 1;
      }
      assert all[..i] == all;
      return Ok(Pending(session, added, processed, inserted, updated));
    }
  }

  /** The two tagging loops: `job['source'] = source` for every record. */
  method TagSource(data: seq<RawJob>, source: string) returns (tagged: seq<RawJob>)
    ensures tagged == Tagged(data, source)
  {
    tagged := [];
    for i := 0 to |data|
      invariant tagged == Tagged(data[..i], source)
    {
      tagged := tagged + [data[i]["source" := Str(source)]];
    }
    assert data[..|data|] == data;
  }

  /** Once a prefix of the batch fails, the whole batch does. */
  lemma {:induction false} RunStaysFailed(db: map<string, Job>, jobs: seq<RawJob>, n: nat, now: nat)
    requires n <= |jobs| && Run(db, jobs[..n], now).Err?
    ensures Run(db, jobs, now) == Run(db, jobs[..n], now)
    decreases |jobs| - n
  {
    if n < |jobs| {
      assert jobs[..n + 1][..n] == jobs[..n];
      RunStaysFailed(db, jobs, n + 1, now);
    } else {
      assert jobs[..n] == jobs;
    }
  }

  // Reference definitions: what the batch leaves in the table, and how many
  // records of each kind it holds, stated per URL and per record.

  /** The last record of `jobs` whose URL is `u`. */
  function LastRecord(jobs: seq<RawJob>, u: string): (r: Option<RawJob>)
    ensures r.Some? ==> UrlOf(r.value) == Text(u) && r.value in jobs
  {
    if jobs == [] then None
    else if UrlOf(jobs[|jobs| - 1]) == Text(u) then Some(jobs[|jobs| - 1])
    else LastRecord(jobs[..|jobs| - 1], u)
  }

  /** The row a committed batch leaves for `u`: the last record naming `u`
      written over the old row, or a new row made from that record, or the
      old row (or none) when no record names `u`. */
  function ExpectedRow(db: map<string, Job>, jobs: seq<RawJob>, now: nat, u: string): Option<Job>
  {
    match LastRecord(jobs, u)
    case None => if u in db then Some(db[u]) else None
    case Some(r) =>
      match JobDict(r, u)
      case Err(_) => None
      case Ok(f) => Some(if u in db then db[u].(fields := f) else NewJob(f, now))
  }

  /** The table holds exactly the expected rows. */
  ghost predicate TableIs(t: map<string, Job>, db: map<string, Job>, jobs: seq<RawJob>, now: nat)
  {
    forall u :: (u in t <==> ExpectedRow(db, jobs, now, u).Some?) &&
      (u in t ==> Some(t[u]) == ExpectedRow(db, jobs, now, u))
  }

  /** The last added row whose URL is `u`. */
  function LastAdded(added: seq<Job>, u: string): (r: Option<Job>)
    ensures r.Some? ==> r.value.fields.url == u
  {
    if added == [] then None
    else if added[|added| - 1].fields.url == u then Some(added[|added| - 1])
    else LastAdded(added[..|added| - 1], u)
  }

  /** Records skipped for a missing URL, records naming a URL of the table,
      records naming a URL new to it. */
  function CountMissing(jobs: seq<RawJob>): nat
  {
    if jobs == [] then 0
    else CountMissing(jobs[..|jobs| - 1]) + if UrlOf(jobs[|jobs| - 1]).Missing? then 1 else 0
  }

  function CountKnown(db: map<string, Job>, jobs: seq<RawJob>): nat
  {
    if jobs == [] then 0
    else
      var url := UrlOf(jobs[|jobs| - 1]);
      CountKnown(db, jobs[..|jobs| - 1]) + if url.Text? && url.url in db then 1 else 0
  }

  function CountFresh(db: map<string, Job>, jobs: seq<RawJob>): nat
  {
    if jobs == [] then 0
    else
      var url := UrlOf(jobs[|jobs| - 1]);
      CountFresh(db, jobs[..|jobs| - 1]) + if url.Text? && url.url !in db then 1 else 0
  }

  /** Records naming `u`. */
  function CountUrl(jobs: seq<RawJob>, u: string): nat
  {
    if jobs == [] then 0
    else CountUrl(jobs[..|jobs| - 1], u) + if UrlOf(jobs[|jobs| - 1]) == Text(u) then 1 else 0
  }

  /** Added rows whose URL is `u`. */
  function CountAdded(added: seq<Job>, u: string): nat
  {
    if added == [] then 0
    else CountAdded(added[..|added| - 1], u) + if added[|added| - 1].fields.url == u then 1 else 0
  }

  /** A record passes the loop body exactly when it does not fail on its
      own. */
  lemma StepOkIff(db: map<string, Job>, p: Pending, raw: RawJob, now: nat)
    requires p.rows.Keys == db.Keys
    ensures Step(db, p, raw, now).Ok? <==> RecordOk(raw)
  {
  }

  /** The batch gets through the loop exactly when no record fails on its
      own. */
  lemma {:induction false} RunOkIff(db: map<string, Job>, jobs: seq<RawJob>, now: nat)
    ensures Run(db, jobs, now).Ok? <==> forall k :: 0 <= k < |jobs| ==> RecordOk(jobs[k])
  {
    if jobs != [] {
      var prefix := jobs[..|jobs| - 1];
      RunOkIff(db, prefix, now);
      assert forall k :: 0 <= k < |prefix| ==> prefix[k] == jobs[k];
      if Run(db, prefix, now).Err? {
        var k :| 0 <= k < |prefix| && !RecordOk(prefix[k]);
        assert !RecordOk(jobs[k]);
      } else {
        StepOkIff(db, Run(db, prefix, now).value, jobs[|jobs| - 1], now);
      }
    }
  }

  /** The counters of a batch that gets through the loop. */
  lemma {:induction false} RunCounts(db: map<string, Job>, jobs: seq<RawJob>, now: nat)
    requires Run(db, jobs, now).Ok?
    ensures var p := Run(db, jobs, now).value;
      p.processed == |jobs| && p.inserted == |p.added| &&
      p.inserted == CountFresh(db, jobs) && p.updated == CountKnown(db, jobs) &&
      p.processed == CountMissing(jobs) + p.inserted + p.updated
  {
    if jobs != [] {
      RunCounts(db, jobs[..|jobs| - 1], now);
    }
  }

  /** A record naming `v` leaves the last record of every other URL as it
      was. */
  lemma LastRecordOthers(jobs: seq<RawJob>, v: UrlStatus)
    requires jobs != [] && UrlOf(jobs[|jobs| - 1]) == v
    ensures forall u :: Text(u) != v ==> LastRecord(jobs, u) == LastRecord(jobs[..|jobs| - 1], u)
  {
  }

  /** Per URL of the table, the row a batch that gets through the loop has
      left in the session. */
  lemma {:induction false} RunUpdates(db: map<string, Job>, jobs: seq<RawJob>, now: nat)
    requires Run(db, jobs, now).Ok?
    ensures var p := Run(db, jobs, now).value;
      forall u :: u in db ==> Some(p.rows[u]) == ExpectedRow(db, jobs, now, u)
  {
    if jobs != [] {
      var prefix, r := jobs[..|jobs| - 1], jobs[|jobs| - 1];
      RunUpdates(db, prefix, now);
      LastRecordOthers(jobs, UrlOf(r));
      var p := Run(db, prefix, now).value;
      StepRows(db, p, r, now);
      var q := Step(db, p, r, now).value;
      forall u | u in db
        ensures Some(q.rows[u]) == ExpectedRow(db, jobs, now, u)
      {
        if UrlOf(r) == Text(u) {
          assert LastRecord(jobs, u) == Some(r);
          assert p.rows[u].classification == db[u].classification && p.rows[u].createdAt == db[u].createdAt;
        }
      }
    }
  }

  /** Per URL new to the table, the last row a batch that gets through the
      loop has added. */
  lemma {:induction false} RunAdds(db: map<string, Job>, jobs: seq<RawJob>, now: nat)
    requires Run(db, jobs, now).Ok?
    ensures var p := Run(db, jobs, now).value;
      forall u :: u !in db ==> LastAdded(p.added, u) == ExpectedRow(db, jobs, now, u)
    ensures var p := Run(db, jobs, now).value;
      forall u :: u in db ==> LastAdded(p.added, u) == None
  {
    if jobs != [] {
      var prefix, r := jobs[..|jobs| - 1], jobs[|jobs| - 1];
      RunAdds(db, prefix, now);
      LastRecordOthers(jobs, UrlOf(r));
      var p := Run(db, prefix, now).value;
      StepAdds(db, p, r, now);
      var q := Step(db, p, r, now).value;
      forall u | u !in db
        ensures LastAdded(q.added, u) == ExpectedRow(db, jobs, now, u)
      {
        if UrlOf(r) == Text(u) {
          assert LastRecord(jobs, u) == Some(r);
        } else {
          assert ExpectedRow(db, jobs, now, u) == ExpectedRow(db, prefix, now, u);
        }
      }
    }
  }

  /** Adding rows in order leaves, for each URL, the last one added. */
  lemma {:induction false} WithInsertsAt(rows: map<string, Job>, added: seq<Job>, u: string)
    ensures u in WithInserts(rows, added) <==> u in rows || LastAdded(added, u).Some?
    ensures u in WithInserts(rows, added) ==>
      WithInserts(rows, added)[u] == if LastAdded(added, u).Some? then LastAdded(added, u).value else rows[u]
  {
    if added != [] {
      WithInsertsAt(rows, added[..|added| - 1], u);
    }
  }

  /** A committed batch leaves exactly the expected rows: for every URL the
      batch names, the last record naming it, over the old row (keeping its
      `classification` and `created_at`) or as a new row; every other row as
      it was. */
  lemma CommittedTable(db: map<string, Job>, seekData: seq<RawJob>, jobsearchData: seq<RawJob>, now: nat)
    requires Ingest(db, seekData, jobsearchData, now).0.Committed?
    ensures TableIs(Ingest(db, seekData, jobsearchData, now).1, db, AllJobs(seekData, jobsearchData), now)
  {
    var all := AllJobs(seekData, jobsearchData);
    var p := Run(db, all, now).value;
    RunUpdates(db, all, now);
    RunAdds(db, all, now);
    forall u: string
      ensures var t := WithInserts(p.rows, p.added);
        (u in t <==> ExpectedRow(db, all, now, u).Some?) && (u in t ==> Some(t[u]) == ExpectedRow(db, all, now, u))
    {
      WithInsertsAt(p.rows, p.added, u);
    }
  }

  /** The counters of a committed batch: every record is processed, the
      records naming a new URL are inserted, those naming a URL of the table
      are updated, and the rest are the records skipped for want of a URL. */
  lemma CommittedCounts(db: map<string, Job>, seekData: seq<RawJob>, jobsearchData: seq<RawJob>, now: nat)
    requires Ingest(db, seekData, jobsearchData, now).0.Committed?
    ensures var report, all := Ingest(db, seekData, jobsearchData, now).0, AllJobs(seekData, jobsearchData);
      report.processed == |seekData| + |jobsearchData| &&
      report.inserted == CountFresh(db, all) && report.updated == CountKnown(db, all) &&
      report.processed == CountMissing(all) + report.inserted + report.updated
  {
    RunCounts(db, AllJobs(seekData, jobsearchData), now);
  }

  /** Nothing happens for two empty files, and only then. */
  lemma NothingToIngestIff(db: map<string, Job>, seekData: seq<RawJob>, jobsearchData: seq<RawJob>, now: nat)
    ensures Ingest(db, seekData, jobsearchData, now).0 == NothingToIngest <==> seekData == [] && jobsearchData == []
    ensures Ingest(db, seekData, jobsearchData, now).0 == NothingToIngest ==> Ingest(db, seekData, jobsearchData, now).1 == db
  {
    if seekData != [] || jobsearchData != [] {
      assert |AllJobs(seekData, jobsearchData)| > 0;
    }
  }

  /** One failing record (a URL that is not a string, a salary `float`
      rejects) rolls the whole batch back. */
  lemma FailingRecordRollsBack(db: map<string, Job>, seekData: seq<RawJob>, jobsearchData: seq<RawJob>, now: nat, k: nat)
    requires k < |AllJobs(seekData, jobsearchData)| && !RecordOk(AllJobs(seekData, jobsearchData)[k])
    ensures Ingest(db, seekData, jobsearchData, now).0.RolledBack?
    ensures Ingest(db, seekData, jobsearchData, now).1 == db
  {
    RunOkIff(db, AllJobs(seekData, jobsearchData), now);
  }

  lemma {:induction false} CountUrlOne(jobs: seq<RawJob>, k: nat, u: string)
    requires k < |jobs| && UrlOf(jobs[k]) == Text(u)
    ensures CountUrl(jobs, u) >= 1
  {
    if k < |jobs| - 1 {
      CountUrlOne(jobs[..|jobs| - 1], k, u);
    }
  }

  lemma {:induction false} CountUrlTwo(jobs: seq<RawJob>, i: nat, j: nat, u: string)
    requires i < j < |jobs| && UrlOf(jobs[i]) == Text(u) && UrlOf(jobs[j]) == Text(u)
    ensures CountUrl(jobs, u) >= 2
  {
    var prefix := jobs[..|jobs| - 1];
    if j < |jobs| - 1 {
      CountUrlTwo(prefix, i, j, u);
    } else {
      CountUrlOne(prefix, i, u);
    }
  }

  /** A record adds one row exactly when it names a URL new to the table,
      and that row carries its URL. */
  lemma StepAdds(db: map<string, Job>, p: Pending, raw: RawJob, now: nat)
    requires p.rows.Keys == db.Keys && Step(db, p, raw, now).Ok?
    ensures var q := Step(db, p, raw, now).value;
      match UrlOf(raw)
      case Text(v) =>
        JobDict(raw, v).Ok? &&
        if v in db then q.added == p.added
        else q.added == p.added + [NewJob(JobDict(raw, v).value, now)]
      case _ => q.added == p.added
  {
  }

  /** The same, only as far as the URLs of the added rows go. */
  lemma StepAddedUrl(db: map<string, Job>, p: Pending, raw: RawJob, now: nat)
    requires p.rows.Keys == db.Keys && Step(db, p, raw, now).Ok?
    ensures var q := Step(db, p, raw, now).value;
      if UrlOf(raw).Text? && UrlOf(raw).url !in db then
        |q.added| == |p.added| + 1 && q.added[..|p.added|] == p.added && q.added[|p.added|].fields.url == UrlOf(raw).url
      else q.added == p.added
  {
  }

  /** A record changes the session's copy of a row exactly when it names a
      URL of the table. */
  lemma StepRows(db: map<string, Job>, p: Pending, raw: RawJob, now: nat)
    requires p.rows.Keys == db.Keys && Step(db, p, raw, now).Ok?
    ensures var q := Step(db, p, raw, now).value;
      match UrlOf(raw)
      case Text(v) =>
        JobDict(raw, v).Ok? &&
        if v in db then q.rows == p.rows[v := p.rows[v].(fields := JobDict(raw, v).value)]
        else q.rows == p.rows
      case _ => q.rows == p.rows
  {
  }

  /** For a URL new to the table, every record naming it adds a row. */
  lemma {:induction false} RunAddedCount(db: map<string, Job>, jobs: seq<RawJob>, now: nat, u: string)
    requires Run(db, jobs, now).Ok? && u !in db
    ensures CountAdded(Run(db, jobs, now).value.added, u) == CountUrl(jobs, u)
  {
    if jobs != [] {
      var prefix := jobs[..|jobs| - 1];
      RunAddedCount(db, prefix, now, u);
      var p := Run(db, prefix, now).value;
      var q := Step(db, p, jobs[|jobs| - 1], now).value;
      StepAddedUrl(db, p, jobs[|jobs| - 1], now);
      if q.added != p.added {
        assert q.added[..|q.added| - 1] == p.added;
      }
    }
  }

  lemma {:induction false} DistinctCount(added: seq<Job>, u: string)
    requires DistinctUrls(added)
    ensures CountAdded(added, u) <= 1
  {
    if added != [] {
      var prefix := added[..|added| - 1];
      DistinctCount(prefix, u);
      if added[|added| - 1].fields.url == u {
        NoneAdded(prefix, u);
      }
    }
  }

  lemma {:induction false} NoneAdded(added: seq<Job>, u: string)
    requires forall k :: 0 <= k < |added| ==> added[k].fields.url != u
    ensures CountAdded(added, u) == 0
  {
    if added != [] {
      NoneAdded(added[..|added| - 1], u);
    }
  }

  /** Two records naming the same URL new to the table roll the whole batch
      back: the session does not see its own pending rows, so both are
      inserted and the unique constraint fails at commit. */
  lemma DuplicateNewUrlRollsBack(db: map<string, Job>, seekData: seq<RawJob>, jobsearchData: seq<RawJob>, now: nat, i: nat, j: nat, u: string)
    requires var all := AllJobs(seekData, jobsearchData);
      i < j < |all| && UrlOf(all[i]) == Text(u) && UrlOf(all[j]) == Text(u) && u !in db
    ensures Ingest(db, seekData, jobsearchData, now).0.RolledBack?
    ensures Ingest(db, seekData, jobsearchData, now).1 == db
  {
    var all := AllJobs(seekData, jobsearchData);
    if Run(db, all, now).Ok? {
      var p := Run(db, all, now).value;
      RunAddedCount(db, all, now, u);
      CountUrlTwo(all, i, j, u);
      if DistinctUrls(p.added) {
        DistinctCount(p.added, u);
      }
    }
  }

  /** Every table the batch leaves is still filed by URL. */
  lemma IngestKeepsKeyedByUrl(db: map<string, Job>, seekData: seq<RawJob>, jobsearchData: seq<RawJob>, now: nat)
    requires KeyedByUrl(db)
    ensures KeyedByUrl(Ingest(db, seekData, jobsearchData, now).1)
  {
    if Ingest(db, seekData, jobsearchData, now).0.Committed? {
      CommittedTable(db, seekData, jobsearchData, now);
    }
  }

  /** Tagging sets `source` and nothing else: the URL is unchanged. */
  lemma TaggedRecord(data: seq<RawJob>, source: string, k: nat)
    requires k < |data|
    ensures Tagged(data, source)[k]["source"] == Str(source)
    ensures UrlOf(Tagged(data, source)[k]) == UrlOf(data[k])
  {
  }

  /** A record naming `u` makes the last record for `u` some record. */
  lemma {:induction false} LastRecordExists(jobs: seq<RawJob>, k: nat, u: string)
    requires k < |jobs| && UrlOf(jobs[k]) == Text(u)
    ensures LastRecord(jobs, u).Some?
  {
    if k < |jobs| - 1 && UrlOf(jobs[|jobs| - 1]) != Text(u) {
      LastRecordExists(jobs[..|jobs| - 1], k, u);
    }
  }

  /** The last record for `u` in `a + b` is the one in `b` when there is one. */
  lemma {:induction false} LastRecordConcat(a: seq<RawJob>, b: seq<RawJob>, u: string)
    requires LastRecord(b, u).Some?
    ensures LastRecord(a + b, u) == LastRecord(b, u)
  {
    var ab := a + b;
    assert ab[|ab| - 1] == b[|b| - 1];
    if UrlOf(b[|b| - 1]) != Text(u) {
      assert ab[..|ab| - 1] == a + b[..|b| - 1];
      LastRecordConcat(a, b[..|b| - 1], u);
    }
  }

  /** A URL found in the jobsearch file has its last record there, tagged
      "jobsearch". */
  lemma JobsearchLast(seekData: seq<RawJob>, jobsearchData: seq<RawJob>, u: string, k: nat)
    requires k < |jobsearchData| && UrlOf(jobsearchData[k]) == Text(u)
    ensures var r := LastRecord(AllJobs(seekData, jobsearchData), u);
      r == LastRecord(Tagged(jobsearchData, "jobsearch"), u) && r.Some? && Get(r.value, "source") == Str("jobsearch")
  {
    var js := Tagged(jobsearchData, "jobsearch");
    TaggedRecord(jobsearchData, "jobsearch", k);
    LastRecordExists(js, k, u);
    LastRecordConcat(Tagged(seekData, "seek"), js, u);
    var i :| 0 <= i < |js| && js[i] == LastRecord(js, u).value;
    TaggedRecord(jobsearchData, "jobsearch", i);
  }

  /** The last record of a batch that gets through the loop does not fail. */
  lemma LastRecordOk(db: map<string, Job>, jobs: seq<RawJob>, now: nat, u: string)
    requires Run(db, jobs, now).Ok? && LastRecord(jobs, u).Some?
    ensures JobDict(LastRecord(jobs, u).value, u).Ok?
  {
    RunOkIff(db, jobs, now);
    var i :| 0 <= i < |jobs| && jobs[i] == LastRecord(jobs, u).value;
    assert RecordOk(jobs[i]);
  }

  /** A URL found in the jobsearch file ends with the jobsearch record's
      columns, whatever the seek file says about it. */
  lemma JobsearchWins(db: map<string, Job>, seekData: seq<RawJob>, jobsearchData: seq<RawJob>, now: nat, u: string, k: nat)
    requires Ingest(db, seekData, jobsearchData, now).0.Committed?
    requires k < |jobsearchData| && UrlOf(jobsearchData[k]) == Text(u)
    ensures var t := Ingest(db, seekData, jobsearchData, now).1;
      var r := LastRecord(Tagged(jobsearchData, "jobsearch"), u);
      u in t && r.Some? && JobDict(r.value, u).Ok? &&
      t[u].fields == JobDict(r.value, u).value && t[u].fields.source == Str("jobsearch")
  {
    JobsearchLast(seekData, jobsearchData, u, k);
    LastRecordOk(db, AllJobs(seekData, jobsearchData), now, u);
    CommittedTable(db, seekData, jobsearchData, now);
  }

  /** When every record naming a URL names one of the table, there is nothing
      to insert and every such record updates. */
  lemma {:induction false} CountsWhenAllKnown(t: map<string, Job>, db: map<string, Job>, jobs: seq<RawJob>)
    requires forall k, u :: 0 <= k < |jobs| && UrlOf(jobs[k]) == Text(u) ==> u in t
    ensures CountFresh(t, jobs) == 0
    ensures CountKnown(t, jobs) == CountKnown(db, jobs) + CountFresh(db, jobs)
  {
    if jobs != [] {
      var prefix := jobs[..|jobs| - 1];
      assert forall k :: 0 <= k < |prefix| ==> prefix[k] == jobs[k];
      CountsWhenAllKnown(t, db, prefix);
    }
  }

  /** After a commit, every URL the batch names is in the table. */
  lemma AllUrlsKept(db: map<string, Job>, seekData: seq<RawJob>, jobsearchData: seq<RawJob>, now: nat)
    requires Ingest(db, seekData, jobsearchData, now).0.Committed?
    ensures var all, t := AllJobs(seekData, jobsearchData), Ingest(db, seekData, jobsearchData, now).1;
      forall k, u :: 0 <= k < |all| && UrlOf(all[k]) == Text(u) ==> u in t
  {
    var all := AllJobs(seekData, jobsearchData);
    CommittedTable(db, seekData, jobsearchData, now);
    forall k, u | 0 <= k < |all| && UrlOf(all[k]) == Text(u)
      ensures u in Ingest(db, seekData, jobsearchData, now).1
    {
      LastRecordExists(all, k, u);
      LastRecordOk(db, all, now, u);
    }
  }

  /** Run again over the table it produced, a batch leaves every row as it
      is: each record writes the columns the row already holds. */
  lemma SecondRunRows(db: map<string, Job>, all: seq<RawJob>, now: nat, t: map<string, Job>, later: nat)
    requires Run(db, all, now).Ok? && Run(t, all, later).Ok?
    requires TableIs(t, db, all, now)
    ensures Run(t, all, later).value.rows == t
  {
    var q := Run(t, all, later).value;
    RunUpdates(t, all, later);
    forall u | u in t
      ensures q.rows[u] == t[u]
    {
      if LastRecord(all, u).Some? {
        LastRecordOk(db, all, now, u);
      }
    }
  }

  /** The loop run again over the table it produced: no row added, the
      table as it was, every record that inserted or updated now updating. */
  lemma SecondRun(db: map<string, Job>, all: seq<RawJob>, now: nat, t: map<string, Job>, later: nat)
    requires Run(db, all, now).Ok? && Run(t, all, later).Ok?
    requires TableIs(t, db, all, now)
    requires forall k, u :: 0 <= k < |all| && UrlOf(all[k]) == Text(u) ==> u in t
    ensures var p, q := Run(db, all, now).value, Run(t, all, later).value;
      q.rows == t && q.added == [] && q.inserted == 0 &&
      q.processed == p.processed && q.updated == p.inserted + p.updated
  {
    SecondRunRows(db, all, now, t, later);
    RunCounts(db, all, now);
    RunCounts(t, all, later);
    CountsWhenAllKnown(t, db, all);
  }

  /** Running the same files again, at any later time, updates every record
      it inserted or updated, inserts nothing, and leaves the table as it
      was. */
  lemma ReIngestUpdatesOnly(db: map<string, Job>, seekData: seq<RawJob>, jobsearchData: seq<RawJob>, now: nat, later: nat)
    requires Ingest(db, seekData, jobsearchData, now).0.Committed?
    ensures var first := Ingest(db, seekData, jobsearchData, now);
      Ingest(first.1, seekData, jobsearchData, later) ==
        (Committed(first.0.processed, 0, first.0.inserted + first.0.updated), first.1)
  {
    var all := AllJobs(seekData, jobsearchData);
    var p := Run(db, all, now).value;
    var t := WithInserts(p.rows, p.added);
    CommittedTable(db, seekData, jobsearchData, now);
    AllUrlsKept(db, seekData, jobsearchData, now);
    RunOkIff(db, all, now);
    RunOkIff(t, all, later);
    SecondRun(db, all, now, t, later);
    assert Ingest(db, seekData, jobsearchData, now) == (Committed(p.processed, p.inserted, p.updated), t);
    var q := Run(t, all, later).value;
    assert WithInserts(q.rows, q.added) == t;
    assert Ingest(t, seekData, jobsearchData, later) == (Committed(q.processed, q.inserted, q.updated), t);
  }

  /** How a record's values become `job_dict` entries: a falsy salary is
      `None` (a zero as well), a truthy one is `float` of it; `is_remote`
      and `is_hybrid` become false only when their key is absent, so an
      explicit null stays `None` in `job_dict`. The column defaults the
      database layer applies to `None` values on insert are not modelled. */
  lemma ColumnRules(raw: RawJob, u: string)
    requires JobDict(raw, u).Ok?
    ensures var f := JobDict(raw, u).value;
      (f.minAnnualSalary.None? <==> !Truthy(Get(raw, "min_annual_salary"))) &&
      (f.minAnnualSalary.Some? ==> ToFloat(Get(raw, "min_annual_salary")) == f.minAnnualSalary) &&
      (f.maxAnnualSalary.None? <==> !Truthy(Get(raw, "max_annual_salary"))) &&
      (f.maxAnnualSalary.Some? ==> ToFloat(Get(raw, "max_annual_salary")) == f.maxAnnualSalary)
    ensures var f := JobDict(raw, u).value;
      ("is_remote" !in raw ==> f.isRemote == Bool(false)) && ("is_remote" in raw ==> f.isRemote == raw["is_remote"]) &&
      ("is_hybrid" !in raw ==> f.isHybrid == Bool(false)) && ("is_hybrid" in raw ==> f.isHybrid == raw["is_hybrid"])
  {
  }

  /** An update writes every column of `job_dict`, so a key missing from the
      new record empties the column, while `classification` and
      `created_at` are kept. */
  lemma UpdateOverwrites(db: map<string, Job>, seekData: seq<RawJob>, jobsearchData: seq<RawJob>, now: nat, u: string)
    requires Ingest(db, seekData, jobsearchData, now).0.Committed?
    requires u in db
    requires var r := LastRecord(AllJobs(seekData, jobsearchData), u); r.Some? && "job_title" !in r.value
    ensures var t := Ingest(db, seekData, jobsearchData, now).1;
      u in t && t[u].fields.jobTitle == Null &&
      t[u].classification == db[u].classification && t[u].createdAt == db[u].createdAt
  {
    var all := AllJobs(seekData, jobsearchData);
    var r := LastRecord(all, u).value;
    var i :| 0 <= i < |all| && all[i] == r;
    RunOkIff(db, all, now);
    assert RecordOk(all[i]);
    CommittedTable(db, seekData, jobsearchData, now);
  }

  /** `float` of a plain digit string is the number it spells. */
  lemma ParseFloatDigits(s: string)
    requires s != [] && AllDigits(s)
    ensures ParseFloat(s) == Some(DigitsValue(s) as real)
  {
    SpacesEndAt(s, 0, 0);
    DigitsEndAt(s, 0, |s|);
    SpacesEndAt(s, |s|, |s|);
    assert s[0..|s|] == s;
  }
}
