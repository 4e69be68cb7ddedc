/// The job-lifecycle correlator of ingestion/listener.py: the stable job
/// identity, the RUNNING and FINISH handlers over the `jobs` table, and the
/// throttled message dispatcher in front of them.
module Ingestion {
  import opened PyValues
  import opened Throttle
  import opened PrinterReport

  // ---------------------------------------------------------------------------
  // Identity
  // ---------------------------------------------------------------------------

  /** A cloud task id is usable when it is truthy and its text is not one of
      the "unset" sentinels -1 and 0. */
  predicate IsCloudTaskId(v: Value) {
    Truthy(v) && ToStr(v) != "-1" && ToStr(v) != "0"
  }

  /** get_stable_job_id: the cloud task id, else `<name>_<seconds>` from the
      local start stamp, else `unknown_<name>`. None where float() raises on a
      truthy but malformed start stamp (the exception escapes the handler). */
  function StableJobId(p: PrintSection): (r: Option<string>)
    ensures IsCloudTaskId(TaskId(p)) ==> r == Some(ToStr(TaskId(p)))
    ensures r.None? <==>
      !IsCloudTaskId(TaskId(p)) && Truthy(StartStamp(p)) && TruncSeconds(StartStamp(p)).None?
  {
    var filename := ToStr(DisplayName(p));
    if IsCloudTaskId(TaskId(p)) then Some(ToStr(TaskId(p)))
    else if Truthy(StartStamp(p)) then
      match TruncSeconds(StartStamp(p))
      case Some(t) => Some(filename + "_" + IntToString(t))
      case None => None
    else Some("unknown_" + filename)
  }

  lemma StampedShape(name: string, t: int)
    ensures var s := name + "_" + IntToString(t);
      && s[..|name|] == name && s[|name|] == '_' && s[|name| + 1..] == IntToString(t)
      && forall j :: |name| < j < |s| ==> s[j] != '_'
  {
    IntToStringChars(t);
    var s := name + "_" + IntToString(t);
    assert forall j :: |name| < j < |s| ==> s[j] == IntToString(t)[j - |name| - 1];
  }

  /** `<name>_<seconds>` determines both the name and the second: the stamp
      text has no underscore, so the last one separates them. */
  lemma StampedIdentityInjective(n1: string, t1: int, n2: string, t2: int)
    ensures n1 + "_" + IntToString(t1) == n2 + "_" + IntToString(t2) <==> n1 == n2 && t1 == t2
  {
    StampedShape(n1, t1);
    StampedShape(n2, t2);
    if n1 + "_" + IntToString(t1) == n2 + "_" + IntToString(t2) {
      assert |n1| == |n2|;
      IntToStringInjective(t1, t2);
    }
  }

  /** Without a cloud id but with a parseable start stamp, two reports get the
      same identity exactly when their display names and whole seconds agree. */
  lemma StampedIdentity(p: PrintSection, q: PrintSection)
    requires !IsCloudTaskId(TaskId(p)) && !IsCloudTaskId(TaskId(q))
    requires Truthy(StartStamp(p)) && TruncSeconds(StartStamp(p)).Some?
    requires Truthy(StartStamp(q)) && TruncSeconds(StartStamp(q)).Some?
    ensures StableJobId(p) == StableJobId(q) <==>
      ToStr(DisplayName(p)) == ToStr(DisplayName(q)) && TruncSeconds(StartStamp(p)) == TruncSeconds(StartStamp(q))
  {
    StampedIdentityInjective(ToStr(DisplayName(p)), TruncSeconds(StartStamp(p)).value,
                             ToStr(DisplayName(q)), TruncSeconds(StartStamp(q)).value);
  }

  /** The last-resort identity collides for any two reports with the same
      display name and neither a cloud id nor a start stamp. */
  lemma UnsafeFallbackIdentity(p: PrintSection, q: PrintSection)
    requires !IsCloudTaskId(TaskId(p)) && !Truthy(StartStamp(p))
    requires !IsCloudTaskId(TaskId(q)) && !Truthy(StartStamp(q))
    ensures StableJobId(p) == StableJobId(q) <==> ToStr(DisplayName(p)) == ToStr(DisplayName(q))
  {
    var a := "unknown_" + ToStr(DisplayName(p));
    var b := "unknown_" + ToStr(DisplayName(q));
    assert a[8..] == ToStr(DisplayName(p));
    assert b[8..] == ToStr(DisplayName(q));
  }

  // ---------------------------------------------------------------------------
  // The `jobs` table
  // ---------------------------------------------------------------------------

  datatype Status = Running | Finish

  /** One row of `jobs`. Times are epoch seconds; duration_minutes is NULL (None)
      until a RUNNING row is finished. */
  datatype Job = Job(
    id: int,
    filename: Option<string>,
    startTime: int,
    endTime: Option<int>,
    durationMinutes: Option<real>,
    status: Status,
    rawJson: string)

  /** The table keyed by its UNIQUE job_id column, with the next AUTOINCREMENT id. */
  datatype Db = Db(rows: map<string, Job>, nextId: int)

  /** AUTOINCREMENT ids start at 1 and are below the next one. */
  predicate ValidDb(d: Db) {
    && d.nextId >= 1
    && (forall k :: k in d.rows ==> 1 <= d.rows[k].id < d.nextId)
  }

  /** id is a primary key: no two jobs share one. */
  predicate IdsUnique(d: Db) {
    forall k, k' :: k in d.rows && k' in d.rows && d.rows[k].id == d.rows[k'].id ==> k == k'
  }

  /** INSERT of a job_id that is not in the table: the row takes the next id. */
  function AddRow(d: Db, jobId: string, row: Job): (r: Db)
    requires ValidDb(d) && jobId !in d.rows
    ensures ValidDb(r)
    ensures r.rows.Keys == d.rows.Keys + {jobId} && r.nextId == d.nextId + 1
    ensures forall k :: k in d.rows ==> r.rows[k] == d.rows[k] && r.rows[k].id < r.rows[jobId].id
    ensures r.rows[jobId] == row.(id := d.nextId)
  {
    Db(d.rows[jobId := row.(id := d.nextId)], d.nextId + 1)
  }

  /** How a row may change from one state of the table to a later one: its id,
      file name and start never change, a row that changes ends up FINISH, and
      a FINISH row never changes at all; so a row changes at most once, from
      RUNNING to FINISH. */
  predicate RowEvolves(a: Job, b: Job) {
    b.id == a.id && b.filename == a.filename && b.startTime == a.startTime &&
    (b != a ==> b.status == Finish) &&
    (a.status == Finish ==> b == a)
  }

  /** No row is deleted, every row evolves as above, and ids are never reused. */
  predicate Evolves(d: Db, e: Db) {
    d.nextId <= e.nextId &&
    forall k :: k in d.rows ==> k in e.rows && RowEvolves(d.rows[k], e.rows[k])
  }

  lemma EvolvesTransitive(a: Db, b: Db, c: Db)
    requires Evolves(a, b) && Evolves(b, c)
    ensures Evolves(a, c)
  {
  }

  /** The start handle_print_start stores: int(float(gcode_start_time)), or the
      receipt time when the field is absent or float() raises. */
  function StartTime(p: PrintSection, now: int): int {
    match p.gcodeStartTime
    case None => now
    case Some(v) => TruncSeconds(v).GetOr(now)
  }

  /** Only the row of `id` may differ, and it exists afterwards. */
  predicate OnlyRowOf(d: Db, r: Db, id: string) {
    && r.rows.Keys == d.rows.Keys + {id}
    && forall k :: k in d.rows && k != id ==> r.rows[k] == d.rows[k]
  }

  /** handle_print_start on the table: an untracked identity gets one RUNNING
      row; a tracked one, RUNNING or FINISH, leaves the table as it is. */
  function OnRunning(d: Db, p: PrintSection, raw: string, now: int): (r: Db)
    requires ValidDb(d)
    ensures ValidDb(r) && Evolves(d, r)
    ensures match StableJobId(p)
      case None => r == d
      case Some(id) =>
        && OnlyRowOf(d, r, id)
        && (id in d.rows ==> r == d)
        && (id !in d.rows ==>
              && r.nextId == d.nextId + 1
              && r.rows[id].id == d.nextId
              && r.rows[id].status == Running
              && r.rows[id].startTime == StartTime(p, now)
              && r.rows[id].endTime.None? && r.rows[id].durationMinutes.None?
              && r.rows[id].filename == SqlText(DisplayName(p))
              && r.rows[id].rawJson == raw)
  {
    match StableJobId(p)
    case None => d
    case Some(id) =>
      if id in d.rows then d
      else AddRow(d, id, Job(0, SqlText(DisplayName(p)), StartTime(p, now), None, None, Running, raw))
  }

  /** handle_print_finish on the table: a RUNNING row is finished now with its
      duration in minutes; a FINISH row is left alone; an untracked identity
      gets an orphan FINISH row that starts and ends now and has no duration. */
  function OnFinish(d: Db, p: PrintSection, raw: string, now: int): (r: Db)
    requires ValidDb(d)
    ensures ValidDb(r) && Evolves(d, r)
    ensures match StableJobId(p)
      case None => r == d
      case Some(id) =>
        && OnlyRowOf(d, r, id)
        && r.rows[id].status == Finish
        && (id in d.rows && d.rows[id].status == Finish ==> r == d)
        && (id in d.rows && d.rows[id].status == Running ==>
              && r.nextId == d.nextId
              && r.rows[id].endTime == Some(now)
              && r.rows[id].durationMinutes == Some((now - d.rows[id].startTime) as real / 60.0)
              && r.rows[id].rawJson == raw
              && r.rows[id] == r.rows[id].(id := d.rows[id].id, filename := d.rows[id].filename,
                                            startTime := d.rows[id].startTime))
        && (id !in d.rows ==>
              && r.nextId == d.nextId + 1
              && r.rows[id].id == d.nextId
              && r.rows[id].startTime == now && r.rows[id].endTime == Some(now)
              && r.rows[id].durationMinutes.None?
              && r.rows[id].filename == SqlText(DisplayName(p))
              && r.rows[id].rawJson == raw)
  {
    match StableJobId(p)
    case None => d
    case Some(id) =>
      if id in d.rows then
        var job := d.rows[id];
        if job.status == Finish then d
        else
          var duration := (now - job.startTime) as real / 60.0;
          Db(d.rows[id := job.(endTime := Some(now), status := Finish,
                               durationMinutes := Some(duration), rawJson := raw)], d.nextId)
      else AddRow(d, id, Job(0, SqlText(DisplayName(p)), now, Some(now), None, Finish, raw))
  }

  /** The body of on_message after the throttle: only a `print` section whose
      state is RUNNING or FINISH reaches the table. */
  function Dispatch(d: Db, report: Report, raw: string, now: int): (r: Db)
    requires ValidDb(d)
    ensures ValidDb(r) && Evolves(d, r)
    ensures r != d ==>
      report.printSection.Some? &&
      (GcodeState(report.printSection.value) == Str("RUNNING") || GcodeState(report.printSection.value) == Str("FINISH"))
  {
    match report.printSection
    case None => d
    case Some(p) =>
      if GcodeState(p) == Str("RUNNING") then OnRunning(d, p, raw, now)
      else if GcodeState(p) == Str("FINISH") then OnFinish(d, p, raw, now)
      else d
  }

  /** A message that fails to decode changes nothing. */
  function Handle(d: Db, msg: Message, now: int): (r: Db)
    requires ValidDb(d)
    ensures ValidDb(r) && Evolves(d, r)
    ensures msg.report.None? ==> r == d
  {
    match msg.report
    case None => d
    case Some(report) => Dispatch(d, report, msg.text, now)
  }

  /** The whole listener: the throttle time and the table. */
  datatype ListenerState = ListenerState(lastProcessedTime: int, db: Db)

  /** on_message: a throttled message changes nothing; an admitted one spends
      the slot before it is decoded, so even a malformed payload moves the
      throttle time. */
  function Step(s: ListenerState, checkInterval: int, msg: Message, now: int): (r: ListenerState)
    requires ValidDb(s.db)
    ensures ValidDb(r.db) && Evolves(s.db, r.db)
    ensures !Admits(s.lastProcessedTime, checkInterval, now) ==> r == s
    ensures Admits(s.lastProcessedTime, checkInterval, now) ==> r.lastProcessedTime == now
    ensures msg.report.None? ==> r.db == s.db
  {
    if !Admits(s.lastProcessedTime, checkInterval, now) then s
    else ListenerState(now, Handle(s.db, msg, now))
  }

  /** The listener fed a stream of deliveries in order. */
  function Run(s: ListenerState, checkInterval: int, ds: seq<Delivery>): (r: ListenerState)
    requires ValidDb(s.db)
    ensures ValidDb(r.db)
    decreases |ds|
  {
    if ds == [] then s else Run(Step(s, checkInterval, ds[0].msg, ds[0].now), checkInterval, ds[1..])
  }

  lemma {:induction false} RunEvolves(s: ListenerState, checkInterval: int, ds: seq<Delivery>)
    requires ValidDb(s.db)
    ensures Evolves(s.db, Run(s, checkInterval, ds).db)
    decreases |ds|
  {
    if ds != [] {
      var next := Step(s, checkInterval, ds[0].msg, ds[0].now);
      RunEvolves(next, checkInterval, ds[1..]);
      EvolvesTransitive(s.db, next.db, Run(s, checkInterval, ds).db);
    }
  }

  /** A RUNNING row has no end and no duration, and a duration, when present,
      is the time from start to end in minutes. */
  predicate RowConsistent(j: Job) {
    && (j.status == Running ==> j.endTime.None? && j.durationMinutes.None?)
    && (j.durationMinutes.Some? ==>
          j.endTime.Some? && j.durationMinutes.value == (j.endTime.value - j.startTime) as real / 60.0)
  }

  predicate RowsConsistent(d: Db) {
    forall k :: k in d.rows ==> RowConsistent(d.rows[k])
  }

  /** Every message keeps each row consistent. */
  lemma HandleKeepsRowsConsistent(d: Db, msg: Message, now: int)
    requires ValidDb(d) && RowsConsistent(d)
    ensures RowsConsistent(Handle(d, msg, now))
  {
  }

  /** Over any run of the listener, every row stays consistent. */
  lemma {:induction false} RunKeepsRowsConsistent(s: ListenerState, checkInterval: int, ds: seq<Delivery>)
    requires ValidDb(s.db) && RowsConsistent(s.db)
    ensures RowsConsistent(Run(s, checkInterval, ds).db)
    decreases |ds|
  {
    if ds != [] {
      var next := Step(s, checkInterval, ds[0].msg, ds[0].now);
      if Admits(s.lastProcessedTime, checkInterval, ds[0].now) {
        HandleKeepsRowsConsistent(s.db, ds[0].msg, ds[0].now);
      }
      RunKeepsRowsConsistent(next, checkInterval, ds[1..]);
    }
  }

  /** Whatever arrives later, a FINISH row keeps its end time, duration and
      payload, and no row is ever deleted. */
  lemma FinishIsFinal(s: ListenerState, checkInterval: int, ds: seq<Delivery>, id: string)
    requires ValidDb(s.db) && id in s.db.rows && s.db.rows[id].status == Finish
    ensures id in Run(s, checkInterval, ds).db.rows
    ensures Run(s, checkInterval, ds).db.rows[id] == s.db.rows[id]
  {
    RunEvolves(s, checkInterval, ds);
  }

  /** A table that gains at most the row of `id`, with the next id, and
      otherwise evolves keeps its ids unique. */
  lemma GrowByOneKeepsIdsUnique(d: Db, e: Db, id: string)
    requires ValidDb(d) && IdsUnique(d) && Evolves(d, e)
    requires e.rows.Keys <= d.rows.Keys + {id}
    requires id !in d.rows && id in e.rows ==> e.rows[id].id == d.nextId
    ensures IdsUnique(e)
  {
    forall k, k' | k in e.rows && k' in e.rows && e.rows[k].id == e.rows[k'].id
      ensures k == k'
    {
      if k in d.rows && k' in d.rows {
        assert d.rows[k].id == d.rows[k'].id;
      }
    }
  }

  /** Every message keeps id a primary key. */
  lemma HandleKeepsIdsUnique(d: Db, msg: Message, now: int)
    requires ValidDb(d) && IdsUnique(d)
    ensures IdsUnique(Handle(d, msg, now))
  {
    var e := Handle(d, msg, now);
    if e != d {
      var p := msg.report.value.printSection.value;
      var id := StableJobId(p).value;
      if GcodeState(p) == Str("RUNNING") {
        assert e == OnRunning(d, p, msg.text, now);
      } else {
        assert e == OnFinish(d, p, msg.text, now);
      }
      GrowByOneKeepsIdsUnique(d, e, id);
    }
  }

  /** Over any run of the listener, id stays a primary key. */
  lemma {:induction false} RunKeepsIdsUnique(s: ListenerState, checkInterval: int, ds: seq<Delivery>)
    requires ValidDb(s.db) && IdsUnique(s.db)
    ensures IdsUnique(Run(s, checkInterval, ds).db)
    decreases |ds|
  {
    if ds != [] {
      var next := Step(s, checkInterval, ds[0].msg, ds[0].now);
      if Admits(s.lastProcessedTime, checkInterval, ds[0].now) {
        HandleKeepsIdsUnique(s.db, ds[0].msg, ds[0].now);
      }
      RunKeepsIdsUnique(next, checkInterval, ds[1..]);
    }
  }

  /** The sampling gate: with interval I, messages at t0, t0+I-1 and
      t0+I are processed at t0 and t0+I only. */
  lemma SamplingScenario(s: ListenerState, interval: int, t0: int, m0: Message, m1: Message, m2: Message)
    requires ValidDb(s.db) && interval >= 1 && Admits(s.lastProcessedTime, interval, t0)
    ensures var s1 := Step(s, interval, m0, t0);
      && s1.lastProcessedTime == t0
      && Step(s1, interval, m1, t0 + interval - 1) == s1
      && Step(s1, interval, m2, t0 + interval).lastProcessedTime == t0 + interval
  {
  }

  // ---------------------------------------------------------------------------
  // Idempotence of the correlator (throttle aside)
  // ---------------------------------------------------------------------------

  /** The correlator alone, applied to every delivery. */
  function Replay(d: Db, ms: seq<Delivery>): (r: Db)
    requires ValidDb(d)
    ensures ValidDb(r)
    decreases |ms|
  {
    if ms == [] then d else Replay(Handle(d, ms[0].msg, ms[0].now), ms[1..])
  }

  /** m is a `print` report in the given state whose identity is id. */
  predicate Reports(m: Message, state: string, id: string) {
    && m.report.Some? && m.report.value.printSection.Some?
    && GcodeState(m.report.value.printSection.value) == Str(state)
    && StableJobId(m.report.value.printSection.value) == Some(id)
  }

  function Section(m: Message): PrintSection
    requires m.report.Some? && m.report.value.printSection.Some?
  {
    m.report.value.printSection.value
  }

  /** Once id is tracked, more RUNNING reports of it change nothing; once it is
      finished, more FINISH reports of it change nothing. */
  lemma {:induction false} RepeatsChangeNothing(d: Db, id: string, state: string, ms: seq<Delivery>)
    requires ValidDb(d) && id in d.rows
    requires state == "RUNNING" || (state == "FINISH" && d.rows[id].status == Finish)
    requires forall i :: 0 <= i < |ms| ==> Reports(ms[i].msg, state, id)
    ensures Replay(d, ms) == d
    decreases |ms|
  {
    if ms != [] {
      assert Handle(d, ms[0].msg, ms[0].now) == d;
      assert forall i :: 0 <= i < |ms[1..]| ==> ms[1..][i] == ms[i + 1];
      RepeatsChangeNothing(d, id, state, ms[1..]);
    }
  }

  /** N >= 1 RUNNING reports of an untracked job give exactly one RUNNING row,
      started at the first report's resolved start. */
  lemma RepeatedRunning(d: Db, id: string, ms: seq<Delivery>)
    requires ValidDb(d) && id !in d.rows && |ms| >= 1
    requires Reports(ms[0].msg, "RUNNING", id)
    requires forall i :: 1 <= i < |ms| ==> Reports(ms[i].msg, "RUNNING", id)
    ensures var r := Replay(d, ms);
      && r.rows.Keys == d.rows.Keys + {id} && r.nextId == d.nextId + 1
      && (forall k :: k in d.rows ==> r.rows[k] == d.rows[k])
      && r.rows[id].status == Running && r.rows[id].endTime.None?
      && r.rows[id].startTime == StartTime(Section(ms[0].msg), ms[0].now)
  {
    var d1 := Handle(d, ms[0].msg, ms[0].now);
    StartStep(d, id, ms[0]);
    assert forall i :: 0 <= i < |ms[1..]| ==> ms[1..][i] == ms[i + 1];
    RepeatsChangeNothing(d1, id, "RUNNING", ms[1..]);
  }

  /** The first RUNNING report of an untracked job adds its row and nothing else. */
  lemma StartStep(d: Db, id: string, m: Delivery)
    requires ValidDb(d) && id !in d.rows && Reports(m.msg, "RUNNING", id)
    ensures var r := Handle(d, m.msg, m.now);
      && r.rows.Keys == d.rows.Keys + {id} && r.nextId == d.nextId + 1
      && (forall k :: k in d.rows ==> r.rows[k] == d.rows[k])
      && r.rows[id].status == Running && r.rows[id].endTime.None?
      && r.rows[id].startTime == StartTime(Section(m.msg), m.now)
  {
    assert Handle(d, m.msg, m.now) == OnRunning(d, Section(m.msg), m.msg.text, m.now);
  }

  /** A FINISH report of a RUNNING job finishes that row and touches nothing else. */
  lemma FinishStep(d: Db, id: string, m: Delivery)
    requires ValidDb(d) && id in d.rows && d.rows[id].status == Running && Reports(m.msg, "FINISH", id)
    ensures var r := Handle(d, m.msg, m.now);
      && r.rows.Keys == d.rows.Keys && r.nextId == d.nextId
      && (forall k :: k in d.rows && k != id ==> r.rows[k] == d.rows[k])
      && r.rows[id].status == Finish && r.rows[id].startTime == d.rows[id].startTime
      && r.rows[id].endTime == Some(m.now)
      && r.rows[id].durationMinutes == Some((m.now - d.rows[id].startTime) as real / 60.0)
  {
    assert Handle(d, m.msg, m.now) == OnFinish(d, Section(m.msg), m.msg.text, m.now);
  }

  /** Nothing orders the two clocks: a start stamp later than the FINISH
      receipt is stored as a negative duration. */
  lemma NegativeDurationStored(d: Db, id: string, m: Delivery)
    requires ValidDb(d) && id in d.rows && d.rows[id].status == Running && Reports(m.msg, "FINISH", id)
    requires m.now < d.rows[id].startTime
    ensures Handle(d, m.msg, m.now).rows[id].durationMinutes.Some?
    ensures Handle(d, m.msg, m.now).rows[id].durationMinutes.value < 0.0
  {
    FinishStep(d, id, m);
  }

  /** r holds d plus the row of id, finished at `end` after starting at
      `started`, with the duration between the two in minutes. */
  predicate FinishedOnce(d: Db, r: Db, id: string, started: int, end: int) {
    && id in r.rows
    && r.rows.Keys == d.rows.Keys + {id} && r.nextId == d.nextId + 1
    && (forall k :: k in d.rows ==> r.rows[k] == d.rows[k])
    && r.rows[id].status == Finish && r.rows[id].startTime == started
    && r.rows[id].endTime == Some(end)
    && r.rows[id].durationMinutes == Some((end - started) as real / 60.0)
  }

  /** One RUNNING then N >= 1 FINISH reports of an untracked job give exactly
      one FINISH row whose end and duration come from the first FINISH only. */
  lemma RunningThenFinished(d: Db, id: string, start: Delivery, finishes: seq<Delivery>)
    requires ValidDb(d) && id !in d.rows && |finishes| >= 1
    requires Reports(start.msg, "RUNNING", id)
    requires forall i :: 0 <= i < |finishes| ==> Reports(finishes[i].msg, "FINISH", id)
    ensures FinishedOnce(d, Replay(d, [start] + finishes), id,
                         StartTime(Section(start.msg), start.now), finishes[0].now)
  {
    StartThenFinishes(d, id, start, finishes);
    StartThenFinish(d, id, start, finishes[0]);
  }

  /** The first RUNNING and the first FINISH report of a new job. */
  lemma StartThenFinish(d: Db, id: string, start: Delivery, finish: Delivery)
    requires ValidDb(d) && id !in d.rows
    requires Reports(start.msg, "RUNNING", id) && Reports(finish.msg, "FINISH", id)
    ensures FinishedOnce(d, Handle(Handle(d, start.msg, start.now), finish.msg, finish.now), id,
                         StartTime(Section(start.msg), start.now), finish.now)
  {
    var d1 := Handle(d, start.msg, start.now);
    var d2 := Handle(d1, finish.msg, finish.now);
    StartStep(d, id, start);
    FinishStep(d1, id, finish);
    ComposeStartFinish(d, d1, d2, id);
  }

  /** Replaying a RUNNING report and then FINISH reports of a new job amounts
      to the first two reports. */
  lemma StartThenFinishes(d: Db, id: string, start: Delivery, finishes: seq<Delivery>)
    requires ValidDb(d) && id !in d.rows && |finishes| >= 1
    requires Reports(start.msg, "RUNNING", id)
    requires forall i :: 0 <= i < |finishes| ==> Reports(finishes[i].msg, "FINISH", id)
    ensures ValidDb(Handle(d, start.msg, start.now))
    ensures Replay(d, [start] + finishes)
         == Handle(Handle(d, start.msg, start.now), finishes[0].msg, finishes[0].now)
  {
    var d1 := Handle(d, start.msg, start.now);
    StartStep(d, id, start);
    assert ([start] + finishes)[1..] == finishes;
    FinishThenRepeats(d1, id, finishes);
  }

  /** Frame reasoning for RunningThenFinished: a row added, then only that row
      changed. */
  lemma ComposeStartFinish(d: Db, d1: Db, d2: Db, id: string)
    requires d1.rows.Keys == d.rows.Keys + {id} && d1.nextId == d.nextId + 1
    requires forall k :: k in d.rows ==> d1.rows[k] == d.rows[k]
    requires d2.rows.Keys == d1.rows.Keys && d2.nextId == d1.nextId
    requires forall k :: k in d1.rows && k != id ==> d2.rows[k] == d1.rows[k]
    requires id !in d.rows
    ensures d2.rows.Keys == d.rows.Keys + {id} && d2.nextId == d.nextId + 1
    ensures forall k :: k in d.rows ==> d2.rows[k] == d.rows[k]
  {
  }

  /** After the first FINISH of a RUNNING job, further FINISH reports of it
      change nothing. */
  lemma FinishThenRepeats(d: Db, id: string, ms: seq<Delivery>)
    requires ValidDb(d) && id in d.rows && d.rows[id].status == Running && |ms| >= 1
    requires forall i :: 0 <= i < |ms| ==> Reports(ms[i].msg, "FINISH", id)
    ensures Replay(d, ms) == Handle(d, ms[0].msg, ms[0].now)
  {
    var d1 := Handle(d, ms[0].msg, ms[0].now);
    FinishStep(d, id, ms[0]);
    assert forall i :: 0 <= i < |ms[1..]| ==> ms[1..][i] == ms[i + 1];
    RepeatsChangeNothing(d1, id, "FINISH", ms[1..]);
  }

  /** N >= 1 FINISH reports of a job never seen RUNNING give one orphan row:
      FINISH, start and end at the first report, no duration. */
  lemma RepeatedOrphanFinish(d: Db, id: string, ms: seq<Delivery>)
    requires ValidDb(d) && id !in d.rows && |ms| >= 1
    requires forall i :: 0 <= i < |ms| ==> Reports(ms[i].msg, "FINISH", id)
    ensures var r := Replay(d, ms);
      && r.rows.Keys == d.rows.Keys + {id} && r.nextId == d.nextId + 1
      && (forall k :: k in d.rows ==> r.rows[k] == d.rows[k])
      && r.rows[id].status == Finish && r.rows[id].durationMinutes.None?
      && r.rows[id].startTime == ms[0].now && r.rows[id].endTime == Some(ms[0].now)
  {
    assert Reports(ms[0].msg, "FINISH", id);
    var p0 := Section(ms[0].msg);
    assert Handle(d, ms[0].msg, ms[0].now) == OnFinish(d, p0, ms[0].msg.text, ms[0].now);
    var d1 := Handle(d, ms[0].msg, ms[0].now);
    assert forall i :: 0 <= i < |ms[1..]| ==> ms[1..][i] == ms[i + 1];
    RepeatsChangeNothing(d1, id, "FINISH", ms[1..]);
  }

  /** Worked example: task 12345 runs from 1700000000 and finishes 600 s
      later with a duration of 10 minutes. */
  lemma VaseScenario(now0: int)
    ensures var running := PrintSection(Some(Str("RUNNING")), Some(Str("12345")),
                                        Some(Str("vase.gcode")), Some(Int(1700000000)));
      var finish := running.(gcodeState := Some(Str("FINISH")));
      var d1 := OnRunning(Db(map[], 1), running, "r", now0);
      var d2 := OnFinish(d1, finish, "f", 1700000600);
      && d1.rows.Keys == {"12345"} && d1.rows["12345"].status == Running
      && d1.rows["12345"].startTime == 1700000000
      && d2.rows.Keys == {"12345"} && d2.rows["12345"].status == Finish
      && d2.rows["12345"].durationMinutes == Some(10.0)
  {
  }

  /** Worked example of an orphan: a FINISH with the sentinel task id -1, no
      start stamp and name calib.gcode creates the row unknown_calib.gcode. */
  lemma CalibOrphanScenario(now: int)
    ensures var p := PrintSection(Some(Str("FINISH")), Some(Str("-1")), Some(Str("calib.gcode")), None);
      var d := OnFinish(Db(map[], 1), p, "f", now);
      && d.rows.Keys == {"unknown_calib.gcode"}
      && d.rows["unknown_calib.gcode"].status == Finish
      && d.rows["unknown_calib.gcode"].durationMinutes.None?
  {
    var p := PrintSection(Some(Str("FINISH")), Some(Str("-1")), Some(Str("calib.gcode")), None);
    assert "unknown_" + "calib.gcode" == "unknown_calib.gcode";
    assert StableJobId(p) == Some("unknown_calib.gcode");
  }

  // ---------------------------------------------------------------------------
  // The stateful implementation
  // ---------------------------------------------------------------------------

  /** The SQLite `jobs` table of ingestion/listener.py. */
  class JobsTable {
    var rows: map<string, Job>
    var nextId: int

    function State(): Db
      reads this
    {
      Db(rows, nextId)
    }

    /** The AUTOINCREMENT bounds, and id a primary key. */
    ghost predicate Valid()
      reads this
    {
      ValidDb(State()) && IdsUnique(State())
    }

    /** init_db on a fresh database file. */
    constructor ()
      ensures Valid() && rows == map[] && nextId == 1
    {
      rows := map[];
      nextId := 1;
    }

    /** SELECT ... FROM jobs WHERE job_id = ? */
    method Find(jobId: string) returns (row: Option<Job>)
      ensures row.Some? <==> jobId in rows
      ensures row.Some? ==> row.value == rows[jobId]
    {
      row := if jobId in rows then Some(rows[jobId]) else None;
    }

    /** INSERT INTO jobs: the UNIQUE index turns a tracked job_id into an
        IntegrityError that leaves the table as it was. */
    method Insert(jobId: string, row: Job) returns (inserted: bool)
      requires Valid()
      modifies this
      ensures Valid()
      ensures inserted <==> jobId !in old(rows)
      ensures inserted ==> State() == AddRow(old(State()), jobId, row)
      ensures !inserted ==> State() == old(State())
    {
      inserted := jobId !in rows;
      if inserted {
        rows := rows[jobId := row.(id := nextId)];
        nextId := nextId + 1;
        GrowByOneKeepsIdsUnique(old(State()), State(), jobId);
      }
    }

    /** UPDATE jobs SET end_time, status = 'FINISH', duration_minutes, raw_json
        WHERE job_id = ?: matches at most one row. */
    method MarkFinished(jobId: string, endTime: int, duration: real, raw: string)
      requires Valid()
      modifies this
      ensures Valid() && nextId == old(nextId)
      ensures jobId in old(rows) ==>
        rows == old(rows)[jobId := old(rows)[jobId].(endTime := Some(endTime), status := Finish,
                                                     durationMinutes := Some(duration), rawJson := raw)]
      ensures jobId !in old(rows) ==> rows == old(rows)
    {
      if jobId in rows {
        rows := rows[jobId := rows[jobId].(endTime := Some(endTime), status := Finish,
                                           durationMinutes := Some(duration), rawJson := raw)];
      }
    }
  }

  /** handle_print_start */
  method HandlePrintStart(db: JobsTable, p: PrintSection, raw: string, now: int)
    requires db.Valid()
    modifies db
    ensures db.Valid()
    ensures db.State() == OnRunning(old(db.State()), p, raw, now)
  {
    var jobId := StableJobId(p);
    if jobId.None? {
      return;  // get_stable_job_id raised; on_message's handler logs it
    }
    var start := StartTime(p, now);
    var inserted := db.Insert(jobId.value, Job(0, SqlText(DisplayName(p)), start, None, None, Running, raw));
  }

  /** handle_print_finish */
  method HandlePrintFinish(db: JobsTable, p: PrintSection, raw: string, now: int)
    requires db.Valid()
    modifies db
    ensures db.Valid()
    ensures db.State() == OnFinish(old(db.State()), p, raw, now)
  {
    var jobId := StableJobId(p);
    if jobId.None? {
      return;  // get_stable_job_id raised; on_message's handler logs it
    }
    var found := db.Find(jobId.value);
    match found
    case Some(job) =>
      if job.status == Finish {
        return;  // already done
      }
      var duration := (now - job.startTime) as real / 60.0;
      db.MarkFinished(jobId.value, now, duration, raw);
    case None =>
      var inserted := db.Insert(jobId.value, Job(0, SqlText(DisplayName(p)), now, Some(now), None, Finish, raw));
  }

  /** The module-level state of ingestion/listener.py: last_processed_time,
      check_interval and the database. */
  class Listener {
    const checkInterval: int
    const db: JobsTable
    var lastProcessedTime: int

    ghost predicate Valid()
      reads this, db
    {
      db.Valid()
    }

    function State(): ListenerState
      reads this, db
    {
      ListenerState(lastProcessedTime, db.State())
    }

    /** check_interval is config.get("check_interval", 60): `configured` is
        None when the configuration file has no such key. */
    constructor (configured: Option<int>, db: JobsTable)
      requires db.Valid()
      ensures Valid() && this.db == db
      ensures configured.None? ==> checkInterval == DEFAULT_CHECK_INTERVAL
      ensures configured.Some? ==> checkInterval == configured.value
      ensures lastProcessedTime == INITIAL_LAST_PROCESSED
    {
      this.checkInterval := configured.GetOr(DEFAULT_CHECK_INTERVAL);
      this.db := db;
      lastProcessedTime := INITIAL_LAST_PROCESSED;
    }

    /** on_message with the receipt time `now`. */
    method OnMessage(msg: Message, now: int)
      requires Valid()
      modifies this, db
      ensures Valid()
      ensures State() == Step(old(State()), checkInterval, msg, now)
    {
      if now - lastProcessedTime < checkInterval {
        return;
      }
      lastProcessedTime := now;
      match msg.report
      case None =>
        // json.loads raised; the handler logs it
      case Some(report) =>
        match report.printSection
        case None =>
        case Some(p) =>
          var state := GcodeState(p);
          if state == Str("RUNNING") {
            HandlePrintStart(db, p, msg.text, now);
          } else if state == Str("FINISH") {
            HandlePrintFinish(db, p, msg.text, now);
          }
    }
  }
}
