/// The older listener, listener.py: behind the same throttle it logs only
/// FINISH reports, into an append-only `jobs` table with no job key, and
/// skips a file name already logged within the last five minutes.
module Legacy {
  import opened PyValues
  import opened Throttle
  import opened PrinterReport

  /** The look-back of is_duplicate_log, datetime('now', '-5 minutes'), in seconds. */
  const DUPLICATE_WINDOW := 300

  /** One row of this listener's `jobs` table; times are epoch seconds. */
  datatype LoggedJob = LoggedJob(
    id: int,
    filename: Option<string>,
    startTime: int,
    endTime: int,
    durationMinutes: int,
    status: string,
    rawJson: string)

  /** The rows in insertion order and the next AUTOINCREMENT id. */
  datatype Log = Log(rows: seq<LoggedJob>, nextId: int)

  /** Ids start at 1, stay below the next one and increase along the table. */
  predicate ValidLog(l: Log) {
    && l.nextId >= 1
    && (forall i :: 0 <= i < |l.rows| ==> 1 <= l.rows[i].id < l.nextId)
    && (forall i, j :: 0 <= i < j < |l.rows| ==> l.rows[i].id < l.rows[j].id)
  }

  /** is_duplicate_log: some row has this file name, compared with SQL `=` (so a
      NULL name never matches), and a start later than five minutes ago. */
  predicate IsDuplicateLog(rows: seq<LoggedJob>, filename: Value, now: int) {
    exists i :: 0 <= i < |rows| && SqlEquals(rows[i].filename, SqlText(filename))
                && rows[i].startTime > now - DUPLICATE_WINDOW
  }

  /** save_job: appends one row that starts and ends now, with the next id. */
  function AppendJob(l: Log, filename: Value, duration: int, status: string, raw: string, now: int): (r: Log)
    requires ValidLog(l)
    ensures ValidLog(r)
    ensures |r.rows| == |l.rows| + 1 && r.rows[..|l.rows|] == l.rows && r.nextId == l.nextId + 1
    ensures forall i :: 0 <= i < |l.rows| ==> l.rows[i].id < r.rows[|l.rows|].id
    ensures r.rows[|l.rows|] == LoggedJob(l.nextId, SqlText(filename), now, now, duration, status, raw)
  {
    Log(l.rows + [LoggedJob(l.nextId, SqlText(filename), now, now, duration, status, raw)], l.nextId + 1)
  }

  /** The report has a `print` section whose gcode_state is present and FINISH. */
  predicate IsFinishReport(msg: Message) {
    && msg.report.Some? && msg.report.value.printSection.Some?
    && msg.report.value.printSection.value.gcodeState == Some(Str("FINISH"))
  }

  /** data.get('subtask_name'): None (SQL NULL) when the key is absent. */
  function Subtask(msg: Message): Value
    requires IsFinishReport(msg)
  {
    msg.report.value.printSection.value.subtaskName.GetOr(Null)
  }

  /** The body of on_message after the throttle: a FINISH report appends one
      row unless its file name was logged in the last five minutes; every other
      message leaves the table as it is. */
  function Handle(l: Log, msg: Message, now: int): (r: Log)
    requires ValidLog(l)
    ensures ValidLog(r)
    ensures r != l <==> IsFinishReport(msg) && !IsDuplicateLog(l.rows, Subtask(msg), now)
    ensures r != l ==>
      && |r.rows| == |l.rows| + 1 && r.rows[..|l.rows|] == l.rows && r.nextId == l.nextId + 1
      && r.rows[|l.rows|].id == l.nextId
      && r.rows[|l.rows|].filename == SqlText(Subtask(msg))
      && r.rows[|l.rows|].startTime == now && r.rows[|l.rows|].endTime == now
      && r.rows[|l.rows|].durationMinutes == 0
      && r.rows[|l.rows|].status == "FINISH"
      && r.rows[|l.rows|].rawJson == msg.text
  {
    match msg.report
    case None => l
    case Some(report) =>
      match report.printSection
      case None => l
      case Some(p) =>
        if p.gcodeState == Some(Str("FINISH")) then
          var filename := p.subtaskName.GetOr(Null);
          if IsDuplicateLog(l.rows, filename, now) then l
          else AppendJob(l, filename, 0, "FINISH", msg.text, now)
        else l
  }

  /** The whole listener: the throttle time and the table. */
  datatype LegacyState = LegacyState(lastProcessedTime: int, log: Log)

  /** on_message: a throttled message changes nothing; an admitted one spends
      the slot before it is decoded. */
  function Step(s: LegacyState, checkInterval: int, msg: Message, now: int): (r: LegacyState)
    requires ValidLog(s.log)
    ensures ValidLog(r.log)
    ensures !Admits(s.lastProcessedTime, checkInterval, now) ==> r == s
    ensures Admits(s.lastProcessedTime, checkInterval, now) ==> r.lastProcessedTime == now
  {
    if !Admits(s.lastProcessedTime, checkInterval, now) then s
    else LegacyState(now, Handle(s.log, msg, now))
  }

  function Run(s: LegacyState, checkInterval: int, ds: seq<Delivery>): (r: LegacyState)
    requires ValidLog(s.log)
    ensures ValidLog(r.log)
    decreases |ds|
  {
    if ds == [] then s else Run(Step(s, checkInterval, ds[0].msg, ds[0].now), checkInterval, ds[1..])
  }

  /** The table is append-only: whatever arrives, the earlier rows stay as
      they were, in place. */
  lemma {:induction false} RunAppendOnly(s: LegacyState, checkInterval: int, ds: seq<Delivery>)
    requires ValidLog(s.log)
    ensures var r := Run(s, checkInterval, ds).log;
      |s.log.rows| <= |r.rows| && r.rows[..|s.log.rows|] == s.log.rows && s.log.nextId <= r.nextId
    decreases |ds|
  {
    if ds != [] {
      var next := Step(s, checkInterval, ds[0].msg, ds[0].now);
      assert |s.log.rows| <= |next.log.rows| && next.log.rows[..|s.log.rows|] == s.log.rows;
      RunAppendOnly(next, checkInterval, ds[1..]);
      var r := Run(s, checkInterval, ds).log;
      assert r.rows[..|s.log.rows|] == r.rows[..|next.log.rows|][..|s.log.rows|];
    }
  }

  /** A FINISH without subtask_name is compared as NULL and never found, so
      every admitted one appends a row. */
  lemma NullNameNeverDeduplicated(l: Log, msg: Message, now: int)
    requires ValidLog(l) && IsFinishReport(msg) && Subtask(msg) == Null
    ensures |Handle(l, msg, now).rows| == |l.rows| + 1
  {
    assert !IsDuplicateLog(l.rows, Null, now);
  }

  /** Two FINISH reports of the same named file less than five minutes apart,
      the first not logged recently, log it once. */
  lemma WithinWindowLoggedOnce(l: Log, m1: Message, t1: int, m2: Message, t2: int)
    requires ValidLog(l) && IsFinishReport(m1) && IsFinishReport(m2)
    requires SqlText(Subtask(m1)).Some? && SqlText(Subtask(m1)) == SqlText(Subtask(m2))
    requires !IsDuplicateLog(l.rows, Subtask(m1), t1)
    requires t1 <= t2 < t1 + DUPLICATE_WINDOW
    ensures var l1 := Handle(l, m1, t1);
      |l1.rows| == |l.rows| + 1 && Handle(l1, m2, t2) == l1
  {
    var l1 := Handle(l, m1, t1);
    var k := |l.rows|;
    assert l1.rows[k].startTime == t1 && l1.rows[k].filename == SqlText(Subtask(m1));
    assert IsDuplicateLog(l1.rows, Subtask(m2), t2);
  }

  /** Nothing keeps a file name unique: a file not logged recently that finishes
      again five or more minutes later gets a second row, with a larger id. */
  lemma SameFileTwice(l: Log, m1: Message, t1: int, m2: Message, t2: int)
    requires ValidLog(l) && IsFinishReport(m1) && IsFinishReport(m2)
    requires SqlText(Subtask(m1)) == SqlText(Subtask(m2))
    requires !IsDuplicateLog(l.rows, Subtask(m1), t1)
    requires t2 >= t1 + DUPLICATE_WINDOW
    ensures var l1 := Handle(l, m1, t1);
      var l2 := Handle(l1, m2, t2);
      && |l2.rows| == |l.rows| + 2 && l2.rows[..|l.rows|] == l.rows
      && l2.rows[|l.rows|].filename == l2.rows[|l.rows| + 1].filename == SqlText(Subtask(m1))
      && l2.rows[|l.rows|].id < l2.rows[|l.rows| + 1].id
  {
    var l1 := Handle(l, m1, t1);
    assert |l1.rows| == |l.rows| + 1;
    forall i | 0 <= i < |l1.rows| && SqlEquals(l1.rows[i].filename, SqlText(Subtask(m2)))
      ensures l1.rows[i].startTime <= t2 - DUPLICATE_WINDOW
    {
      if i < |l.rows| {
        assert l1.rows[i] == l.rows[i];
        assert !(SqlEquals(l.rows[i].filename, SqlText(Subtask(m1))) && l.rows[i].startTime > t1 - DUPLICATE_WINDOW);
      }
    }
    var l2 := Handle(l1, m2, t2);
    assert l2.rows[..|l1.rows|] == l1.rows;
    assert l2.rows[..|l.rows|] == l1.rows[..|l.rows|];
  }

  // ---------------------------------------------------------------------------
  // The stateful implementation
  // ---------------------------------------------------------------------------

  /** The SQLite `jobs` table of listener.py. */
  class JobLog {
    var rows: seq<LoggedJob>
    var nextId: int

    function State(): Log
      reads this
    {
      Log(rows, nextId)
    }

    ghost predicate Valid()
      reads this
    {
      ValidLog(State())
    }

    /** init_db on a fresh database file. */
    constructor ()
      ensures Valid() && rows == [] && nextId == 1
    {
      rows := [];
      nextId := 1;
    }

    /** save_job: INSERT INTO jobs with start and end datetime('now'). */
    method SaveJob(filename: Value, duration: int, status: string, raw: string, now: int)
      requires Valid()
      modifies this
      ensures Valid()
      ensures State() == AppendJob(old(State()), filename, duration, status, raw, now)
    {
      rows := rows + [LoggedJob(nextId, SqlText(filename), now, now, duration, status, raw)];
      nextId := nextId + 1;
    }
  }

  /** The module-level state of listener.py: last_processed_time,
      check_interval and the database. */
  class LegacyListener {
    const checkInterval: int
    const log: JobLog
    var lastProcessedTime: int

    ghost predicate Valid()
      reads this, log
    {
      log.Valid()
    }

    function State(): LegacyState
      reads this, log
    {
      LegacyState(lastProcessedTime, log.State())
    }

    /** check_interval is config.get("check_interval", 60): `configured` is
        None when the configuration file has no such key. */
    constructor (configured: Option<int>, log: JobLog)
      requires log.Valid()
      ensures Valid() && this.log == log
      ensures configured.None? ==> checkInterval == DEFAULT_CHECK_INTERVAL
      ensures configured.Some? ==> checkInterval == configured.value
      ensures lastProcessedTime == INITIAL_LAST_PROCESSED
    {
      this.checkInterval := configured.GetOr(DEFAULT_CHECK_INTERVAL);
      this.log := log;
      lastProcessedTime := INITIAL_LAST_PROCESSED;
    }

    /** on_message with the receipt time `now`. */
    method OnMessage(msg: Message, now: int)
      requires Valid()
      modifies this, log
      ensures Valid()
      ensures State() == Step(old(State()), checkInterval, msg, now)
    {
      if now - lastProcessedTime < checkInterval {
        return;
      }
      lastProcessedTime := now;
      match msg.report
      case None =>
        // json.loads raised; the handler prints it
      case Some(report) =>
        match report.printSection
        case None =>
        case Some(p) =>
          if p.gcodeState == Some(Str("FINISH")) {
            var filename := p.subtaskName.GetOr(Null);
            if !IsDuplicateLog(log.rows, filename, now) {
              log.SaveJob(filename, 0, "FINISH", msg.text, now);
            }
          }
    }
  }
}
