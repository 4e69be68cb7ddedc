/// new_print_job_sensor (orchestration/repo.py): a high-water mark over the ids
/// of finished jobs. Each evaluation reads MAX(id) of the FINISH rows and the
/// cursor it stored last time, and asks for one transformation run, keyed by
/// that id, when the id has grown.
module Sensor {
  import opened PyValues
  import Ingestion
  import Legacy
  import opened PrinterReport

  /** The two columns of `jobs` the sensor's query looks at. */
  datatype StoredRow = StoredRow(id: int, status: string)

  predicate IsFinished(r: StoredRow) {
    r.status == "FINISH"
  }

  /** SELECT MAX(id) FROM jobs WHERE status = 'FINISH': NULL (None) when no
      row qualifies, otherwise the largest qualifying id. */
  function MaxFinishedId(rows: seq<StoredRow>): (m: Option<int>)
    ensures m.None? <==> forall r :: r in rows ==> !IsFinished(r)
    ensures m.Some? ==> StoredRow(m.value, "FINISH") in rows
    ensures m.Some? ==> forall r :: r in rows && IsFinished(r) ==> r.id <= m.value
  {
    if rows == [] then None
    else
      var prefix := rows[..|rows| - 1];
      var last := rows[|rows| - 1];
      var rest := MaxFinishedId(prefix);
      assert rows == prefix + [last];
      if !IsFinished(last) then rest
      else if rest.Some? && rest.value >= last.id then rest
      else Some(last.id)
  }

  /** current_max_id: result[0] when it is truthy, else 0, so NULL and 0 both
      read as 0. */
  function CurrentMaxId(rows: seq<StoredRow>): (c: int)
    ensures c != 0 ==> MaxFinishedId(rows) == Some(c)
    ensures c == 0 ==> forall r :: r in rows && IsFinished(r) ==> r.id <= 0
  {
    var m := MaxFinishedId(rows);
    if m.Some? && m.value != 0 then m.value else 0
  }

  /** previous_max_id: -1 while the cursor is unset or empty, otherwise
      int(cursor); None where int() raises ValueError. */
  function PreviousMaxId(cursor: Option<string>): (r: Option<int>)
    ensures cursor.None? || cursor.value == "" ==> r == Some(-1)
    ensures cursor.Some? && cursor.value != "" ==> r == ParseInt(cursor.value)
  {
    match cursor
    case None => Some(-1)
    case Some(s) => if s == "" then Some(-1) else ParseInt(s)
  }

  /** RunRequest(run_key=..., run_config={}); the empty run configuration is
      implicit. */
  datatype RunRequest = RunRequest(runKey: string)

  /** What one evaluation yields and the cursor it leaves behind. */
  datatype Outcome = Outcome(request: Option<RunRequest>, cursor: Option<string>)

  /** One evaluation of the sensor given what the database read returned
      (None: sqlite3 raised). Any exception, from the read or from int() on the
      cursor, is logged and leaves no request and the cursor as it was. */
  function Evaluate(cursor: Option<string>, read: Option<seq<StoredRow>>): (r: Outcome)
    ensures r.request.None? ==> r.cursor == cursor
    ensures r.request.Some? <==>
      read.Some? && PreviousMaxId(cursor).Some? && CurrentMaxId(read.value) > PreviousMaxId(cursor).value
    ensures r.request.Some? ==>
      r.request.value.runKey == IntToString(CurrentMaxId(read.value)) && r.cursor == Some(r.request.value.runKey)
  {
    match read
    case None => Outcome(None, cursor)
    case Some(rows) =>
      var current := CurrentMaxId(rows);
      match PreviousMaxId(cursor)
      case None => Outcome(None, cursor)
      case Some(previous) =>
        if current > previous then Outcome(Some(RunRequest(IntToString(current))), Some(IntToString(current)))
        else Outcome(None, cursor)
  }

  // ---------------------------------------------------------------------------
  // Properties of a single evaluation
  // ---------------------------------------------------------------------------

  /** A MAX that is attained and bounds every FINISH id is the query's answer. */
  lemma MaxIsUnique(rows: seq<StoredRow>, m: int)
    requires StoredRow(m, "FINISH") in rows
    requires forall r :: r in rows && IsFinished(r) ==> r.id <= m
    ensures MaxFinishedId(rows) == Some(m)
  {
    var mx := MaxFinishedId(rows);
    assert IsFinished(StoredRow(m, "FINISH"));
    assert mx.Some?;
    assert IsFinished(StoredRow(mx.value, "FINISH"));
  }

  /** The cursor the sensor writes, str(current_max_id), reads back as that id. */
  lemma CursorRoundTrip(i: int)
    ensures PreviousMaxId(Some(IntToString(i))) == Some(i)
  {
    ParseIntRoundTrip(i);
  }

  /** The high-water mark never goes down: a readable cursor stays readable
      and its value does not decrease. */
  lemma CursorNeverDecreases(cursor: Option<string>, read: Option<seq<StoredRow>>)
    requires PreviousMaxId(cursor).Some?
    ensures var next := PreviousMaxId(Evaluate(cursor, read).cursor);
      next.Some? && next.value >= PreviousMaxId(cursor).value
  {
    var o := Evaluate(cursor, read);
    if o.request.Some? {
      CursorRoundTrip(CurrentMaxId(read.value));
    }
  }

  /** Evaluated twice over the same rows, the second evaluation is quiet. */
  lemma SecondEvaluationQuiet(cursor: Option<string>, rows: seq<StoredRow>)
    ensures Evaluate(Evaluate(cursor, Some(rows)).cursor, Some(rows)).request.None?
  {
    var o := Evaluate(cursor, Some(rows));
    if o.request.Some? {
      CursorRoundTrip(CurrentMaxId(rows));
    }
  }

  /** With no cursor yet and no finished job, 0 > -1 still fires: the first
      evaluation asks for a run keyed "0". */
  lemma FirstEvaluationOnEmptyTable(rows: seq<StoredRow>)
    requires forall r :: r in rows ==> !IsFinished(r)
    ensures Evaluate(None, Some(rows)) == Outcome(Some(RunRequest("0")), Some("0"))
  {
    assert NatToString(0) == "0";
  }

  // ---------------------------------------------------------------------------
  // Successive evaluations
  // ---------------------------------------------------------------------------

  /** The requests yielded by successive evaluations and the final cursor. */
  datatype Polls = Polls(requests: seq<RunRequest>, cursor: Option<string>)

  /** Evaluates the sensor once per entry of `fetches`, oldest first. */
  function Ticks(cursor: Option<string>, fetches: seq<Option<seq<StoredRow>>>): (h: Polls)
    ensures |h.requests| <= |fetches|
    decreases |fetches|
  {
    if fetches == [] then Polls([], cursor)
    else
      var o := Evaluate(cursor, fetches[0]);
      var rest := Ticks(o.cursor, fetches[1..]);
      Polls((if o.request.Some? then [o.request.value] else []) + rest.requests, rest.cursor)
  }

  /** Every run key is the text of an integer in (lo, hi], and the keys
      strictly increase. */
  predicate KeysIncrease(requests: seq<RunRequest>, lo: int, hi: int) {
    && (forall i :: 0 <= i < |requests| ==>
          ParseInt(requests[i].runKey).Some? && lo < ParseInt(requests[i].runKey).value <= hi)
    && (forall i, j :: 0 <= i < j < |requests| ==>
          ParseInt(requests[i].runKey).value < ParseInt(requests[j].runKey).value)
  }

  lemma PrependKey(request: RunRequest, rest: seq<RunRequest>, lo: int, v: int, hi: int)
    requires ParseInt(request.runKey) == Some(v) && lo < v <= hi
    requires KeysIncrease(rest, v, hi)
    ensures KeysIncrease([request] + rest, lo, hi)
  {
    var all := [request] + rest;
    assert forall i :: 1 <= i < |all| ==> all[i] == rest[i - 1];
  }

  /** From a readable cursor, every run key is an integer above the starting
      mark and no higher than the final one, and the keys strictly increase. */
  lemma {:induction false} RunKeysIncrease(cursor: Option<string>, fetches: seq<Option<seq<StoredRow>>>)
    requires PreviousMaxId(cursor).Some?
    ensures var h := Ticks(cursor, fetches);
      && PreviousMaxId(h.cursor).Some?
      && PreviousMaxId(h.cursor).value >= PreviousMaxId(cursor).value
      && KeysIncrease(h.requests, PreviousMaxId(cursor).value, PreviousMaxId(h.cursor).value)
    decreases |fetches|
  {
    if fetches != [] {
      var o := Evaluate(cursor, fetches[0]);
      CursorNeverDecreases(cursor, fetches[0]);
      RunKeysIncrease(o.cursor, fetches[1..]);
      var rest := Ticks(o.cursor, fetches[1..]);
      if o.request.Some? {
        var current := CurrentMaxId(fetches[0].value);
        CursorRoundTrip(current);
        ParseIntRoundTrip(current);
        PrependKey(o.request.value, rest.requests, PreviousMaxId(cursor).value, current,
                   PreviousMaxId(rest.cursor).value);
      }
    }
  }

  /** The run keys of successive evaluations are pairwise distinct, so no
      run is requested twice. */
  lemma DistinctRunKeys(cursor: Option<string>, fetches: seq<Option<seq<StoredRow>>>, i: int, j: int)
    requires PreviousMaxId(cursor).Some?
    requires 0 <= i < j < |Ticks(cursor, fetches).requests|
    ensures Ticks(cursor, fetches).requests[i].runKey != Ticks(cursor, fetches).requests[j].runKey
  {
    RunKeysIncrease(cursor, fetches);
  }

  /** A cursor that int() rejects makes every evaluation fail before it yields,
      so the sensor never fires again and the cursor stays as it is. */
  lemma {:induction false} CorruptCursorNeverFires(cursor: Option<string>, fetches: seq<Option<seq<StoredRow>>>)
    requires cursor.Some? && cursor.value != "" && ParseInt(cursor.value).None?
    ensures Ticks(cursor, fetches) == Polls([], cursor)
    decreases |fetches|
  {
    if fetches != [] {
      CorruptCursorNeverFires(cursor, fetches[1..]);
    }
  }

  // ---------------------------------------------------------------------------
  // The sensor over the tables the listeners write
  // ---------------------------------------------------------------------------

  /** The stored status text of an ingestion row. */
  function StatusText(s: Ingestion.Status): string {
    match s
    case Running => "RUNNING"
    case Finish => "FINISH"
  }

  function Stored(j: Ingestion.Job): StoredRow {
    StoredRow(j.id, StatusText(j.status))
  }

  /** The (id, status) pairs of the ingestion table. */
  function DbListing(d: Ingestion.Db): set<StoredRow> {
    set k | k in d.rows :: Stored(d.rows[k])
  }

  /** `rows` is what a read of the ingestion table returns: each row stems from
      a job of the table and each job appears. */
  ghost predicate ListsDb(rows: seq<StoredRow>, d: Ingestion.Db) {
    forall r :: r in rows <==> r in DbListing(d)
  }

  /** Two reads with the same FINISH rows give the same MAX. */
  lemma SameFinishedSameMax(a: seq<StoredRow>, b: seq<StoredRow>)
    requires forall r :: IsFinished(r) ==> (r in a <==> r in b)
    ensures MaxFinishedId(a) == MaxFinishedId(b)
  {
    var ma := MaxFinishedId(a);
    if ma.Some? {
      assert IsFinished(StoredRow(ma.value, "FINISH"));
      forall r | r in b && IsFinished(r)
        ensures r.id <= ma.value
      {
        assert r in a;
      }
      MaxIsUnique(b, ma.value);
    } else {
      assert forall r :: r in b ==> !IsFinished(r);
    }
  }

  /** A RUNNING report never moves the mark: the FINISH rows are unchanged. */
  lemma StartNotSignalled(d: Ingestion.Db, p: PrintSection, raw: string, now: int,
                          before: seq<StoredRow>, after: seq<StoredRow>)
    requires Ingestion.ValidDb(d)
    requires ListsDb(before, d) && ListsDb(after, Ingestion.OnRunning(d, p, raw, now))
    ensures CurrentMaxId(after) == CurrentMaxId(before)
  {
    var e := Ingestion.OnRunning(d, p, raw, now);
    forall r | IsFinished(r)
      ensures r in DbListing(d) <==> r in DbListing(e)
    {
      if r in DbListing(e) {
        var k :| k in e.rows && r == Stored(e.rows[k]);
        assert k in d.rows && e.rows[k] == d.rows[k];
      }
      if r in DbListing(d) {
        var k :| k in d.rows && r == Stored(d.rows[k]);
        assert k in e.rows && e.rows[k] == d.rows[k];
      }
    }
    SameFinishedSameMax(before, after);
  }

  /** A FINISH for an untracked job inserts the largest id, so a sensor that
      had caught up fires for it. */
  lemma OrphanFinishSignalled(d: Ingestion.Db, p: PrintSection, raw: string, now: int,
                              before: seq<StoredRow>, after: seq<StoredRow>, cursor: Option<string>)
    requires Ingestion.ValidDb(d)
    requires Ingestion.StableJobId(p).Some? && Ingestion.StableJobId(p).value !in d.rows
    requires ListsDb(before, d) && ListsDb(after, Ingestion.OnFinish(d, p, raw, now))
    requires PreviousMaxId(cursor) == Some(CurrentMaxId(before))
    ensures Evaluate(cursor, Some(after)).request == Some(RunRequest(IntToString(d.nextId)))
  {
    var id := Ingestion.StableJobId(p).value;
    var e := Ingestion.OnFinish(d, p, raw, now);
    assert Stored(e.rows[id]) in DbListing(e);
    assert StoredRow(d.nextId, "FINISH") in after;
    forall r | r in after && IsFinished(r)
      ensures r.id <= d.nextId
    {
      assert r in DbListing(e);
    }
    MaxIsUnique(after, d.nextId);
    var c := CurrentMaxId(before);
    if c != 0 {
      assert StoredRow(c, "FINISH") in DbListing(d);
    }
  }

  /** A RUNNING job that finishes after a later-started job already finished
      leaves MAX(id) where it was: the sensor misses that completion. */
  lemma LateFinishNotSignalled(d: Ingestion.Db, p: PrintSection, raw: string, now: int,
                               before: seq<StoredRow>, after: seq<StoredRow>)
    requires Ingestion.ValidDb(d)
    requires Ingestion.StableJobId(p).Some?
    requires var id := Ingestion.StableJobId(p).value;
      id in d.rows && d.rows[id].status == Ingestion.Running &&
      exists k :: k in d.rows && d.rows[k].status == Ingestion.Finish && d.rows[k].id > d.rows[id].id
    requires ListsDb(before, d) && ListsDb(after, Ingestion.OnFinish(d, p, raw, now))
    ensures CurrentMaxId(after) == CurrentMaxId(before)
  {
    var id := Ingestion.StableJobId(p).value;
    var e := Ingestion.OnFinish(d, p, raw, now);
    var k :| k in d.rows && d.rows[k].status == Ingestion.Finish && d.rows[k].id > d.rows[id].id;
    assert Stored(d.rows[k]) in DbListing(d);
    assert IsFinished(Stored(d.rows[k]));
    var m := MaxFinishedId(before).value;
    assert StoredRow(m, "FINISH") in DbListing(d);
    var km :| km in d.rows && StoredRow(m, "FINISH") == Stored(d.rows[km]);
    assert km != id && e.rows[km] == d.rows[km];
    assert StoredRow(m, "FINISH") in DbListing(e);
    forall r | r in after && IsFinished(r)
      ensures r.id <= m
    {
      assert r in DbListing(e);
      var kr :| kr in e.rows && r == Stored(e.rows[kr]);
      if kr != id {
        assert e.rows[kr] == d.rows[kr];
        assert r in DbListing(d);
      }
    }
    MaxIsUnique(after, m);
  }

  /** The rows of the older listener's table as the sensor reads them. */
  function LegacyListing(l: Legacy.Log): (rows: seq<StoredRow>)
    ensures |rows| == |l.rows|
    ensures forall i :: 0 <= i < |rows| ==> rows[i] == StoredRow(l.rows[i].id, l.rows[i].status)
  {
    seq(|l.rows|, i requires 0 <= i < |l.rows| => StoredRow(l.rows[i].id, l.rows[i].status))
  }

  /** Every job the older listener logs has a fresh, largest id, so a sensor
      that had caught up fires with that id as the run key. */
  lemma LegacyFinishSignalled(l: Legacy.Log, msg: Message, now: int, cursor: Option<string>)
    requires Legacy.ValidLog(l) && Legacy.Handle(l, msg, now) != l
    requires PreviousMaxId(cursor) == Some(CurrentMaxId(LegacyListing(l)))
    ensures Evaluate(cursor, Some(LegacyListing(Legacy.Handle(l, msg, now))))
         == Outcome(Some(RunRequest(IntToString(l.nextId))), Some(IntToString(l.nextId)))
  {
    var after := LegacyListing(Legacy.Handle(l, msg, now));
    var before := LegacyListing(l);
    assert after[|l.rows|] == StoredRow(l.nextId, "FINISH");
    forall r | r in after
      ensures r.id <= l.nextId
    {
      var i :| 0 <= i < |after| && after[i] == r;
    }
    MaxIsUnique(after, l.nextId);
    var c := CurrentMaxId(before);
    if c != 0 {
      var i :| 0 <= i < |before| && before[i] == StoredRow(c, "FINISH");
    }
  }

  // ---------------------------------------------------------------------------
  // The stateful implementation
  // ---------------------------------------------------------------------------

  /** The part of Dagster's sensor context the sensor uses: its stored cursor. */
  class SensorContext {
    var cursor: Option<string>

    constructor (cursor: Option<string>)
      ensures this.cursor == cursor
    {
      this.cursor := cursor;
    }

    /** context.update_cursor. */
    method UpdateCursor(value: string)
      modifies this
      ensures cursor == Some(value)
    {
      cursor := Some(value);
    }
  }

  /** new_print_job_sensor: yields at most one request and moves the cursor
      with it, as Evaluate says. */
  method NewPrintJobSensor(context: SensorContext, read: Option<seq<StoredRow>>) returns (request: Option<RunRequest>)
    modifies context
    ensures Outcome(request, context.cursor) == Evaluate(old(context.cursor), read)
  {
    request := None;
    if read.None? {
      // sqlite3 raised; the handler logs the error
      return;
    }
    var current := CurrentMaxId(read.value);
    var previous: int;
    if context.cursor.None? || context.cursor.value == "" {
      previous := -1;
    } else {
      var parsed := ParseInt(context.cursor.value);
      if parsed.None? {
        // int() raised ValueError; the handler logs the error
        return;
      }
      previous := parsed.value;
    }
    if current > previous {
      request := Some(RunRequest(IntToString(current)));
      context.UpdateCursor(IntToString(current));
    }
  }
}
