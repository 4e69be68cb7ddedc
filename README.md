# bambuzled job lifecycle, modelled in Dafny

bambuzled listens to a 3D printer's MQTT status reports and keeps a history of
print jobs in an SQLite `jobs` table. A Dagster sensor polls that table and
asks for a dbt transformation run whenever a new finished job appears. This
project models the three parts of the repository that decide what ends up in
the table and when the sensor fires. It proves properties of that model.

- **The correlator** (`ingestion/listener.py`, module `Ingestion`):
  - `get_stable_job_id` picks an identity for a report. It uses the cloud task
    id first, then `<name>_<seconds>` built from the local start stamp, and
    finally `unknown_<name>`.
  - `handle_print_start` inserts one RUNNING row per identity. The UNIQUE
    index turns a repeat into a no-op.
  - `handle_print_finish` finishes a RUNNING row and computes its duration.
    It leaves a FINISH row alone, and it records an *orphan* FINISH row for an
    identity it has never seen.
  - `on_message` places a sampling throttle in front of the dispatch on
    `gcode_state`.
  - The pure transition functions (`OnRunning`, `OnFinish`, `Dispatch`,
    `Handle`, `Step`, `Run`) specify the behaviour. The classes `JobsTable`
    and `Listener` and the methods `HandlePrintStart` and `HandlePrintFinish`
    are the stateful implementation, and each is proved against its function.
- **The older listener** (`listener.py`, module `Legacy`):
  - It uses the same throttle.
  - It logs only FINISH reports, into an append-only table with no job key.
  - `is_duplicate_log` skips a file name logged within the last five
    minutes. Its SQL `=` never matches NULL, so an unnamed job is logged
    every time.
- **The sensor** (`orchestration/repo.py`, module `Sensor`):
  - It reads `MAX(id)` over the FINISH rows, treating NULL and 0 as 0.
  - It reads the previous mark from its cursor: -1 when the cursor is unset
    or empty, otherwise `int()` of it.
  - It yields a `RunRequest` keyed by `str(current)` only when the mark has
    grown, and then stores the new mark.
  - Lemmas connect the sensor to the tables both listeners write.

Shared modules:
- `PyValues` holds the JSON scalars and the Python and SQLite conversions
  that the core relies on: truthiness, `str`, `int`, `int(float(...))`,
  TEXT affinity, and SQL `=` on NULL.
- `PrinterReport` holds the decoded report and its `dict.get` defaults.
- `Throttle` holds the sampling gate.

Inputs from the outside world become parameters:
- Each receipt time `now`, in epoch seconds, is the value of `time.time()`
  and `datetime.now()`.
- The sensor's database read is an `Option` of its rows. `None` stands for
  an sqlite3 exception.
- A decoded payload is a `Message`. Its `report` is `None` when
  `json.loads` raises.

Where the code differs from the intended design of the system, the model
follows the code:
- **The identity is partial.** A truthy `gcode_start_time` that `float()`
  rejects makes `get_stable_job_id` raise. `StableJobId` returns `None` in
  that case, and the message then changes nothing.
- **Seconds are truncated, not floored.** `int(float(...))` truncates toward
  zero, so a negative stamp such as -1.5 becomes -1
  (`PyValues.TruncatesTowardZero`).
- **A duration can be negative.** Nothing guarantees that a stored duration
  is non-negative. A start stamp later than the FINISH receipt is stored
  as it is (`Ingestion.NegativeDurationStored`).

## Model

| member | source | states |
|---|---|---|
| PyValues.ParseIntRoundTrip | orchestration/repo.py:36 | `int()` of the text `str()` writes for any integer gives that integer back |
| PyValues.IntToStringInjective | ingestion/listener.py:80 | two integers have the same `str()` text iff they are equal |
| PyValues.ParseInt | orchestration/repo.py:36 | `int()` of a string: an optional sign and at least one decimal digit, otherwise the ValueError case (`None`) |
| PyValues.TruncSeconds | ingestion/listener.py:80 | `int(float(v))` in the exact decimal reading: an int is itself, a bool is 1 or 0, a string goes through its decimal literal, and `None` and malformed strings are the raising case |
| PyValues.TruncatedDecimalOfInt | ingestion/listener.py:80 | in the model's exact decimal reading of `int(float(s))`, an integer's text, with or without any fractional digits, reads back as that integer |
| PyValues.TruncatesTowardZero | ingestion/listener.py:80 | `int(float())` drops the fraction toward zero: "1.5" gives 1 and "-1.5" gives -1 |
| Throttle.Admits | ingestion/listener.py:172-173 | a message is processed unless fewer than check_interval seconds have passed since the last processed one; listener.py:63 applies the same test |
| PrinterReport.TaskId | ingestion/listener.py:71 | `data.get('task_id')`: the value, or None when the key is absent |
| PrinterReport.StartStamp | ingestion/listener.py:78 | `data.get('gcode_start_time')`: the value, or None when the key is absent |
| PrinterReport.DisplayName | ingestion/listener.py:70 | `data.get('subtask_name', 'Unknown')`: the value, or "Unknown" when the key is absent |
| PrinterReport.GcodeState | ingestion/listener.py:185 | `data.get('gcode_state', 'UNKNOWN')`: the value, or "UNKNOWN" when the key is absent |
| Ingestion.IsCloudTaskId | ingestion/listener.py:74 | a task id is used when it is truthy and its `str()` is neither "-1" nor "0" |
| Ingestion.StableJobId | ingestion/listener.py:69-84 | a usable cloud task id is the identity; the identity is missing exactly when there is no usable cloud id and the start stamp is truthy but `float()` rejects it |
| Ingestion.StampedIdentityInjective | ingestion/listener.py:80-81 | `<name>_<seconds>` equals another such id iff both the names and the seconds are equal |
| Ingestion.StampedIdentity | ingestion/listener.py:77-81 | without a cloud id, two reports with parseable start stamps share an identity iff their display names and truncated seconds agree |
| Ingestion.UnsafeFallbackIdentity | ingestion/listener.py:83-84 | without a cloud id or a start stamp, two reports share an identity iff their display names agree |
| Ingestion.StartTime | ingestion/listener.py:91-95 | the stored start is `int(float(gcode_start_time))`, or the receipt time when the key is absent or `float()` raises |
| Ingestion.AddRow | ingestion/listener.py:52-61 | an insert takes the next AUTOINCREMENT id, which is larger than every existing id, and leaves the other rows unchanged |
| Ingestion.OnRunning | ingestion/listener.py:87-114 | a RUNNING report adds one RUNNING row for an untracked identity, with its resolved start, name and payload; a tracked identity or a missing identity leaves the table unchanged |
| Ingestion.OnFinish | ingestion/listener.py:116-158 | a FINISH report finishes a RUNNING row with end = now and duration (now - start)/60; it leaves a FINISH row alone; for an untracked identity it inserts an orphan row that starts and ends now and has no duration; only that one row changes |
| Ingestion.Dispatch | ingestion/listener.py:183-190 | the table changes only for a `print` section whose state is RUNNING or FINISH, and every change keeps rows and final FINISH rows |
| Ingestion.Handle | ingestion/listener.py:176-193 | an undecodable payload changes nothing; every change only evolves the table |
| Ingestion.Step | ingestion/listener.py:168-193 | a throttled message changes nothing; an admitted one sets last_processed_time to now, even when it fails to decode |
| Ingestion.RunEvolves | ingestion/listener.py:99-158 | over any stream, no row is deleted, no id, name or start changes, a row that changes ends up FINISH, and a FINISH row never changes, so each row changes at most once, from RUNNING to FINISH |
| Ingestion.HandleKeepsRowsConsistent | ingestion/listener.py:101-151 | one message keeps every row consistent: a RUNNING row has no end and no duration, and a duration is (end - start)/60 |
| Ingestion.RunKeepsRowsConsistent | ingestion/listener.py:133-142 | over any stream, every RUNNING row has no end and no duration, and every duration is (end - start)/60 |
| Ingestion.FinishIsFinal | ingestion/listener.py:128-131 | a FINISH row survives any later stream of messages unchanged |
| Ingestion.HandleKeepsIdsUnique | ingestion/listener.py:52-54 | one message keeps the id a primary key |
| Ingestion.RunKeepsIdsUnique | ingestion/listener.py:52-54 | any stream of messages keeps the id a primary key |
| Ingestion.SamplingScenario | ingestion/listener.py:171-174 | with interval I, messages at t0, t0+I-1 and t0+I are processed at t0 and t0+I only |
| Ingestion.RepeatsChangeNothing | ingestion/listener.py:99-131 | repeated RUNNING reports of a tracked job, or repeated FINISH reports of a finished job, leave the table unchanged |
| Ingestion.RepeatedRunning | ingestion/listener.py:87-114 | N >= 1 RUNNING reports of a new job give exactly one RUNNING row, started at the first report's start |
| Ingestion.StartStep | ingestion/listener.py:87-110 | the first RUNNING report of a new job adds only its row, RUNNING, with no end |
| Ingestion.FinishStep | ingestion/listener.py:128-143 | a FINISH report of a RUNNING job changes only that row: status FINISH, end = now, and the duration from the stored start |
| Ingestion.NegativeDurationStored | ingestion/listener.py:133-134 | a FINISH received before the stored start is recorded with a negative duration |
| Ingestion.RunningThenFinished | ingestion/listener.py:87-158 | one RUNNING and then N >= 1 FINISH reports of a new job give exactly one FINISH row; its end and duration come from the first FINISH only |
| Ingestion.StartThenFinish | ingestion/listener.py:87-143 | a RUNNING and then a FINISH report of a new job give one finished row, with its start taken from the RUNNING report |
| Ingestion.FinishThenRepeats | ingestion/listener.py:128-131 | after the first FINISH of a RUNNING job, further FINISH reports change nothing |
| Ingestion.RepeatedOrphanFinish | ingestion/listener.py:146-153 | N >= 1 FINISH reports of a never-started job give one orphan FINISH row, started and ended at the first report, with no duration |
| Ingestion.VaseScenario | ingestion/listener.py:87-144 | task 12345, started at 1700000000 and finished 600 s later, has one FINISH row with a duration of 10.0 minutes |
| Ingestion.CalibOrphanScenario | ingestion/listener.py:116-153 | a FINISH with task id "-1", no start stamp and name calib.gcode creates the orphan row `unknown_calib.gcode` with no duration |
| Ingestion.JobsTable.constructor | ingestion/listener.py:48-61 | a fresh table is empty and its first id is 1 |
| Ingestion.JobsTable.Find | ingestion/listener.py:125-126 | the lookup by job_id finds a row iff the job_id is tracked, and returns that row |
| Ingestion.JobsTable.Insert | ingestion/listener.py:99-110 | an insert succeeds iff the job_id is new, and otherwise leaves the table unchanged, as the IntegrityError path does |
| Ingestion.JobsTable.MarkFinished | ingestion/listener.py:136-143 | the UPDATE sets end, status, duration and payload of that job_id's row only |
| Ingestion.HandlePrintStart | ingestion/listener.py:87-114 | the new table is `OnRunning` of the old one |
| Ingestion.HandlePrintFinish | ingestion/listener.py:116-158 | the new table is `OnFinish` of the old one |
| Ingestion.Listener.constructor | ingestion/listener.py:34-45 | check_interval is the configured value, or 60 when the key is absent; last_processed_time starts at 0 |
| Ingestion.Listener.OnMessage | ingestion/listener.py:168-193 | the new throttle time and table are `Step` of the old ones |
| Legacy.IsDuplicateLog | listener.py:98-108 | some row has the same file name under SQL `=`, so a NULL name never matches, and a start later than 300 s before now |
| Legacy.IsFinishReport | listener.py:79-87 | the report has a `print` section holding a `gcode_state` key whose value is "FINISH" |
| Legacy.Subtask | listener.py:91-93 | `data.get('subtask_name')`: the value, or None (SQL NULL) when the key is absent |
| Legacy.AppendJob | listener.py:110-118 | save_job appends one row with the next, largest id, starting and ending now, and keeps every earlier row in place |
| Legacy.Handle | listener.py:69-96 | the table changes iff the report is a FINISH whose name is not a duplicate; the change appends a FINISH row with that name, start = end = now, a duration of 0 and the payload |
| Legacy.Step | listener.py:58-67 | a throttled message changes nothing; an admitted one sets last_processed_time to now |
| Legacy.RunAppendOnly | listener.py:110-118 | over any stream, the earlier rows stay in place and the next id never decreases |
| Legacy.NullNameNeverDeduplicated | listener.py:98-108 | a FINISH without subtask_name is never a duplicate, so it always appends a row |
| Legacy.WithinWindowLoggedOnce | listener.py:98-108 | two FINISH reports of the same named file less than 300 s apart log it once |
| Legacy.SameFileTwice | listener.py:98-118 | the same file finishing again 300 s or more later gets a second row with a larger id |
| Legacy.JobLog.constructor | listener.py:39-51 | a fresh log is empty and its first id is 1 |
| Legacy.JobLog.SaveJob | listener.py:110-118 | the new log is `AppendJob` of the old one |
| Legacy.LegacyListener.constructor | listener.py:22-36 | check_interval is the configured value, or 60 when the key is absent; last_processed_time starts at 0 |
| Legacy.LegacyListener.OnMessage | listener.py:58-96 | the new throttle time and log are `Step` of the old ones |
| Sensor.MaxFinishedId | orchestration/repo.py:28 | MAX(id) over the FINISH rows is NULL iff there is no FINISH row; otherwise it is the id of a FINISH row and bounds all of them |
| Sensor.CurrentMaxId | orchestration/repo.py:29-30 | a non-zero current mark is the MAX; a zero mark means no FINISH id is positive |
| Sensor.PreviousMaxId | orchestration/repo.py:36 | an unset or empty (falsy) cursor reads as -1, and a non-empty one as `int()` of its text |
| Sensor.Evaluate | orchestration/repo.py:22-49 | a request is yielded iff the read succeeded, the cursor parsed, and current > previous; its key and the new cursor are `str(current)`; otherwise the cursor is unchanged |
| Sensor.MaxIsUnique | orchestration/repo.py:28 | a FINISH id that is attained and bounds every FINISH id is the MAX |
| Sensor.CursorRoundTrip | orchestration/repo.py:36-45 | the cursor the sensor writes reads back as the mark it wrote |
| Sensor.CursorNeverDecreases | orchestration/repo.py:39-45 | from a readable cursor, the mark stays readable and never decreases |
| Sensor.SecondEvaluationQuiet | orchestration/repo.py:39-45 | a second evaluation over the same rows yields nothing |
| Sensor.FirstEvaluationOnEmptyTable | orchestration/repo.py:30-45 | with no cursor and no finished job, the first evaluation still fires, with key "0" |
| Sensor.Ticks | orchestration/repo.py:39-43 | each evaluation yields at most one request |
| Sensor.RunKeysIncrease | orchestration/repo.py:39-45 | over successive evaluations, the run keys are integers above the starting mark, at most the final mark, and strictly increasing |
| Sensor.DistinctRunKeys | orchestration/repo.py:41 | no two evaluations request a run with the same key |
| Sensor.CorruptCursorNeverFires | orchestration/repo.py:36-49 | a cursor that `int()` rejects stops the sensor for good, and the cursor stays as it is |
| Sensor.SameFinishedSameMax | orchestration/repo.py:28 | two reads with the same FINISH rows have the same MAX |
| Sensor.StartNotSignalled | orchestration/repo.py:27-30 | a RUNNING report never moves the mark over the correlator's table |
| Sensor.OrphanFinishSignalled | orchestration/repo.py:27-45 | an orphan FINISH gets the largest id, so a caught-up sensor fires with that id |
| Sensor.LateFinishNotSignalled | orchestration/repo.py:27-39 | a job that finishes after a later-inserted job already finished leaves the mark unchanged, so the sensor does not fire for it |
| Sensor.LegacyFinishSignalled | orchestration/repo.py:27-45 | every row the older listener logs has the largest id, so a caught-up sensor fires with that id and moves its cursor to it |
| Sensor.SensorContext.UpdateCursor | orchestration/repo.py:45 | update_cursor stores the given text |
| Sensor.NewPrintJobSensor | orchestration/repo.py:17-49 | the request yielded and the cursor left behind are `Evaluate` of the old cursor and the read |

## Left out

- MQTT, TLS, the connection callbacks and the `__main__` blocks are left out. So are reading the configuration file and its startup checks, and logging. The configured check_interval is a constructor parameter.
- The `latest_trace.json` dump is assumed to succeed. It runs inside the `try`, before the dispatch (ingestion/listener.py:180-181, listener.py:74-76). If writing it raised, an admitted message would spend its throttle slot and change nothing; the model does not capture that path.
- JSON decoding is taken as given. A payload is its decoded report, or `None` when decoding fails. Payloads that are not objects, and `print` sections that are not objects, are not modelled.
- JSON objects, lists and JSON floats are not modelled. A JSON number with a fraction or an exponent is a Python float even when it is integral (`1700000000.0`), and `Value` holds only null, booleans, integers and strings.
- PyValues.TruncSeconds: `float()` of strings is modelled for plain decimal literals only, read exactly. Exponents, surrounding whitespace, underscores, `inf` and `nan` are treated as raising, although Python accepts some of them. The rounding of `float()` to 53 bits is not modelled: Python gives 1 for `int(float("0.99999999999999999"))` and 9007199254740992 for `int(float("9007199254740993"))`, where the model gives 0 and 9007199254740993. The identity at ingestion/listener.py:80 and the start at ingestion/listener.py:92-93 differ from Python's for such literals.
- PyValues.TruncatedDecimalOfInt: it holds of the exact decimal reading only. In Python it fails for integers above 2^53 and for fractions long enough that `float()` rounds them up to the next integer.
- PyValues.ParseInt: Python's `int()` also accepts surrounding whitespace and underscores between digits. The model rejects them. The sensor only ever reads back cursors it wrote itself.
- Ingestion.StartTime: `datetime.fromtimestamp` can raise for out-of-range stamps, which falls back to the receipt time. The model stores the truncated stamp in every case.
- Ingestion.OnFinish: the code timestamps orphan rows with SQLite's UTC `datetime('now')` and other rows with local time. The model uses a single clock. Durations are exact reals rather than floating point.
- Ingestion.Step and Legacy.Step: each listener reads `time.time()` twice, once for the comparison and once for the store. The model uses one receipt time for both.
- SQLite failures other than the UNIQUE index (a locked or missing database file) are not modelled in either listener. The sensor's read does model failure, as `None`.
- Dagster's registration, the asset job, the `run_config={}` argument, and Dagster's own skipping of reused run keys are left out.
- Concurrency between the listeners and the sensor is left out. The sensor lemmas relate one read to one table state, through `Sensor.ListsDb` and `Sensor.LegacyListing`.
