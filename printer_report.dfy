/// A decoded status report from the printer's `device/<serial>/report`
/// topic, as both listeners read it, and the lookups they make in its
/// `print` section.
module PrinterReport {
  import opened PyValues

  /** The `print` section of a printer report; a field is None when its key is
      absent from the JSON object. */
  datatype PrintSection = PrintSection(
    gcodeState: Option<Value>,
    taskId: Option<Value>,
    subtaskName: Option<Value>,
    gcodeStartTime: Option<Value>)

  /** A decoded report: of the top-level JSON object only the `print` key matters. */
  datatype Report = Report(printSection: Option<PrintSection>)

  /** One delivered message: its decoded report (None when the payload is not
      UTF-8 JSON) and the payload text that is stored as raw_json. */
  datatype Message = Message(report: Option<Report>, text: string)

  /** A message together with its receipt time in epoch seconds. */
  datatype Delivery = Delivery(msg: Message, now: int)

  /** data.get('task_id') */
  function TaskId(p: PrintSection): Value {
    p.taskId.GetOr(Null)
  }

  /** data.get('gcode_start_time') */
  function StartStamp(p: PrintSection): Value {
    p.gcodeStartTime.GetOr(Null)
  }

  /** data.get('subtask_name', 'Unknown') */
  function DisplayName(p: PrintSection): Value {
    p.subtaskName.GetOr(Str("Unknown"))
  }

  /** data.get('gcode_state', 'UNKNOWN') */
  function GcodeState(p: PrintSection): Value {
    p.gcodeState.GetOr(Str("UNKNOWN"))
  }
}
