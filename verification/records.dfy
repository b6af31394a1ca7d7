/** The report record that the chat assistant and the manual form hand to the
    application shell. A JavaScript object whose keys may be absent becomes a
    record of optional fields. */
module Records {

  datatype Option<+T> = None | Some(value: T)

  /** One incident report. `id` is the shell's clock-derived number; every
      other field is text. A field is `None` when the object lacks that key. */
  datatype Report = Report(
    crimeType: Option<string>,
    description: Option<string>,
    location: Option<string>,
    timestamp: Option<string>,
    status: Option<string>,
    id: Option<int>)

  /** The status every stored report carries. */
  const PendingStatus: string := "pending"

  /** The record the chat assistant emits: only the crime type is set. */
  function ChatReport(crimeType: string): (r: Report)
    ensures r.crimeType == Some(crimeType)
    ensures r.description.None? && r.location.None? && r.timestamp.None?
    ensures r.status.None? && r.id.None?
  {
    Report(Some(crimeType), None, None, None, None, None)
  }
}
