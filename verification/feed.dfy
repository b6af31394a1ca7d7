/** The reports feed: a case-insensitive status-to-style lookup, the empty-state
    branch, and one entry per report in list order. Locale date formatting is
    not modelled; an entry carries the report's raw timestamp instead. */
module Feed {
  import opened Records
  import Text

  // Style classes of the status badge.
  const PendingClass: string := "bg-yellow-100 text-yellow-800 border-yellow-200"
  const InvestigatingClass: string := "bg-blue-100 text-blue-800 border-blue-200"
  const ResolvedClass: string := "bg-green-100 text-green-800 border-green-200"
  const ClosedClass: string := "bg-gray-100 text-gray-800 border-gray-200"
  const DefaultClass: string := "bg-gray-100 text-gray-800 border-gray-200"

  /** The four statuses the lookup knows. */
  datatype Status = Pending | Investigating | Resolved | Closed

  function Name(st: Status): string {
    match st
    case Pending => "pending"
    case Investigating => "investigating"
    case Resolved => "resolved"
    case Closed => "closed"
  }

  /** The intended badge of each known status. */
  function ClassOf(st: Status): string {
    match st
    case Pending => PendingClass
    case Investigating => InvestigatingClass
    case Resolved => ResolvedClass
    case Closed => ClosedClass
  }

  /** The known status a status text names, ignoring case. */
  function Parse(status: string): (r: Option<Status>)
    ensures r.Some? ==> Name(r.value) == Text.ToLower(status)
    ensures r.None? ==> forall st: Status :: Name(st) != Text.ToLower(status)
  {
    var key := Text.ToLower(status);
    if key == "pending" then Some(Pending)
    else if key == "investigating" then Some(Investigating)
    else if key == "resolved" then Some(Resolved)
    else if key == "closed" then Some(Closed)
    else None
  }

  /** `getStatusColor`: the badge classes for a status text; never empty. */
  function StatusColor(status: string): (cls: string)
    ensures cls != ""
    ensures cls in [PendingClass, InvestigatingClass, ResolvedClass, ClosedClass]
  {
    var key := Text.ToLower(status);
    if key == "pending" then PendingClass
    else if key == "investigating" then InvestigatingClass
    else if key == "resolved" then ResolvedClass
    else if key == "closed" then ClosedClass
    else DefaultClass
  }

  /** The lookup agrees with the status table: a known status, in any case, gets
      its own class, and every other text gets the default class, which is the
      closed class. */
  lemma StatusColorMatchesTable(status: string)
    ensures Parse(status).Some? ==> StatusColor(status) == ClassOf(Parse(status).value)
    ensures Parse(status).None? ==> StatusColor(status) == DefaultClass == ClassOf(Closed)
  {
  }

  /** Each of the yellow, blue and green badges is shown for exactly one status. */
  lemma DistinctBadges(status: string)
    ensures StatusColor(status) == PendingClass <==> Text.ToLower(status) == "pending"
    ensures StatusColor(status) == InvestigatingClass <==> Text.ToLower(status) == "investigating"
    ensures StatusColor(status) == ResolvedClass <==> Text.ToLower(status) == "resolved"
    ensures StatusColor(status) == ClosedClass <==>
      Text.ToLower(status) !in ["pending", "investigating", "resolved"]
  {
  }

  /** The lookup ignores case. */
  lemma StatusColorIgnoresCase(status: string)
    ensures StatusColor(status) == StatusColor(Text.ToLower(status))
  {
    Text.ToLowerIdempotent(status);
  }

  /** React list key: the report id when it is truthy, else the position. */
  datatype Key = IdKey(id: int) | IndexKey(index: nat)

  /** One rendered report. */
  datatype Entry = Entry(
    key: Key,
    date: Option<string>,
    status: string,
    crimeType: Option<string>,
    location: Option<string>,
    description: Option<string>)
  {
    /** The classes of the entry's status badge. */
    function BadgeClass(): string {
      StatusColor(status)
    }
  }

  datatype View = NoReportsYet | Entries(entries: seq<Entry>)

  /** Why rendering throws: `toLowerCase` of a missing status (a TypeError), or
      formatting the invalid date made from a missing timestamp (a RangeError). */
  datatype RenderError = MissingStatus(index: nat) | InvalidTimeValue(index: nat)

  datatype Result<T> = Ok(value: T) | Err(error: RenderError)

  /** `report.id || index`: an id of zero or no id at all is falsy, so the
      position is used instead. */
  function KeyOf(r: Report, index: nat): (k: Key)
    ensures k.IdKey? <==> r.id.Some? && r.id.value != 0
    ensures k.IdKey? ==> k.id == r.id.value
    ensures k.IndexKey? ==> k.index == index
  {
    if r.id.Some? && r.id.value != 0 then IdKey(r.id.value) else IndexKey(index)
  }

  /** Whether a report renders. The component as written needs a status and a
      timestamp (`strictDate`); the corrected one needs only the status. */
  predicate Renderable(r: Report, strictDate: bool) {
    r.status.Some? && (strictDate ==> r.timestamp.Some?)
  }

  /** Renders the report at position `index`; the date is evaluated before the
      status badge, so a report missing both fails on the date. */
  function RenderEntry(r: Report, index: nat, strictDate: bool): (e: Result<Entry>)
    ensures e.Ok? <==> Renderable(r, strictDate)
    ensures e.Ok? ==> && e.value.status == r.status.value && e.value.date == r.timestamp
                      && e.value.crimeType == r.crimeType && e.value.location == r.location
                      && e.value.description == r.description
    ensures e.Err? ==> e.error.index == index
    ensures e.Err? ==> (e.error.InvalidTimeValue? <==> strictDate && r.timestamp.None?)
  {
    if strictDate && r.timestamp.None? then Err(InvalidTimeValue(index))
    else if r.status.None? then Err(MissingStatus(index))
    else Ok(Entry(KeyOf(r, index), r.timestamp, r.status.value,
                  r.crimeType, r.location, r.description))
  }

  /** Renders `reports`, the first of which sits at position `offset`: it
      succeeds exactly when every report renders, with one entry per report,
      and otherwise fails with the error of the first report that does not. */
  function RenderList(reports: seq<Report>, offset: nat, strictDate: bool): (r: Result<seq<Entry>>)
    ensures r.Ok? <==> forall i :: 0 <= i < |reports| ==> Renderable(reports[i], strictDate)
    ensures r.Ok? ==> |r.value| == |reports|
    ensures r.Err? ==>
      && offset <= r.error.index < offset + |reports|
      && !Renderable(reports[r.error.index - offset], strictDate)
    decreases |reports|
  {
    if reports == [] then Ok([])
    else
      var head := RenderEntry(reports[0], offset, strictDate);
      var tail := RenderList(reports[1..], offset + 1, strictDate);
      if head.Err? then Err(head.error)
      else if tail.Err? then
        assert reports[1..][tail.error.index - (offset + 1)] == reports[tail.error.index - offset];
        Err(tail.error)
      else Ok([head.value] + tail.value)
  }

  /** A failing list fails at its first unrenderable report. */
  lemma {:induction false} RenderListFailsAtFirst(reports: seq<Report>, offset: nat, strictDate: bool)
    requires RenderList(reports, offset, strictDate).Err?
    ensures forall j :: 0 <= j < RenderList(reports, offset, strictDate).error.index - offset ==>
      Renderable(reports[j], strictDate)
    decreases |reports|
  {
    var head := RenderEntry(reports[0], offset, strictDate);
    if head.Ok? {
      var rest := RenderList(reports[1..], offset + 1, strictDate);
      assert rest.Err? && RenderList(reports, offset, strictDate).error == rest.error;
      RenderListFailsAtFirst(reports[1..], offset + 1, strictDate);
      forall j | 1 <= j < rest.error.index - offset
        ensures Renderable(reports[j], strictDate)
      {
        assert reports[j] == reports[1..][j - 1];
      }
    }
  }

  /** Entry i of a rendered list is report i rendered at its position. */
  lemma {:induction false} RenderListInOrder(reports: seq<Report>, offset: nat, strictDate: bool)
    requires RenderList(reports, offset, strictDate).Ok?
    ensures forall i :: 0 <= i < |reports| ==>
      Ok(RenderList(reports, offset, strictDate).value[i]) == RenderEntry(reports[i], offset + i, strictDate)
    decreases |reports|
  {
    if reports != [] {
      var head := RenderEntry(reports[0], offset, strictDate);
      var rest := RenderList(reports[1..], offset + 1, strictDate);
      assert head.Ok? && rest.Ok?;
      var r := RenderList(reports, offset, strictDate).value;
      assert r == [head.value] + rest.value;
      RenderListInOrder(reports[1..], offset + 1, strictDate);
      forall i | 0 <= i < |reports|
        ensures Ok(r[i]) == RenderEntry(reports[i], offset + i, strictDate)
      {
        if i > 0 {
          assert r[i] == rest.value[i - 1];
          assert reports[i] == reports[1..][i - 1];
          assert Ok(rest.value[i - 1]) == RenderEntry(reports[1..][i - 1], offset + 1 + (i - 1), strictDate);
        }
      }
    }
  }

  function RenderWith(reports: seq<Report>, strictDate: bool): (v: Result<View>)
    ensures reports == [] <==> v == Ok(NoReportsYet)
    ensures v.Ok? <==> forall i :: 0 <= i < |reports| ==> Renderable(reports[i], strictDate)
    ensures v.Ok? && reports != [] ==> v.value.Entries? && |v.value.entries| == |reports|
    ensures v.Err? ==> v.error.index < |reports| && !Renderable(reports[v.error.index], strictDate)
  {
    if |reports| == 0 then Ok(NoReportsYet)
    else
      match RenderList(reports, 0, strictDate)
      case Err(e) => Err(e)
      case Ok(entries) => Ok(Entries(entries))
  }

  /** The feed as written: it renders exactly when every report has a status and
      a timestamp, and otherwise throws at a report missing one of them. */
  function RenderAsWritten(reports: seq<Report>): (v: Result<View>)
    ensures reports == [] <==> v == Ok(NoReportsYet)
    ensures v.Ok? <==> forall i :: 0 <= i < |reports| ==> reports[i].status.Some? && reports[i].timestamp.Some?
    ensures v.Err? ==>
      && v.error.index < |reports|
      && (reports[v.error.index].status.None? || reports[v.error.index].timestamp.None?)
  {
    RenderWith(reports, true)
  }

  /** The feed with the date shown only when the report has a timestamp: it
      renders exactly when every report has a status, and otherwise throws at a
      report without one. */
  function Render(reports: seq<Report>): (v: Result<View>)
    ensures reports == [] <==> v == Ok(NoReportsYet)
    ensures v.Ok? <==> forall i :: 0 <= i < |reports| ==> reports[i].status.Some?
    ensures v.Err? ==> v.error.index < |reports| && reports[v.error.index].status.None?
  {
    RenderWith(reports, false)
  }

  /** The corrected feed renders every list whose reports all carry a status:
      the empty-state branch exactly for the empty list, otherwise one entry per
      report, in order, each showing that report's fields and badge. */
  lemma RenderShowsReportsInOrder(reports: seq<Report>)
    requires forall i :: 0 <= i < |reports| ==> reports[i].status.Some?
    ensures Render(reports).Ok?
    ensures reports == [] ==> Render(reports).value == NoReportsYet
    ensures reports != [] ==>
      && Render(reports).value.Entries?
      && |Render(reports).value.entries| == |reports|
      && forall i :: 0 <= i < |reports| ==>
           var e := Render(reports).value.entries[i];
           && e.key == KeyOf(reports[i], i)
           && e.crimeType == reports[i].crimeType
           && e.location == reports[i].location
           && e.description == reports[i].description
           && e.date == reports[i].timestamp
           && e.status == reports[i].status.value
           && e.BadgeClass() == StatusColor(reports[i].status.value)
  {
    if reports != [] {
      var l := RenderList(reports, 0, false);
      assert l.Ok?;
      RenderListInOrder(reports, 0, false);
      forall i | 0 <= i < |reports|
        ensures Render(reports).value.entries[i].key == KeyOf(reports[i], i)
      {
        assert Ok(l.value[i]) == RenderEntry(reports[i], i, false);
      }
    }
  }

  /** Where every report has a timestamp, the feed as written and the corrected
      feed show the same thing; otherwise the one as written throws. */
  lemma AsWrittenAgreesWhenTimestamped(reports: seq<Report>)
    requires forall i :: 0 <= i < |reports| ==> reports[i].status.Some?
    ensures RenderAsWritten(reports).Ok? <==> forall i :: 0 <= i < |reports| ==> reports[i].timestamp.Some?
    ensures RenderAsWritten(reports).Ok? ==> RenderAsWritten(reports) == Render(reports)
  {
    if reports != [] && RenderAsWritten(reports).Ok? {
      var strict := RenderList(reports, 0, true).value;
      var loose := RenderList(reports, 0, false).value;
      RenderListInOrder(reports, 0, true);
      RenderListInOrder(reports, 0, false);
      assert forall i :: 0 <= i < |reports| ==> RenderEntry(reports[i], i, true) == RenderEntry(reports[i], i, false);
      assert |strict| == |loose|;
      forall i | 0 <= i < |strict|
        ensures strict[i] == loose[i]
      {
        assert Ok(strict[i]) == RenderEntry(reports[i], i, true);
        assert Ok(loose[i]) == RenderEntry(reports[i], i, false);
      }
      assert strict == loose;
    }
  }

  /** A single report without a timestamp makes the feed as written throw on
      the first entry's date, while the corrected feed shows it if it has a
      status. */
  lemma UntimedReportBreaksAsWritten(r: Report)
    requires r.timestamp.None?
    ensures RenderAsWritten([r]) == Err(InvalidTimeValue(0))
    ensures r.status.Some? ==> Render([r]).Ok?
  {
    assert RenderList([r], 0, true) == Err(InvalidTimeValue(0));
  }
}
