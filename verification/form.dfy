/** The manual report form: five text fields, a guard that every one of them is
    non-empty, and a submission that emits a complete pending report and clears
    the form. Turning the date and time into an ISO-8601 instant depends on the
    browser's clock and time zone, so that conversion is a parameter. */
module Form {
  import opened Records
  import Dialogue
  import Text

  /** The crime types the form's drop-down lists, in display order. */
  const CrimeTypes: seq<string> := [
    "Robbery", "Assault", "Burglary", "Car Theft",
    "Vandalism", "Drug-related Crime", "Fraud", "Other"]

  datatype Fields = Fields(crimeType: string, description: string, location: string, date: string, time: string)

  const Blank: Fields := Fields("", "", "", "", "")

  /** The guard: a field counts as filled when it is not the empty string
      (surrounding whitespace is not trimmed). */
  predicate Complete(f: Fields) {
    f.crimeType != "" && f.description != "" && f.location != "" && f.date != "" && f.time != ""
  }

  /** The form after a submission attempt and the report it emitted, if any. */
  datatype Outcome = Outcome(fields: Fields, emitted: Option<Report>)

  /** `new Date(`${date}T${time}`).toISOString()`: the instant the date and time
      name in the browser's time zone, or None where they name no valid instant
      (a year beyond what a JavaScript date holds, say), for which
      `toISOString` throws a RangeError. */
  type IsoConversion = (string, string) -> Option<string>

  function Submit(f: Fields, toIso: IsoConversion): (o: Outcome)
    // an incomplete form emits nothing and keeps every field
    ensures !Complete(f) ==> o == Outcome(f, None)
    // a complete form whose date and time make no valid instant throws before
    // the report is handed over and before the reset
    ensures Complete(f) && toIso(f.date, f.time).None? ==> o == Outcome(f, None)
    // otherwise one pending report built from the fields is emitted and the form is cleared
    ensures Complete(f) && toIso(f.date, f.time).Some? ==>
      && o.emitted.Some?
      && o.emitted.value.crimeType == Some(f.crimeType)
      && o.emitted.value.description == Some(f.description)
      && o.emitted.value.location == Some(f.location)
      && o.emitted.value.timestamp == toIso(f.date, f.time)
      && o.emitted.value.status == Some(PendingStatus)
      && o.emitted.value.id.None?
      && o.fields == Blank
  {
    if f.crimeType == "" || f.description == "" || f.location == "" || f.date == "" || f.time == "" then
      Outcome(f, None)
    else
      match toIso(f.date, f.time)
      case None => Outcome(f, None)
      case Some(instant) =>
        Outcome(Blank, Some(Report(Some(f.crimeType), Some(f.description), Some(f.location),
                                   Some(instant), Some(PendingStatus), None)))
  }

  /** A user action on the form: editing one field, or submitting. */
  datatype Action =
    | ChooseCrime(value: string)
    | SetDescription(value: string)
    | SetLocation(value: string)
    | SetDate(value: string)
    | SetTime(value: string)
    | Send

  function Step(f: Fields, a: Action, toIso: IsoConversion): (o: Outcome)
    // an edit emits nothing, sets its own field and leaves the other four alone
    ensures !a.Send? ==> o.emitted.None?
    ensures a.ChooseCrime? ==> o.fields.crimeType == a.value && o.fields.(crimeType := f.crimeType) == f
    ensures a.SetDescription? ==> o.fields.description == a.value && o.fields.(description := f.description) == f
    ensures a.SetLocation? ==> o.fields.location == a.value && o.fields.(location := f.location) == f
    ensures a.SetDate? ==> o.fields.date == a.value && o.fields.(date := f.date) == f
    ensures a.SetTime? ==> o.fields.time == a.value && o.fields.(time := f.time) == f
    // a submission either emits and clears the form, or emits nothing and keeps it
    ensures a.Send? ==> (o.emitted.Some? <==> Complete(f) && toIso(f.date, f.time).Some?)
    ensures a.Send? ==> o.fields == if o.emitted.Some? then Blank else f
  {
    match a
    case ChooseCrime(v) => Outcome(f.(crimeType := v), None)
    case SetDescription(v) => Outcome(f.(description := v), None)
    case SetLocation(v) => Outcome(f.(location := v), None)
    case SetDate(v) => Outcome(f.(date := v), None)
    case SetTime(v) => Outcome(f.(time := v), None)
    case Send => Submit(f, toIso)
  }

  /** The values the crime drop-down can produce: its placeholder or a listed type. */
  predicate SelectValue(v: string) {
    v == "" || v in CrimeTypes
  }

  /** The form and the chat assistant offer the same crime types in the same order. */
  lemma SameCrimeTypesAsChat()
    ensures CrimeTypes == Dialogue.CrimeTypes
  {
  }

  /** Only a submission emits a report, and then exactly when the form is
      complete and its date and time name a valid instant. */
  lemma EmitsOnlyOnCompleteSubmit(f: Fields, a: Action, toIso: IsoConversion)
    ensures Step(f, a, toIso).emitted.Some? <==> a == Send && Complete(f) && toIso(f.date, f.time).Some?
  {
  }

  /** A second submission right after a successful one emits nothing: the reset
      form fails the guard. */
  lemma NoDoubleSubmit(f: Fields, toIso: IsoConversion)
    requires Submit(f, toIso).emitted.Some?
    ensures Submit(Submit(f, toIso).fields, toIso) == Outcome(Blank, None)
  {
  }

  /** The guard does not trim: a description of whitespace only is accepted and
      emitted as typed, although the chat input guard would discard the same text. */
  lemma WhitespaceDescriptionAccepted(f: Fields, toIso: IsoConversion)
    requires f.crimeType != "" && f.location != "" && f.date != "" && f.time != ""
    requires f.description != "" && Text.AllWhitespace(f.description)
    requires toIso(f.date, f.time).Some?
    ensures Text.Trim(f.description) == ""
    ensures Submit(f, toIso).emitted.Some?
    ensures Submit(f, toIso).emitted.value.description == Some(f.description)
  {
  }

  /** The form after a series of actions and the reports it emitted, in order. */
  function Run(f: Fields, actions: seq<Action>, toIso: IsoConversion): (Fields, seq<Report>)
    decreases |actions|
  {
    if actions == [] then (f, [])
    else
      var o := Step(f, actions[0], toIso);
      var rest := Run(o.fields, actions[1..], toIso);
      (rest.0, (if o.emitted.Some? then [o.emitted.value] else []) + rest.1)
  }

  /** A crime type chosen through the drop-down is one of the listed types, so
      every report the form emits carries a listed crime type and is pending. */
  lemma {:induction false} EmittedCrimeTypesAreListed(f: Fields, actions: seq<Action>, toIso: IsoConversion)
    requires SelectValue(f.crimeType)
    requires forall i :: 0 <= i < |actions| && actions[i].ChooseCrime? ==> SelectValue(actions[i].value)
    ensures SelectValue(Run(f, actions, toIso).0.crimeType)
    ensures forall r :: r in Run(f, actions, toIso).1 ==>
      r.crimeType.Some? && r.crimeType.value in CrimeTypes && r.status == Some(PendingStatus)
    decreases |actions|
  {
    if actions != [] {
      var o := Step(f, actions[0], toIso);
      assert actions[0].ChooseCrime? ==> SelectValue(actions[0].value);
      assert SelectValue(o.fields.crimeType);
      EmittedCrimeTypesAreListed(o.fields, actions[1..], toIso);
    }
  }
}
