/** The application shell: it owns the report store and wires the chat
    assistant's and the form's submissions into it. Each event comes with the
    clock reading the shell would use as the new report's id. */
module Shell {
  import opened Records
  import Dialogue
  import Form
  import Store
  import Feed

  datatype App = App(chat: Dialogue.ChatState, form: Form.Fields, reports: seq<Report>)

  const Init: App := App(Dialogue.Initial, Form.Blank, [])

  datatype Event = ChatEvent(chatAction: Dialogue.Action) | FormEvent(formAction: Form.Action)

  /** `after` is `before` with zero or more reports put in front. */
  predicate Extends(after: seq<Report>, before: seq<Report>) {
    |before| <= |after| && after[|after| - |before|..] == before
  }

  lemma ExtendsTransitive(r: seq<Report>, mid: seq<Report>, base: seq<Report>)
    requires Extends(r, mid) && Extends(mid, base)
    ensures Extends(r, base)
  {
    assert r[|r| - |mid|..][|mid| - |base|..] == r[|r| - |base|..];
  }

  /** Passes the chat's report submissions to the store in order; navigation
      requests leave the store alone. */
  function ApplyEffects(reports: seq<Report>, effects: seq<Dialogue.Effect>, now: int): (r: seq<Report>)
    ensures |r| == |reports| + Dialogue.Submissions(effects)
    ensures Extends(r, reports)
    // a single submission stores that very report, stamped
    ensures |effects| == 1 && effects[0].SubmitReport? ==> r == Store.Submit(reports, effects[0].report, now)
    decreases |effects|
  {
    if effects == [] then reports
    else
      var next := if effects[0].SubmitReport? then Store.Submit(reports, effects[0].report, now) else reports;
      var r := ApplyEffects(next, effects[1..], now);
      ExtendsTransitive(r, next, reports);
      assert |effects| == 1 ==> effects[1..] == [] && r == next;
      r
  }

  /** One event: a chat action advances the chat and leaves the form alone, a
      form action advances the form and leaves the chat alone, and the store
      gains one report in front exactly when the event submits one: the
      clicked crime type alone, or the form's fields with the converted
      instant, in both cases pending and with the clock id. */
  function Step(app: App, ev: Event, now: int, toIso: Form.IsoConversion): (next: App)
    ensures ev.ChatEvent? ==> next.form == app.form
    ensures ev.FormEvent? ==> next.chat == app.chat
    // the component the event is for advances by its own transition
    ensures ev.ChatEvent? ==> next.chat == Dialogue.Step(app.chat, ev.chatAction, true).state
    ensures ev.FormEvent? ==> next.form == Form.Step(app.form, ev.formAction, toIso).fields
    ensures |next.reports| == |app.reports| + (if Submits(app, ev, toIso) then 1 else 0)
    ensures Extends(next.reports, app.reports)
    ensures ev.ChatEvent? && ev.chatAction.Click? && ev.chatAction.option in Dialogue.CrimeTypes ==>
      next.reports == [ChatReport(ev.chatAction.option).(status := Some(PendingStatus), id := Some(now))] + app.reports
    ensures ev.FormEvent? && Submits(app, ev, toIso) ==>
      next.reports == [Report(Some(app.form.crimeType), Some(app.form.description), Some(app.form.location),
                              toIso(app.form.date, app.form.time), Some(PendingStatus), Some(now))] + app.reports
  {
    match ev
    case ChatEvent(a) =>
      var t := Dialogue.Step(app.chat, a, true);
      assert a.Click? && a.option in Dialogue.CrimeTypes ==>
        t.effects == [Dialogue.SubmitReport(ChatReport(a.option))] by {
        if a.Click? && a.option in Dialogue.CrimeTypes {
          assert t.effects[0] in t.effects && t.effects[1..] == [];
        }
      }
      App(t.state, app.form, ApplyEffects(app.reports, t.effects, now))
    case FormEvent(a) =>
      var o := Form.Step(app.form, a, toIso);
      App(app.chat, o.fields, if o.emitted.Some? then Store.Submit(app.reports, o.emitted.value, now) else app.reports)
  }

  /** Whether an event hands a report to the store: a click on a crime type in
      the chat, or a submission of a complete form whose date and time name a
      valid instant. */
  predicate Submits(app: App, ev: Event, toIso: Form.IsoConversion) {
    || (ev.ChatEvent? && ev.chatAction.Click? && ev.chatAction.option in Dialogue.CrimeTypes)
    || (ev.FormEvent? && ev.formAction.Send? && Form.Complete(app.form)
        && toIso(app.form.date, app.form.time).Some?)
  }

  /** Every stored report is pending and has an id. */
  predicate StoreOk(reports: seq<Report>) {
    forall i :: 0 <= i < |reports| ==> reports[i].status == Some(PendingStatus) && reports[i].id.Some?
  }

  /** One event adds one report in front of the store exactly when it submits,
      and otherwise leaves the store as it was. */
  lemma StepStore(app: App, ev: Event, now: int, toIso: Form.IsoConversion)
    requires StoreOk(app.reports)
    ensures var next := Step(app, ev, now, toIso).reports;
      && |next| == |app.reports| + (if Submits(app, ev, toIso) then 1 else 0)
      && Extends(next, app.reports)
      && StoreOk(next)
      && (Submits(app, ev, toIso) ==> next[0].id == Some(now))
  {
    match ev
    case ChatEvent(a) =>
      var t := Dialogue.Step(app.chat, a, true);
      assert |t.effects| <= 1 && Dialogue.Submissions(t.effects) == (if Submits(app, ev, toIso) then 1 else 0) by {
        if a.Click? {
        } else if a.Send? {
          assert t.effects == [];
        }
      }
      if t.effects != [] {
        var e := t.effects[0];
        assert t.effects[1..] == [];
        assert Dialogue.Submissions(t.effects) == (if e.SubmitReport? then 1 else 0);
        var next := if e.SubmitReport? then Store.Submit(app.reports, e.report, now) else app.reports;
        assert ApplyEffects(app.reports, t.effects, now) == next;
        assert StoreOk(next);
      }
    case FormEvent(a) =>
      Form.EmitsOnlyOnCompleteSubmit(app.form, a, toIso);
  }

  /** The app after a series of timed events. */
  function Run(app: App, events: seq<(Event, int)>, toIso: Form.IsoConversion): App
    decreases |events|
  {
    if events == [] then app else Run(Step(app, events[0].0, events[0].1, toIso), events[1..], toIso)
  }

  /** Over any run the store only grows at the front, by at most one report per
      event, keeps every earlier report unchanged, and holds only pending
      reports with ids. */
  lemma {:induction false} RunStore(app: App, events: seq<(Event, int)>, toIso: Form.IsoConversion)
    requires StoreOk(app.reports)
    ensures var r := Run(app, events, toIso).reports;
      && |r| <= |app.reports| + |events|
      && Extends(r, app.reports)
      && StoreOk(r)
    decreases |events|
  {
    if events != [] {
      var next := Step(app, events[0].0, events[0].1, toIso);
      var mid := next.reports;
      assert |mid| <= |app.reports| + 1 && Extends(mid, app.reports) && StoreOk(mid) by {
        StepStore(app, events[0].0, events[0].1, toIso);
      }
      RunStore(next, events[1..], toIso);
      var r := Run(next, events[1..], toIso).reports;
      ExtendsTransitive(r, mid, app.reports);
      assert Run(app, events, toIso).reports == r;
    }
  }

  /** Both views of any reachable store render with the corrected feed, and the
      empty-state branch is shown exactly while nothing has been reported. */
  lemma ViewsRender(events: seq<(Event, int)>, toIso: Form.IsoConversion)
    ensures var r := Run(Init, events, toIso).reports;
      && Feed.Render(Store.HomeView(r)).Ok?
      && Feed.Render(Store.ReportsView(r)).Ok?
      && (r == [] <==> Feed.Render(Store.HomeView(r)).value == Feed.NoReportsYet)
  {
    RunStore(Init, events, toIso);
    var r := Run(Init, events, toIso).reports;
    var h := Store.HomeView(r);
    assert forall i :: 0 <= i < |h| ==> h[i] == r[i];
    Feed.RenderShowsReportsInOrder(h);
    Feed.RenderShowsReportsInOrder(Store.ReportsView(r));
  }

  /** A run of one event is that event's step. */
  lemma RunOne(app: App, e: (Event, int), toIso: Form.IsoConversion)
    ensures Run(app, [e], toIso) == Step(app, e.0, e.1, toIso)
  {
    assert [e][1..] == [];
  }

  /** A run of two events is the two steps one after the other. */
  lemma RunTwo(app: App, first: (Event, int), second: (Event, int), toIso: Form.IsoConversion)
    ensures Run(app, [first, second], toIso) == Step(Step(app, first.0, first.1, toIso), second.0, second.1, toIso)
  {
    assert [first, second][1..] == [second];
    RunOne(Step(app, first.0, first.1, toIso), second, toIso);
  }

  /** After "Report a crime" then a crime type, the store holds exactly one
      report: that crime type alone, pending, with the clock id, and without a
      timestamp, description or location. */
  lemma CrimeClickStored(crimeType: string, now: int, toIso: Form.IsoConversion)
    requires crimeType in Dialogue.CrimeTypes
    ensures Run(Init, [(ChatEvent(Dialogue.Click("Report a crime")), 0),
                       (ChatEvent(Dialogue.Click(crimeType)), now)], toIso).reports
      == [Report(Some(crimeType), None, None, None, Some("pending"), Some(now))]
  {
    RunTwo(Init, (ChatEvent(Dialogue.Click("Report a crime")), 0), (ChatEvent(Dialogue.Click(crimeType)), now), toIso);
    var app1 := Step(Init, ChatEvent(Dialogue.Click("Report a crime")), 0, toIso);
    assert app1.reports == [];
  }

  /** Picking "Burglary" in the chat stores a report without a timestamp, and the
      home feed as written then throws on the first entry's date, while the
      corrected feed shows the report. */
  lemma ChatReportBreaksFeedAsWritten(now: int, toIso: Form.IsoConversion)
    ensures var app := Run(Init, [(ChatEvent(Dialogue.Click("Report a crime")), 0),
                                  (ChatEvent(Dialogue.Click("Burglary")), now)], toIso);
      && app.reports == [Report(Some("Burglary"), None, None, None, Some("pending"), Some(now))]
      && Feed.RenderAsWritten(Store.HomeView(app.reports)) == Feed.Err(Feed.InvalidTimeValue(0))
      && Feed.Render(Store.HomeView(app.reports)).Ok?
  {
    CrimeClickStored("Burglary", now, toIso);
    var r := Report(Some("Burglary"), None, None, None, Some("pending"), Some(now));
    assert Store.HomeView([r]) == [r];
    Feed.UntimedReportBreaksAsWritten(r);
  }
}
