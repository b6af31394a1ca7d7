/** The scripted chat assistant: a transcript of messages, a free-text input
    buffer, and two transitions, an option click and a free-text submission.
    Each turn is atomic (the reply delay is not modelled); navigation requests
    and report submissions are returned as effect values. */
module Dialogue {
  import opened Records
  import Text

  /** The eight crime types the assistant offers, in display order. */
  const CrimeTypes: seq<string> := [
    "Robbery", "Assault", "Burglary", "Car Theft",
    "Vandalism", "Drug-related Crime", "Fraud", "Other"]

  // The five recognised quick-reply tokens.
  const ReportACrime: string := "Report a crime"
  const FindStation: string := "Find nearest police station"
  const ViewReports: string := "View recent reports"
  const SubmitFormal: string := "Yes, submit report"
  const MoreDetails: string := "No, I have more details"

  const StationsPath: string := "/police-stations"
  const ReportsPath: string := "/reports"

  // Bot texts.
  const GreetingText: string := "Welcome to the Nairobi Crime Reporter! I'm here to help you report criminal activities. How can I assist you today?"
  const ChooseCrimeText: string := "Please select the type of crime you'd like to report:"
  const StationText: string := "I'll help you locate the nearest police station. Please allow access to your location when prompted."
  const ReportsText: string := "You can view recent reports in the Reports section."
  const FormalText: string := "I'll help you submit a formal report. Please use the form below to provide all the necessary details."
  const MoreDetailsText: string := "Please provide any additional details about the incident."
  const WhenWhereText: string := "Please provide more details about the incident. When and where did it occur?"
  const OptionAckText: string := "Thank you for providing that information. Would you like to submit a formal report now?"
  const TextAckText: string := "Thank you for sharing that information. Would you like to submit a formal report now?"

  /** The options offered after any unrecognised option and after free text. */
  const YesNo: seq<string> := [SubmitFormal, MoreDetails]

  /** One chat bubble. A user message offers no options. */
  datatype Message = Message(text: string, isBot: bool, options: seq<string>)

  function UserMessage(text: string): Message {
    Message(text, false, [])
  }

  function BotMessage(text: string, options: seq<string>): Message {
    Message(text, true, options)
  }

  const InitialMessage: Message := BotMessage(GreetingText, [ReportACrime, FindStation, ViewReports])

  /** What a turn asks of the world outside the assistant. */
  datatype Effect = Navigate(path: string) | SubmitReport(report: Report)

  /** The assistant's session state: the transcript and the text-input buffer. */
  datatype ChatState = ChatState(transcript: seq<Message>, input: string)

  const Initial: ChatState := ChatState([InitialMessage], "")

  /** The state after a turn together with the effects the turn requested. */
  datatype Turn = Turn(state: ChatState, effects: seq<Effect>)

  /** How a clicked option is understood, in the order the cases are tried. */
  datatype Intent =
    | StartReport
    | LocateStation
    | ShowReports
    | ConfirmFormal
    | AddDetails
    | PickCrime(crimeType: string)
    | Unrecognised

  function Classify(option: string): (i: Intent)
    ensures i.PickCrime? <==> option in CrimeTypes
    ensures i.PickCrime? ==> i.crimeType == option
    ensures i == Unrecognised <==>
      option !in CrimeTypes && option !in [ReportACrime, FindStation, ViewReports, SubmitFormal, MoreDetails]
  {
    if option == ReportACrime then StartReport
    else if option == FindStation then LocateStation
    else if option == ViewReports then ShowReports
    else if option == SubmitFormal then ConfirmFormal
    else if option == MoreDetails then AddDetails
    else if option in CrimeTypes then PickCrime(option)
    else Unrecognised
  }

  /** The bot's answer to an intent and the effects it requests. The submit
      callback is optional in the component, so `hasHandler` says whether one
      was supplied. */
  function Respond(intent: Intent, hasHandler: bool): (r: (Message, seq<Effect>))
    ensures r.0.isBot && r.0.text != ""
  {
    match intent
    case StartReport => (BotMessage(ChooseCrimeText, CrimeTypes), [])
    case LocateStation => (BotMessage(StationText, []), [Navigate(StationsPath)])
    case ShowReports => (BotMessage(ReportsText, []), [Navigate(ReportsPath)])
    case ConfirmFormal => (BotMessage(FormalText, []), [])
    case AddDetails => (BotMessage(MoreDetailsText, []), [])
    case PickCrime(c) =>
      (BotMessage(WhenWhereText, []), if hasHandler then [SubmitReport(ChatReport(c))] else [])
    case Unrecognised => (BotMessage(OptionAckText, YesNo), [])
  }

  /** Number of report submissions among the effects. */
  function Submissions(effects: seq<Effect>): nat {
    if effects == [] then 0
    else (if effects[0].SubmitReport? then 1 else 0) + Submissions(effects[1..])
  }

  /** Clicking a quick-reply option. */
  function ClickOption(st: ChatState, option: string, hasHandler: bool): (t: Turn)
    // the transcript grows by exactly two messages and keeps its history
    ensures |t.state.transcript| == |st.transcript| + 2
    ensures t.state.transcript[..|st.transcript|] == st.transcript
    // the user's message echoes the option, the bot's reply follows it
    ensures t.state.transcript[|st.transcript|] == UserMessage(option)
    ensures t.state.transcript[|st.transcript| + 1].isBot
    ensures t.state.transcript[|st.transcript| + 1].text != ""
    ensures t.state.input == st.input
    // at most one effect per click
    ensures |t.effects| <= 1
    // a report is submitted exactly when a crime type is picked and a handler exists
    ensures Submissions(t.effects) == (if option in CrimeTypes && hasHandler then 1 else 0)
    ensures forall e :: e in t.effects && e.SubmitReport? ==> e.report == ChatReport(option)
    // navigation is requested only by the two navigation options
    ensures forall p :: Navigate(p) in t.effects <==>
      (option == FindStation && p == StationsPath) || (option == ViewReports && p == ReportsPath)
  {
    var reply := Respond(Classify(option), hasHandler);
    Turn(ChatState(st.transcript + [UserMessage(option), reply.0], st.input), reply.1)
  }

  /** Typing into the text box replaces the buffer. */
  function EditInput(st: ChatState, text: string): (s: ChatState)
    ensures s.transcript == st.transcript && s.input == text
  {
    st.(input := text)
  }

  /** Submitting the free-text box. Whitespace-only input is ignored outright;
      anything else is echoed, answered with one fixed reply, and the buffer is
      cleared. No free text ever submits a report. */
  function SubmitText(st: ChatState): (t: Turn)
    ensures t.effects == []
    ensures Text.AllWhitespace(st.input) ==> t.state == st
    ensures !Text.AllWhitespace(st.input) ==>
      && t.state.transcript == st.transcript + [UserMessage(st.input), BotMessage(TextAckText, YesNo)]
      && t.state.input == ""
  {
    Text.TrimEmptyIff(st.input);
    if Text.Trim(st.input) == [] then Turn(st, [])
    else Turn(ChatState(st.transcript + [UserMessage(st.input), BotMessage(TextAckText, YesNo)], ""), [])
  }

  /** A user action on the assistant. */
  datatype Action = Click(option: string) | Type(text: string) | Send

  function Step(st: ChatState, a: Action, hasHandler: bool): Turn {
    match a
    case Click(o) => ClickOption(st, o, hasHandler)
    case Type(text) => Turn(EditInput(st, text), [])
    case Send => SubmitText(st)
  }

  /** The state after a series of actions, with all effects in request order. */
  function Run(st: ChatState, actions: seq<Action>, hasHandler: bool): Turn
    decreases |actions|
  {
    if actions == [] then Turn(st, [])
    else
      var first := Step(st, actions[0], hasHandler);
      var rest := Run(first.state, actions[1..], hasHandler);
      Turn(rest.state, first.effects + rest.effects)
  }

  /** Number of clicks on a crime type in a series of actions. */
  function CrimeClicks(actions: seq<Action>): nat {
    if actions == [] then 0
    else (if actions[0].Click? && actions[0].option in CrimeTypes then 1 else 0) + CrimeClicks(actions[1..])
  }

  /** Transcript shape: starts with a bot message and alternates bot, user, bot, ...,
      so every user message is immediately answered. */
  predicate Alternating(transcript: seq<Message>) {
    && |transcript| % 2 == 1
    && forall i :: 0 <= i < |transcript| ==> (transcript[i].isBot <==> i % 2 == 0)
  }

  /** Every option the bot itself offers. */
  function Offered(transcript: seq<Message>): set<string> {
    set i, o | 0 <= i < |transcript| && transcript[i].isBot && o in transcript[i].options :: o
  }

  /** No option the bot offers falls through to the fallback reply. */
  predicate OffersOnlyRecognised(transcript: seq<Message>) {
    forall o :: o in Offered(transcript) ==> Classify(o) != Unrecognised
  }

  lemma SubmissionsAppend(a: seq<Effect>, b: seq<Effect>)
    ensures Submissions(a + b) == Submissions(a) + Submissions(b)
  {
    if a == [] {
      assert a + b == b;
    } else {
      assert (a + b)[1..] == a[1..] + b;
      SubmissionsAppend(a[1..], b);
    }
  }

  /** The initial transcript is the greeting alone, offering the three menu entries. */
  lemma InitialMenu()
    ensures |Initial.transcript| == 1 && Initial.input == ""
    ensures Initial.transcript[0].isBot && Initial.transcript[0].text == GreetingText
    ensures Initial.transcript[0].options == ["Report a crime", "Find nearest police station", "View recent reports"]
    ensures Alternating(Initial.transcript)
  {
  }

  /** Asking to report a crime offers exactly the eight crime types, in order. */
  lemma ReportACrimeOffersCrimeTypes(st: ChatState, hasHandler: bool)
    ensures var t := ClickOption(st, "Report a crime", hasHandler);
      && t.state.transcript[|st.transcript| + 1].options
         == ["Robbery", "Assault", "Burglary", "Car Theft", "Vandalism", "Drug-related Crime", "Fraud", "Other"]
      && t.effects == []
  {
  }

  /** Picking a crime type submits `{crimeType: option}` once and offers no further options. */
  lemma CrimeTypeSubmitsOnce(st: ChatState, option: string)
    requires option in CrimeTypes
    ensures var t := ClickOption(st, option, true);
      && t.effects == [SubmitReport(ChatReport(option))]
      && t.state.transcript[|st.transcript| + 1] == BotMessage(WhenWhereText, [])
  {
  }

  /** Any option outside the recognised tokens and the crime types gets the fallback
      acknowledgement with the yes/no options, and no effect. */
  lemma UnrecognisedFallsBack(st: ChatState, option: string, hasHandler: bool)
    requires option !in CrimeTypes
    requires option !in [ReportACrime, FindStation, ViewReports, SubmitFormal, MoreDetails]
    ensures var t := ClickOption(st, option, hasHandler);
      && t.state.transcript[|st.transcript| + 1]
         == BotMessage(OptionAckText, ["Yes, submit report", "No, I have more details"])
      && t.effects == []
  {
  }

  /** The recognised tokens are not crime types, so the case order of the
      classifier never hides a crime type. */
  lemma TokensAreNotCrimeTypes()
    ensures forall o :: o in [ReportACrime, FindStation, ViewReports, SubmitFormal, MoreDetails] ==> o !in CrimeTypes
  {
  }

  /** Free text equal to a crime type is answered like any other text: no report. */
  lemma FreeTextNeverSubmits(st: ChatState, option: string)
    requires option in CrimeTypes
    ensures var t := Step(EditInput(st, option), Send, true);
      && t.effects == []
      && t.state.transcript == st.transcript + [UserMessage(option), BotMessage(TextAckText, YesNo)]
  {
    assert !Text.IsWhitespace(option[0]);
  }

  /** Every option the bot offers after a click is one the classifier recognises:
      the script has no dead buttons. */
  lemma RepliesOfferOnlyRecognisedOptions(st: ChatState, option: string, hasHandler: bool)
    ensures var reply := ClickOption(st, option, hasHandler).state.transcript[|st.transcript| + 1];
      forall o :: o in reply.options ==> Classify(o) != Unrecognised
  {
  }

  lemma OfferedAppend(a: seq<Message>, b: seq<Message>)
    ensures Offered(a + b) == Offered(a) + Offered(b)
  {
    forall o | o in Offered(a + b)
      ensures o in Offered(a) + Offered(b)
    {
      var i :| 0 <= i < |a + b| && (a + b)[i].isBot && o in (a + b)[i].options;
      if i < |a| {
        assert a[i] == (a + b)[i];
      } else {
        assert b[i - |a|] == (a + b)[i];
      }
    }
    forall o | o in Offered(a) + Offered(b)
      ensures o in Offered(a + b)
    {
      if o in Offered(a) {
        var i :| 0 <= i < |a| && a[i].isBot && o in a[i].options;
        assert (a + b)[i] == a[i];
      } else {
        var i :| 0 <= i < |b| && b[i].isBot && o in b[i].options;
        assert (a + b)[|a| + i] == b[i];
      }
    }
  }

  /** The options a user message and a bot reply add to the transcript are the reply's. */
  lemma OfferedByExchange(text: string, reply: Message)
    requires reply.isBot
    ensures Offered([UserMessage(text), reply]) == set o | o in reply.options
  {
    var m := [UserMessage(text), reply];
    forall o | o in Offered(m)
      ensures o in reply.options
    {
      var i :| 0 <= i < |m| && m[i].isBot && o in m[i].options;
    }
    forall o | o in reply.options
      ensures o in Offered(m)
    {
      assert m[1] == reply;
    }
  }

  /** The greeting offers only recognised options. */
  lemma GreetingOffersOnlyRecognised()
    ensures OffersOnlyRecognised(Initial.transcript)
  {
    forall o | o in Offered(Initial.transcript)
      ensures Classify(o) != Unrecognised
    {
      var i :| 0 <= i < 1 && Initial.transcript[i].isBot && o in Initial.transcript[i].options;
      assert o in [ReportACrime, FindStation, ViewReports];
    }
  }

  /** Whatever the user does, the replies added to the transcript offer only
      options the classifier recognises: the crime types, the yes/no pair after
      a click and after free text, or nothing. */
  lemma StepOffersOnlyRecognised(st: ChatState, a: Action, hasHandler: bool)
    requires OffersOnlyRecognised(st.transcript)
    ensures OffersOnlyRecognised(Step(st, a, hasHandler).state.transcript)
  {
    var t := Step(st, a, hasHandler).state.transcript;
    var n := |st.transcript|;
    if t != st.transcript {
      assert |t| == n + 2 && t[..n] == st.transcript;
      assert t == st.transcript + [t[n], t[n + 1]];
      OfferedAppend(st.transcript, [t[n], t[n + 1]]);
      if a.Click? {
        RepliesOfferOnlyRecognisedOptions(st, a.option, hasHandler);
      }
      assert t[n] == UserMessage(t[n].text);
      OfferedByExchange(t[n].text, t[n + 1]);
    }
  }

  /** A series of actions keeps a transcript whose options are all recognised
      in that state. */
  lemma {:induction false} RunOffersOnlyRecognised(st: ChatState, actions: seq<Action>, hasHandler: bool)
    requires OffersOnlyRecognised(st.transcript)
    ensures OffersOnlyRecognised(Run(st, actions, hasHandler).state.transcript)
    decreases |actions|
  {
    if actions != [] {
      StepOffersOnlyRecognised(st, actions[0], hasHandler);
      RunOffersOnlyRecognised(Step(st, actions[0], hasHandler).state, actions[1..], hasHandler);
    }
  }

  /** From the greeting, no series of actions leads to a dead option. */
  lemma NoDeadOptions(actions: seq<Action>, hasHandler: bool)
    ensures OffersOnlyRecognised(Run(Initial, actions, hasHandler).state.transcript)
  {
    GreetingOffersOnlyRecognised();
    RunOffersOnlyRecognised(Initial, actions, hasHandler);
  }

  /** One action appends zero or two messages, keeps the alternating shape, and
      submits a report exactly when it is a click on a crime type. */
  lemma StepInvariants(st: ChatState, a: Action)
    requires Alternating(st.transcript)
    ensures var t := Step(st, a, true);
      && |st.transcript| <= |t.state.transcript|
      && t.state.transcript[..|st.transcript|] == st.transcript
      && Alternating(t.state.transcript)
      && Submissions(t.effects) == (if a.Click? && a.option in CrimeTypes then 1 else 0)
  {
    var tr := Step(st, a, true).state.transcript;
    var n := |st.transcript|;
    if |tr| != n {
      assert |tr| == n + 2 && tr[..n] == st.transcript;
      assert !tr[n].isBot && tr[n + 1].isBot;
      forall i | 0 <= i < |tr|
        ensures tr[i].isBot <==> i % 2 == 0
      {
        if i < n {
          assert tr[i] == tr[..n][i];
        }
      }
    } else {
      assert tr == st.transcript;
    }
  }

  /** A series of actions only ever appends to the transcript, keeps its alternating
      shape, and submits exactly one report per crime-type click when a handler exists. */
  lemma {:induction false} RunInvariants(st: ChatState, actions: seq<Action>)
    requires Alternating(st.transcript)
    ensures var t := Run(st, actions, true);
      && |st.transcript| <= |t.state.transcript|
      && t.state.transcript[..|st.transcript|] == st.transcript
      && Alternating(t.state.transcript)
      && Submissions(t.effects) == CrimeClicks(actions)
    decreases |actions|
  {
    if actions != [] {
      var first := Step(st, actions[0], true);
      StepInvariants(st, actions[0]);
      RunInvariants(first.state, actions[1..]);
      var rest := Run(first.state, actions[1..], true);
      SubmissionsAppend(first.effects, rest.effects);
      var tr := first.state.transcript;
      assert rest.state.transcript[..|st.transcript|] == rest.state.transcript[..|tr|][..|st.transcript|];
    }
  }

  /** The script written out as a lookup table from each recognised option to the
      bot's reply and the effects it requests (with a submit handler present). */
  function ScriptTable(): map<string, (Message, seq<Effect>)> {
    map[
      "Report a crime" := (BotMessage(ChooseCrimeText, CrimeTypes), []),
      "Find nearest police station" := (BotMessage(StationText, []), [Navigate("/police-stations")]),
      "View recent reports" := (BotMessage(ReportsText, []), [Navigate("/reports")]),
      "Yes, submit report" := (BotMessage(FormalText, []), []),
      "No, I have more details" := (BotMessage(MoreDetailsText, []), [])
    ] + map c | c in CrimeTypes :: (BotMessage(WhenWhereText, []), [SubmitReport(ChatReport(c))])
  }

  /** A click answers exactly as the table says for a recognised option and with the
      fallback acknowledgement otherwise: the transition is total. */
  lemma ClickAgreesWithTable(st: ChatState, option: string)
    ensures var t := ClickOption(st, option, true);
      (t.state.transcript[|st.transcript| + 1], t.effects)
      == if option in ScriptTable() then ScriptTable()[option] else (BotMessage(OptionAckText, YesNo), [])
  {
    var table := ScriptTable();
    var crimes := map c | c in CrimeTypes :: (BotMessage(WhenWhereText, []), [SubmitReport(ChatReport(c))]);
    TokensAreNotCrimeTypes();
    if option in CrimeTypes {
      assert option in crimes && table[option] == crimes[option];
    } else if option in [ReportACrime, FindStation, ViewReports, SubmitFormal, MoreDetails] {
      assert option !in crimes;
    } else {
      assert option !in crimes && option !in table;
    }
  }
}
