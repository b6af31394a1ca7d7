# Nairobi Crime Reporter — logic model

A Dafny model of the pure logic in the crime-reporting front-end: the scripted
chat assistant, the shell's report store and its two views, the manual report
form, and the reports feed. Each piece is a function over immutable data that
returns the new state together with what it asks of the outside world.

- `text.dfy` (`Text`): `String.prototype.trim` with the ECMAScript whitespace set, and `toLowerCase`.
- `records.dfy` (`Records`): the report record; a key the JavaScript object may lack is an `Option`.
- `chatbot.dfy` (`Dialogue`): transcript, input buffer, option-click and free-text transitions. Navigation requests and report submissions are `Effect` values.
- `store.dfy` (`Store`): `handleReportSubmit` (prepend, force `status`, set `id`), the five-report home view and the full reports view.
- `form.dfy` (`Form`): the five-field guard, the emitted pending report and the reset.
- `feed.dfy` (`Feed`): `getStatusColor`, the empty-state branch and the ordered entries.
- `shell.dfy` (`Shell`): the app wiring of chat and form submissions into the store, with store invariants over any run.

Two behaviours of the code that a reader might not expect, both modelled as written:

- Free text is not classified like an option click. It has its own path, with its own reply text ("sharing" rather than "providing"). It never submits a report, even when it equals a crime type.
- The form turns date and time into an instant in local time. So the instant is left to an injected conversion rather than fixed to UTC.

## Model

| member | source | states |
|---|---|---|
| Dialogue.InitialMenu | crime-report-chatbot/src/components/ChatBot.jsx:15-22 | the session starts with one bot greeting offering exactly "Report a crime", "Find nearest police station", "View recent reports", and an empty input |
| Dialogue.Classify | crime-report-chatbot/src/components/ChatBot.jsx:47-74 | an option is a crime-type pick iff it is one of the 8 crime types, and falls to the catch-all iff it is neither a crime type nor one of the five tokens |
| Dialogue.Respond | crime-report-chatbot/src/components/ChatBot.jsx:41-74 | every intent gets a bot reply with non-empty text (the script is total) |
| Dialogue.ClickOption | crime-report-chatbot/src/components/ChatBot.jsx:36-78 | a click appends exactly the user's echo then a non-empty bot reply, keeps all earlier messages and the input, requests at most one effect, submits one report iff the option is a crime type and a handler exists (carrying only that crime type), and navigates to /police-stations or /reports only for the two navigation options |
| Dialogue.ReportACrimeOffersCrimeTypes | crime-report-chatbot/src/components/ChatBot.jsx:48-50 | "Report a crime" offers exactly the 8 crime types in order and requests nothing |
| Dialogue.CrimeTypeSubmitsOnce | crime-report-chatbot/src/components/ChatBot.jsx:66-69 | picking a crime type submits `{crimeType: option}` exactly once and the reply asks when/where with no options |
| Dialogue.UnrecognisedFallsBack | crime-report-chatbot/src/components/ChatBot.jsx:70-73 | any unrecognised option gets the fallback acknowledgement with options ["Yes, submit report", "No, I have more details"] and no effect |
| Dialogue.TokensAreNotCrimeTypes | crime-report-chatbot/src/components/ChatBot.jsx:47-67 | none of the five tokens is a crime type, so the case order cannot shadow a crime type |
| Dialogue.ClickAgreesWithTable | crime-report-chatbot/src/components/ChatBot.jsx:47-74 | a click answers as an independent table of the 13 recognised options says, and with the fallback for every other string |
| Dialogue.RepliesOfferOnlyRecognisedOptions | crime-report-chatbot/src/components/ChatBot.jsx:47-74 | every option offered by the bot's reply to a click is recognised by the classifier |
| Dialogue.GreetingOffersOnlyRecognised | crime-report-chatbot/src/components/ChatBot.jsx:15-22 | the three options of the greeting are all recognised by the classifier |
| Dialogue.StepOffersOnlyRecognised | crime-report-chatbot/src/components/ChatBot.jsx:36-95 | if every option offered so far is recognised, it stays so after any click, edit or free-text submission (the free-text reply offers the yes/no pair) |
| Dialogue.RunOffersOnlyRecognised | crime-report-chatbot/src/components/ChatBot.jsx:36-95 | the same holds over any series of actions |
| Dialogue.NoDeadOptions | crime-report-chatbot/src/components/ChatBot.jsx:15-95 | from the greeting, after any series of actions, every option the bot has offered is recognised by the classifier: no button falls through to the fallback |
| Dialogue.SubmitText | crime-report-chatbot/src/components/ChatBot.jsx:80-95 | whitespace-only input leaves the state unchanged; other input appends the echo and the fixed yes/no reply and clears the buffer; free text never requests an effect |
| Dialogue.EditInput | crime-report-chatbot/src/components/ChatBot.jsx:164 | typing replaces the input buffer with the typed text and leaves the transcript unchanged |
| Dialogue.FreeTextNeverSubmits | crime-report-chatbot/src/components/ChatBot.jsx:84-93 | typing and sending a crime-type name submits no report |
| Dialogue.StepInvariants | crime-report-chatbot/src/components/ChatBot.jsx:36-95 | one action keeps the transcript's history and its bot/user alternation, and submits a report exactly when it is a crime-type click |
| Dialogue.RunInvariants | crime-report-chatbot/src/components/ChatBot.jsx:36-95 | over any series of actions the transcript is append-only and alternating, and the number of submissions equals the number of crime-type clicks |
| Text.TrimStart | crime-report-chatbot/src/components/ChatBot.jsx:82 | the result is a suffix of the input, does not start with whitespace, and only whitespace was dropped |
| Text.TrimEnd | crime-report-chatbot/src/components/ChatBot.jsx:82 | the result is a prefix of the input, does not end with whitespace, and only whitespace was dropped |
| Text.Trim | crime-report-chatbot/src/components/ChatBot.jsx:82 | the result is a prefix of the input with its leading whitespace removed, followed there by whitespace only, and neither starts nor ends with whitespace; with the contract of Text.TrimStart, the input is a whitespace-only prefix, then the result, then a whitespace-only suffix |
| Text.TrimEmptyIff | crime-report-chatbot/src/components/ChatBot.jsx:82 | `trim()` yields the empty string iff the input is whitespace only |
| Text.ToLowerIdempotent | crime-report-chatbot/src/components/ReportsFeed.jsx:5 | lower-casing is idempotent |
| Text.ToLower | crime-report-chatbot/src/components/ReportsFeed.jsx:5 | the result has the input's length, each ASCII capital becomes its small letter, every other character is kept, and no ASCII capital remains |
| Store.Submit | crime-report-chatbot/src/App.jsx:12-21 | the list grows by one, its tail is the old list, the head is pending with the clock id whatever status was passed, and crime type, description, location and timestamp are kept |
| Store.HomeView | crime-report-chatbot/src/App.jsx:128 | the home view is the first min(5, n) reports, a prefix of the store |
| Store.ReportsView | crime-report-chatbot/src/App.jsx:147 | the reports view shows every stored report, in store order |
| Store.HomeViewIsPrefixOfReportsView | crime-report-chatbot/src/App.jsx:128-147 | the home view is a prefix of the whole-store view, and equals it iff at most five reports are stored |
| Store.NewestShownFirst | crime-report-chatbot/src/App.jsx:13-20 | right after a submission the new pending report heads both views |
| Store.SubmitAllKeepsHistory | crime-report-chatbot/src/App.jsx:10-21 | after any series of submissions the earlier list is the unchanged tail, every new report is pending, and the front report is the last submitted report itself with status pending and its own clock reading as id |
| Form.Submit | crime-report-chatbot/src/components/ReportForm.jsx:21-39 | with any field empty nothing is emitted and the fields are unchanged; with every field filled but a date and time that make no valid instant, `toISOString` throws before the report is handed over, so nothing is emitted and the fields are kept; otherwise one pending report carrying the crime type, description, location and converted instant is emitted and every field is reset to empty |
| Form.Step | crime-report-chatbot/src/components/ReportForm.jsx:43-127 | editing a field sets that field, leaves the other four alone and emits nothing; a submission either emits and clears every field, or emits nothing and keeps them, emitting iff the form is complete and its instant valid |
| Form.EmitsOnlyOnCompleteSubmit | crime-report-chatbot/src/components/ReportForm.jsx:23-31 | a form action emits a report iff it is a submission of a complete form whose date and time make a valid instant |
| Form.NoDoubleSubmit | crime-report-chatbot/src/components/ReportForm.jsx:33-38 | submitting again right after a successful submission emits nothing |
| Form.WhitespaceDescriptionAccepted | crime-report-chatbot/src/components/ReportForm.jsx:23 | the guard does not trim: any non-empty, whitespace-only description, which `trim()` would make empty, is accepted and emitted as typed |
| Form.SameCrimeTypesAsChat | crime-report-chatbot/src/components/ReportForm.jsx:3-12 | the form's crime types are the chat's 8 crime types in the same order |
| Form.EmittedCrimeTypesAreListed | crime-report-chatbot/src/components/ReportForm.jsx:49-62 | when the crime field is only set through the drop-down, every emitted report has a listed crime type and is pending |
| Feed.Parse | crime-report-chatbot/src/components/ReportsFeed.jsx:5-13 | a status text names a known status iff its lower case is that status's name |
| Feed.StatusColor | crime-report-chatbot/src/components/ReportsFeed.jsx:4-17 | the lookup is total and always returns one of the four non-empty badge classes |
| Feed.StatusColorMatchesTable | crime-report-chatbot/src/components/ReportsFeed.jsx:5-15 | pending, investigating, resolved and closed, in any case, get the yellow, blue, green and gray classes; any other text gets the default class, which equals the closed class |
| Feed.DistinctBadges | crime-report-chatbot/src/components/ReportsFeed.jsx:6-15 | yellow, blue and green are each shown iff the lower-cased status is pending, investigating or resolved; gray iff it is none of those |
| Feed.StatusColorIgnoresCase | crime-report-chatbot/src/components/ReportsFeed.jsx:5 | the class of a status equals the class of its lower case |
| Feed.RenderEntry | crime-report-chatbot/src/components/ReportsFeed.jsx:43-61 | an entry renders iff the report has a status (and, as written, a timestamp); it shows the report's status, date, crime type, location and description; a report missing its timestamp fails on the date first |
| Feed.RenderList | crime-report-chatbot/src/components/ReportsFeed.jsx:43-102 | rendering succeeds iff every report renders, with one entry per report; otherwise it fails at a report that does not render |
| Feed.RenderListFailsAtFirst | crime-report-chatbot/src/components/ReportsFeed.jsx:43 | a failing list fails at its first unrenderable report |
| Feed.RenderListInOrder | crime-report-chatbot/src/components/ReportsFeed.jsx:43 | entry i of a rendered list is report i rendered at position i |
| Feed.RenderWith | crime-report-chatbot/src/components/ReportsFeed.jsx:27-43 | the empty-state branch is chosen iff the list is empty; rendering succeeds iff every report renders, then with as many entries as reports, and otherwise fails at a report that does not render |
| Feed.RenderAsWritten | crime-report-chatbot/src/components/ReportsFeed.jsx:27-61 | the feed as written shows the empty state iff there are no reports, renders iff every report has a status and a timestamp, and otherwise throws at a report lacking one |
| Feed.Render | crime-report-chatbot/src/components/ReportsFeed.jsx:27-61 | the corrected feed shows the empty state iff there are no reports, renders iff every report has a status, and otherwise throws at a report without one |
| Feed.KeyOf | crime-report-chatbot/src/components/ReportsFeed.jsx:45 | an entry is keyed by its report's id when that id is present and non-zero, and by its position otherwise |
| Feed.RenderShowsReportsInOrder | crime-report-chatbot/src/components/ReportsFeed.jsx:27-61 | for reports that all have a status, the feed shows "No Reports Yet" for the empty list and otherwise entry i shows report i's key, status, date, crime type, location and description, and the badge class the status lookup gives for its status |
| Feed.AsWrittenAgreesWhenTimestamped | crime-report-chatbot/src/components/ReportsFeed.jsx:19-53 | the feed as written renders iff every report has a timestamp, and then shows exactly what the corrected feed shows |
| Feed.UntimedReportBreaksAsWritten | crime-report-chatbot/src/components/ReportsFeed.jsx:19-53 | a one-report list whose report has no timestamp makes the feed as written throw at entry 0 on the date, while the corrected feed renders it whenever the report has a status |
| Shell.StepStore | crime-report-chatbot/src/App.jsx:12-21 | one event adds one report in front iff it is a crime-type click or a submission of a complete form with a valid instant, otherwise the store is unchanged; stored reports stay pending with ids |
| Shell.Step | crime-report-chatbot/src/App.jsx:114-120 | a chat event advances the chat by its transition and leaves the form alone, and a form event advances the form by its transition and leaves the chat alone; the store gains one report in front iff the event submits one, and keeps every earlier report; a crime-type click stores `{crimeType}` of that type, and a submitting form stores its crime type, description, location and converted instant, both pending with the clock id |
| Shell.ApplyEffects | crime-report-chatbot/src/App.jsx:12-21 | the store grows by one report in front per submission effect and keeps every earlier report, so navigation effects leave it alone; a single submission stores that report with status pending and the clock id |
| Shell.RunStore | crime-report-chatbot/src/App.jsx:10-21 | over any run, no stored report is removed or edited, and every stored report is pending and has an id |
| Shell.ViewsRender | crime-report-chatbot/src/App.jsx:128-147 | both views of any reachable store render with the corrected feed, with the empty state exactly while the store is empty |
| Shell.CrimeClickStored | crime-report-chatbot/src/components/ChatBot.jsx:66-69 | after "Report a crime" then any crime type the store holds exactly one report: that crime type alone, pending, with the clock id and no timestamp, description or location |
| Shell.ChatReportBreaksFeedAsWritten | crime-report-chatbot/src/components/ReportsFeed.jsx:19-53 | after "Report a crime" then "Burglary" the store holds a report without a timestamp; the home feed as written fails on its date, while the corrected feed renders |

## Left out

- The 300 ms reply delay is not modelled. Each turn is atomic, so the stale-transcript overwrite under rapid input is not modelled either.
- React state, refs, scrolling, JSX markup and styling are not modelled. The exception is the badge class strings, which are the lookup's results.
- Navigation and the submit callback are effect values. `onReportSubmit && …` is the `hasHandler` flag; the shell always passes `true`, as the app always supplies the handler.
- `Date.now()` is not modelled: the id is the `now` parameter of each event.
- `new Date(...).toISOString()` is the `toIso` parameter. It returns no instant where the date and time name no valid one, for example a year beyond the range a JavaScript date holds; the form then throws before emitting or resetting, which the model keeps. Which texts those are, and the local-time conversion itself, are not modelled.
- `formatDate` (`Intl.DateTimeFormat`) is not modelled. An entry carries the raw timestamp. Only the throw on a missing timestamp is modelled.
- Text.ToLower, Text.ToLowerIdempotent: lower-casing maps only ASCII letters, so it is weaker than full Unicode `toLowerCase`. Status keys are unaffected: U+212A lowers to "k", which is in no status name, and U+0130 lowers to two characters.
- Strings are sequences of Unicode scalar values, not UTF-16 code units.
- A user message has no `options` key in the source. The model gives it an empty list; both render no buttons.
- The spread in `handleReportSubmit` copies any extra keys. Records carry only the six keys the components use.
- Leaving the home route unmounts the chat and the form, which resets their state. Routing is not modelled, so this reset is not either.
- Form.EmittedCrimeTypesAreListed: it assumes, rather than models, that the browser's drop-down only yields its own option values.
- NearbyPolice.jsx is not part of this model. It is geolocation I/O over static station data.
- SafetyTips.jsx is not part of this model. It is static data with a single-select filter.
- The `tel:` links and the Share and View Details buttons are not modelled. They carry no logic.

## Findings

| source | as written | input that shows it | evidently intended | confidence | as-written member | corrected member |
|---|---|---|---|---|---|---|
| crime-report-chatbot/src/components/ReportsFeed.jsx:53 | every entry formats `report.timestamp`, but the chat assistant submits `{crimeType}` only, so the shell stores a report without a timestamp; `new Date(undefined)` is an invalid date and `Intl.DateTimeFormat.prototype.format` throws a RangeError on it | click "Report a crime", then "Burglary", then render the home view | a report without a timestamp is shown without a date | medium, not executed | Feed.RenderAsWritten, shown by Shell.ChatReportBreaksFeedAsWritten | Feed.Render, proved by Feed.RenderShowsReportsInOrder and Shell.ViewsRender |
