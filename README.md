# Appointment booking page: a Dafny model

This project models the browser script of an appointment-booking page. The
page works in three modes:

- **Event mode.** The address carries an event id. The page shows that event's time
  slots as pills. A click on an open pill books the slot through the backend,
  holds it for twenty minutes with a countdown, and opens a registration form.
  The form is built from a question sheet, one section per service the event
  offers. As written, building a form that has a question throws at
  script.js:486 (first row under "## Findings"). The controller's handlers
  render the corrected builder, and `Controller.Session.BookingSettledAsWritten`
  models the click as written, which ends in the slot-taken alert.
- **Event picker.** The address carries a campaign or facility id. The page lists
  the matching events as cards.
- **General waitlist.** The address carries neither. The page opens the
  registration form as a general waitlist sign-up.

Inside the form:

- Ticking a service shows its section. Unticking it hides the section, drops
  `required` from its controls and clears them.
- Questions can wait on another question's answer. The change listener shows or
  hides them and re-arms or disarms `required` as it goes.
- On submit, the page checks these in order: contact consent, the signature, a
  ticked service (unless on the waitlist), that the question sheet has loaded,
  and that every visible required question has an answer.
- It then collects one answer per question group and the demographic and
  insurance fields, and sends the package.

A medical-records picker refuses any selection whose total size is over 25 MiB.

The project is organised by concern:

| module | file | what it holds |
|---|---|---|
| `Wrappers` | wrappers.dfy | `Option` and JavaScript truthiness of a string |
| `Text` | text.dfy | `trim`, `toLowerCase`, `split`/`join`, `String(n)`, `padStart(2, '0')`, `Number()` |
| `Dates` | dates.dfy | how `new Date(y, m, d, h, min)` reads the pieces of "M/D/YYYY" and "HH:MM" |
| `Slots` | slots.dfy | the sheets' rows, the bookable test, `renderSlots`'s view, the event-card filter |
| `Countdown` | countdown.dfy | the MM:SS text of the hold timer |
| `Questions` | questions.dfy | question rows, the trigger and required parse, `createQuestionElement`, `renderDynamicForms` |
| `Fields` | fields.dfy | the conditional and service listeners, as functions from one table to the next |
| `Answers` | answers.dfy | what the submit handler's collection loop reads back |
| `Forms` | form.dfy | the `DynamicForm` class: the container, changed in place and proved against those functions |
| `Submission` | submission.dfy | the submit gate's order and the demographic and insurance field maps |
| `Uploads` | uploads.dfy | the 25 MiB upload limit |
| `Controller` | session.dfy | the `Session` class: the script's module-level variables and the page around them, with every handler |

The `Session` class works in two layers:

- It keeps the script's seven module-level variables as fields. Everything the
  page shows or has asked of the browser and the backend is one `Page` value:
  the running intervals, the timer text, the layout, the pills, the cards, the
  uploads, the backend calls and the alerts.
- Every handler is a method whose postcondition ties the new state to a function
  of the old one, for example `State() == WentBack(old(State()), now)`. The
  lemmas beside those functions state what the handlers promise.

Backend requests are not made: each one is appended to a log. An awaited outcome
is a parameter of the handler. A handler that awaits is split at the `await`, so
that other events can fall in between. The current time is also a parameter.

## Model

| member | source | states |
|---|---|---|
| Text.TrimSpec | script.js:474 | `trim` yields a string no longer than its input that neither starts nor ends with white space |
| Text.TrimStartSpec | script.js:474 | the leading white space is removed and nothing else: the result is a suffix of the input not starting with white space |
| Text.TrimEndSpec | script.js:474 | the trailing white space is removed and nothing else: the result is a prefix of the input not ending with white space |
| Text.TrimIdempotent | script.js:474-480 | trimming twice is trimming once |
| Text.TrimEmptyIffBlank | script.js:785 | `!answer.trim()` holds exactly when the answer is white space only |
| Text.TrimKeeps | script.js:480 | a string with no white space at either end trims to itself |
| Text.Split | script.js:299 | `split` on one character gives at least one piece, and no piece holds the separator |
| Text.JoinSplit | script.js:299 | joining the pieces of a split with the separator gives the string back |
| Text.SplitJoin | script.js:304 | splitting a join of separator-free pieces gives the pieces back |
| Text.IndexOf | script.js:299 | the position of the first occurrence of a character, or the length when there is none |
| Text.IndexOfAfterPrefix | script.js:304 | in a string made of a separator-free prefix, the separator and a rest, the first separator sits right after the prefix |
| Text.NatToString | script.js:376 | `String(n)` is a non-empty run of digits with no leading zero, one digit exactly when n < 10 |
| Text.DigitsValueOfNatToString | script.js:376 | reading back the decimal rendering of n gives n |
| Text.Pad2Pads | script.js:376 | `padStart(2, '0')` keeps the string at its end and puts only zeros before it, up to length two |
| Text.ToNumber | script.js:300 | `Number()` of a blank string is 0 |
| Text.ToNumberOfPadded | script.js:309-310 | `Number()` of a zero-padded rendering of n is n |
| Text.ToNumberOfNatToString | script.js:309-310 | `Number(String(n))` is n |
| Dates.FullYear | script.js:300 | the Date constructor reads a year 0..99 as 1900..1999 and leaves other years alone |
| Dates.EventDayOfFormatted | script.js:299-300 | an "M/D/YYYY" date is read as day D of month M of that year, month rollover included |
| Dates.SlotStartOfFormatted | script.js:304-311 | an "HH:MM" start is read as that many hours and minutes into the event day |
| Dates.NumbersOfPadded | script.js:304 | the zero-padded hour and minute pieces read back as those numbers |
| Dates.PiecesOfFormatTime | script.js:304 | splitting "HH:MM" at the colon gives the padded hour and the padded minute |
| Dates.SlotStartOfPieces | script.js:304-311 | a start whose two colon pieces read as numbers is that many hours and minutes into the event day |
| Dates.ClockOrder | script.js:312 | on one day, start instants compare as (hours, minutes) pairs |
| Dates.MonthRollsOver | script.js:300 | a month index of 12 is January of the next year and -1 December of the previous one |
| Slots.FindEventIndex | script.js:69 | `allEvents.find`: the first event with the id, and none before it has that id |
| Slots.EventSlots | script.js:290 | a slot is kept exactly when it belongs to the event |
| Slots.Bookable | script.js:303-316 | a slot is truly available exactly when it is "Open" and not in the past |
| Slots.Pills | script.js:329-350 | one pill per slot of the event, in sheet order, clickable exactly when the slot is bookable |
| Slots.ViewMeaning | script.js:286-353 | an unknown event gives the alert; the waitlist shows exactly when no slot of a known event is bookable; otherwise every slot has a pill and at least one pill is clickable |
| Slots.BookableIffOpenAndNotPast | script.js:303-316 | with a well-formed date and start, bookable exactly when "Open" and starting at or after now |
| Slots.UnreadableStartIsBookable | script.js:304-315 | an "Open" slot whose start has no ':' gives an invalid date, which never compares as past, so it is bookable whatever the time |
| Slots.CardEvents | script.js:111-115 | the cards are the events of the campaign when one is given, else of the facility, else none |
| Slots.WithCampaign | script.js:112 | an event is kept exactly when its CampaignID matches |
| Slots.WithFacility | script.js:114 | an event is kept exactly when its FacilityID matches |
| Countdown.Seconds | script.js:373 | the seconds shown are always below 60 |
| Countdown.CountdownSplitsRemaining | script.js:372-373 | minutes and seconds are the whole minutes and whole seconds of the time left |
| Countdown.CountdownTextRoundTrip | script.js:376 | the MM:SS text reads back as exactly those minutes and seconds |
| Countdown.PiecesOfCountdown | script.js:376 | the timer text splits at its colon into the padded minutes and the padded seconds |
| Countdown.ParseOfPieces | script.js:376 | a text whose two colon pieces are digit runs reads back as their values |
| Countdown.CountdownTextWithinHold | script.js:372-376 | during a hold the text is five characters and shows at most 20 minutes |
| Questions.GetFindsLast | script.js:632 | a row object keeps the last cell under a header |
| Questions.CleanRowFindsPaddedHeader | script.js:630-634 | after sanitising, a column is found under its trimmed header |
| Questions.RequiredFlagDefault | script.js:480 | a question is required exactly when its IsRequired cell reads "true" up to case and spaces; a missing cell reads as "false" and never does |
| Questions.FalseNotTrue | script.js:480 | the default "false" never reads as "true" |
| Questions.TriggerOf | script.js:474-478 | a trigger exactly when TriggerID has more than white space; its id is trimmed, its value is the trimmed TriggerValue, or "Yes" when that is missing or empty |
| Questions.SplitList | script.js:602-603 | a comma list always has at least one entry |
| Questions.OptionList | script.js:498 | a question always has at least one option entry, an empty Options cell giving [""] |
| Questions.KindOf | script.js:500-539 | multi_select gives checkboxes, radio_yes_no radios, single_select a select, and no other value does |
| Questions.WasRequiredAttr | script.js:480-482 | `data-was-required` is "true" exactly when the question is required |
| Questions.Controls | script.js:500-539 | every generated control carries the question id as `data-question-id` and as `name`, is neither required nor checked; a select starts on its empty option; all but checkboxes carry `data-was-required` |
| Questions.QuestionInputs | script.js:496-539 | the same facts in terms of the question row's cells |
| Questions.CreateQuestion | script.js:469-545 | the wrapper sits in its section, holds the row's trigger and is hidden exactly when the question is conditional |
| Questions.CreateQuestionAsWritten | script.js:486 | as written, the helper throws a ReferenceError on `cleanQ` |
| Questions.AddQuestions | script.js:646-649 | one wrapper per question; every added wrapper and control is fresh |
| Questions.AddSections | script.js:636-651 | the sections are filled in form-list order and every wrapper and control is fresh |
| Questions.FirstFilledForm | script.js:645-647 | the first form, from a given one on, that has a question row; none of the forms before it has one |
| Questions.BuildForm | script.js:591-651 | no forms give an empty container; otherwise one unchecked service and one hidden section per listed form; nothing required or checked; conditional questions hidden; every control named after its question |
| Questions.BuildFormAsWrittenThrows | script.js:646-647 | as written, any event with a question to render throws, while the corrected builder yields controls |
| Fields.ShowInput | script.js:574-576 | showing re-arms `required` exactly for a control marked was-required and changes nothing else |
| Fields.HideOnCondition | script.js:579-585 | a conditional hide disarms, marks a required control was-required and clears every value, radio values included |
| Fields.HideOnService | script.js:670-678 | a service hide disarms and marks likewise, unchecks radios and checkboxes keeping their values, and clears other controls |
| Fields.HideShowRestoresRequired | script.js:572-586 | hiding then showing leaves a control required exactly when it was required or marked so |
| Fields.FirstChecked | script.js:565 | `querySelector(':checked')` finds the first checked member of the group, and none before it is checked |
| Fields.FirstCheckedAgrees | script.js:565 | two groups that agree on which members are checked find the same first checked member |
| Fields.CheckedValues | script.js:776-777 | the checked values are empty exactly when nothing in the group is checked, and start with the first checked member's value |
| Fields.DepStepKeepsLayout | script.js:558-587 | one turn of the conditional listener keeps services, sections and every control's shape |
| Fields.CondUpToKeepsLayout | script.js:556-587 | the whole dependents loop keeps the layout |
| Fields.ChangeKeepsLayout | script.js:550-588 | the change listener keeps the layout |
| Fields.ConditionalClosedForm | script.js:556-587 | when the changed group does not wait on itself, each dependent is shown and re-armed exactly when the value at the change equals its trigger value, and is otherwise hidden, disarmed and cleared; all else is untouched |
| Fields.MatchesAgrees | script.js:562-570 | `isMatch` is the same on every turn of the dependents loop |
| Fields.FirstSection | script.js:656 | `getElementById('section_' + id)` finds the first section of that form |
| Fields.ServiceTarget | script.js:656 | a service toggles a section of its own form, its own or an earlier one |
| Fields.ServiceToggled | script.js:655-680 | a service click keeps the layout and every wrapper |
| Fields.ServiceToggleEffect | script.js:655-680 | unticking hides the section and leaves its controls unrequired, radios and checkboxes unchecked and other controls empty; ticking shows it and re-arms exactly the required or marked controls; other sections are untouched |
| Fields.BuildFormRequiredIffVisible | script.js:640 | a freshly built form has every control required exactly when it is marked required and visible |
| Fields.DepStepIntendedKeeps | script.js:572-586 | one turn of the intended listener keeps required-iff-visible |
| Fields.IntendedListenerKeepsOptions | script.js:676 | the intended conditional listener never changes a radio's or checkbox's value or kind |
| Fields.CondIntendedKeeps | script.js:556-587 | the intended conditional listener keeps every control required exactly when marked required and visible |
| Fields.CondIntendedStep | script.js:558 | each further turn of the intended listener keeps the rule |
| Fields.ServiceIntendedKeeps | script.js:659-678 | the intended service click keeps the same rule |
| Fields.ServiceShowArmsHiddenQuestion | script.js:659-666 | as written, ticking a service arms a required question that is still hidden by its condition |
| Fields.ConditionArmsQuestionInHiddenSection | script.js:572-576 | as written, answering a trigger arms a required question whose section is still hidden |
| Fields.EnteredTogglesDependents | script.js:567-586 | typing the trigger value shows each dependent and re-arms its marked controls; typing anything else hides, disarms and clears them |
| Answers.FindDef | script.js:755-758 | a found definition is a row of the sheet |
| Answers.FirstDef | script.js:755-758 | the first row whose trimmed id, under either header spelling, equals the question id |
| Answers.FindDefFinds | script.js:755-760 | `find` returns that first row, and nothing exactly when no row has the id |
| Answers.Lookup | script.js:755-764 | each control is paired with its definition's required flag, or none |
| Answers.NameTakenIff | script.js:761 | `processedGroups.has(name)` holds exactly when an earlier counted control has that name |
| Answers.FirstMissingNone | script.js:770-788 | no invalid control is recorded exactly when no counted required answer is blank |
| Answers.FirstMissingSome | script.js:772-787 | the recorded first invalid control is missing its answer and no earlier one is |
| Answers.AnsweringExact | script.js:747-794 | the answering controls are exactly the counted first-of-group ones with an id, in increasing order |
| Answers.ResponsesByIndex | script.js:791-793 | response i is the id and answer of the i-th answering control |
| Answers.OnePerGroup | script.js:747-794 | responses come from visible defined controls, one per name group, and every counted group with an id contributes one |
| Answers.GroupsDistinct | script.js:761-783 | no two responses come from the same name group |
| Answers.GroupsCovered | script.js:761 | every counted group with an id has a response |
| Answers.HiddenSectionSilent | script.js:752 | a control in a hidden section neither answers nor blocks |
| Answers.UncheckedServiceSilent | script.js:668-678 | after unticking a service nothing in its section answers or blocks |
| Answers.ConditionalHideBlanksRadio | script.js:584 | as written, a conditional hide leaves every radio of a hidden group with value "" |
| Answers.BlankRadioGroupAnswersBlank | script.js:766-769 | a radio group whose values are all "" answers "" whichever radio is checked |
| Answers.NoDependentsNoChange | script.js:556-560 | a change to a question that no wrapper waits on leaves the form unchanged, under either listener |
| Answers.RadioFormHides | script.js:579-585 | answering "No" hides a required radio_yes_no question, disarms it and blanks both radios' values |
| Answers.RadioFormShows | script.js:572-577 | answering "Yes" again shows the question and re-arms both radios, whose values stay blank |
| Answers.RadioFormHidesIntended | script.js:676 | the intended listener hides the same question but keeps the radios' values "Yes" and "No" |
| Answers.RadioFormShowsIntended | script.js:572-577 | the intended listener shows it again with its values intact |
| Answers.RadioFormPicks | script.js:550-566 | clicking the first radio checks it and changes nothing else, under either listener |
| Answers.PickedAnswers | script.js:763-787 | the checked radio answers its value, and the required group blocks the submission exactly when that value is "" |
| Answers.ReshownRadioAnswersBlank | script.js:584 | as written, hide, show and a click on "Yes" leave the group answering "" and blocking the submission |
| Answers.ReshownRadioAnswersOption | script.js:676 | with the intended listener the same steps answer "Yes" and the group does not block |
| Forms.DynamicForm.constructor | script.js:44 | the container starts empty |
| Forms.DynamicForm.Render | script.js:591-651 | the container becomes the built form |
| Forms.DynamicForm.OnChange | script.js:550-588 | the listener's in-place loop yields the table of the listener function |
| Forms.DynamicForm.VisitDependent | script.js:558-587 | one turn of `dependents.forEach` in place |
| Forms.DynamicForm.ConditionInputs | script.js:574-585 | the wrapper's controls are shown or hidden in place |
| Forms.DynamicForm.ClickService | script.js:655-680 | a service click in place yields the service-toggle function's table |
| Forms.DynamicForm.SectionInputs | script.js:657-679 | the section's controls re-armed or disarmed and cleared in place |
| Forms.DynamicForm.Enter | script.js:550-553 | typing a value fires the listener when the value changes |
| Forms.DynamicForm.ClickRadio | script.js:550-566 | clicking a radio checks it alone in its group and fires the listener |
| Forms.DynamicForm.ClickCheckbox | script.js:550-553 | clicking a checkbox flips it and fires the listener |
| Forms.DynamicForm.ReadAnswer | script.js:763-789 | the answer read for a control and whether it is blank |
| Forms.DynamicForm.Collect | script.js:735-794 | the loop's responses, validity and first invalid control are those of the specification functions |
| Submission.EarlyStop | script.js:689-724 | the first failing of consent, signature and service checks stops the submission, and none stops it exactly when all pass |
| Submission.Gate | script.js:689-802 | the whole gate: an early stop wins, then an unloaded sheet, then a blank required answer; none exactly when all pass |
| Submission.FieldValue | script.js:824 | an absent or empty value reads as "" |
| Submission.GatherFields | script.js:823-828 | the map holds exactly the listed ids the form has, each with its value or "" |
| Uploads.TotalSizeAppend | script.js:965 | the total of two selections is the sum of their totals |
| Uploads.FileWithinTotal | script.js:965 | every file counts towards the total |
| Uploads.Accepted | script.js:962-971 | a kept selection totals at most 25 MiB; a selection is kept whole exactly when it fits, otherwise cleared |
| Uploads.AcceptedFilesFit | script.js:962-971 | no kept file is larger than the limit |
| Controller.Chosen | script.js:715-719 | a choice is collected exactly for each ticked service |
| Controller.ChosenEmpty | script.js:715-721 | no choice is collected exactly when no service is ticked |
| Controller.SlotGrid | script.js:286-353 | `renderSlots`' work yields the slot view |
| Controller.PillsOf | script.js:329-352 | the pill loop yields one pill per slot |
| Controller.Initial | script.js:11-19 | a fresh page holds no slot, has sent nothing and hands out fresh interval handles |
| Controller.RenderedKeepsTimers | script.js:286-353 | drawing the grid leaves the countdown state alone |
| Controller.TimerKeepsIdsFresh | script.js:355-365 | starting and stopping a countdown keep interval handles fresh |
| Controller.SelectKeepsIdsFresh | script.js:380-417 | a pill click keeps interval handles fresh |
| Controller.GoBackFinishedKeepsTimers | script.js:430-441 | the second half of `goBack` leaves the countdown state alone |
| Controller.GoBackKeepsIdsFresh | script.js:419-442 | `goBack` keeps interval handles fresh |
| Controller.TickKeepsIdsFresh | script.js:361-370 | a tick keeps interval handles fresh |
| Controller.DispatchModes | script.js:67-94 | an event id draws the event's grid or says it is not found; a campaign or facility id shows the picker with the filtered cards; neither makes a general waitlist registration that needs no service |
| Controller.JoinedNeedsNoService | script.js:444-464 | joining the waitlist drops the held slot, shows the form without the timer and lifts the service check |
| Controller.HeldSlotIgnoresClick | script.js:381 | a click does nothing while a slot is held |
| Controller.SelectSlotOutcome | script.js:380-417 | a click requests the booking; success holds the time, starts one new countdown and shows the form; failure keeps the hold and redraws from the refetched slots |
| Controller.RenderFailureKeepsHold | script.js:386-413 | as written, a successful booking for an event with a question keeps the slot held and its countdown running, shows the form, sends nothing more, alerts that the slot was taken and redraws the grid |
| Controller.ConfirmedSlotReleasedOnUnload | script.js:233-239 | after an accepted submission the slot is still held, so leaving the confirmation page sends a release for the booked slot |
| Controller.IntendedConfirmationSendsNoBeacon | script.js:832-835 | clearing the hold on acceptance sends no beacon on leaving, and a refusal keeps the hold |
| Controller.PendingDoubleBookingLeaksInterval | script.js:381-390 | two clicks while the first booking is pending both book; two countdowns run and only the second can be stopped |
| Controller.GoBackResets | script.js:419-442 | `goBack` stops the countdown, clears the hold and the waitlist flag, shows the grid, and requests a release exactly when a slot was held |
| Controller.BeaconOnlyWhenHeld | script.js:233-239 | the unload beacon is sent exactly when a slot is held, for that slot |
| Controller.TickBeforeDeadline | script.js:362-376 | before the deadline a tick only updates the text, which reads back as the minutes and seconds left |
| Controller.TickAtDeadline | script.js:362-370 | at the deadline the countdown stops, `goBack` starts (releasing a held slot) and the expiry alert shows |
| Controller.LeakedIntervalRepeatsExpiry | script.js:361-370 | an interval without a handle keeps expiring, alerting on every tick |
| Controller.SubmitStopsEarly | script.js:689-724 | a consent, signature or service stop only alerts: nothing is sent and the countdown runs on |
| Controller.SubmitAfterEarlyChecks | script.js:726-839 | past the early checks the countdown is stopped whatever follows; a later stop sends nothing; otherwise exactly one package is sent |
| Controller.PackageContents | script.js:805-828 | the package holds exactly the listed fields the form has, each with its value or "", and no service only on the waitlist |
| Controller.Session.constructor | script.js:11-19 | the page state starts as the fresh page with an empty container |
| Controller.Session.Startup | script.js:52-100 | the load handler: the failure alert, or the sheets stored and the mode dispatched |
| Controller.Session.Load | script.js:55-65 | the event id and the three sheets are stored |
| Controller.Session.Dispatch | script.js:67-94 | the mode dispatch on the page state |
| Controller.Session.RenderSlots | script.js:286-353 | the grid, the waitlist and the alert on the page |
| Controller.Session.StartTimer | script.js:355-361 | a new interval with a fresh handle and a deadline twenty minutes on |
| Controller.Session.ClearTimer | script.js:420 | the last interval created stops |
| Controller.Session.RequestBooking | script.js:380-385 | the request goes out exactly when no slot is held |
| Controller.Session.BookingSettled | script.js:386-416 | after the await, success holds the slot and renders the forms; failure alerts and redraws |
| Controller.Session.BookingSettledAsWritten | script.js:386-413 | after the await as written: failure alerts and redraws; success holds the slot, and for a form with a question also alerts and redraws, leaving the container untouched |
| Controller.Session.HoldSlot | script.js:386-392 | the slot is held, the countdown starts and the form shows |
| Controller.Session.RefuseSlot | script.js:408-413 | the alert, and the grid redrawn from refetched slots |
| Controller.Session.SelectSlot | script.js:380-417 | `selectSlot` with nothing in between, keeping the page valid |
| Controller.Session.GoBackStart | script.js:419-427 | the countdown stops and a release is requested exactly when a slot is held |
| Controller.Session.GoBackFinish | script.js:430-441 | the hold and waitlist flag are cleared and the grid is shown again |
| Controller.Session.GoBack | script.js:419-442 | `goBack` run to the end |
| Controller.Session.JoinWaitlist | script.js:444-464 | the waitlist flag is set, the hold dropped and the form shown |
| Controller.Session.Unload | script.js:233-239 | the beacon for a held slot |
| Controller.Session.Tick | script.js:361-377 | the tick expires exactly at or past the deadline, and awaits a release exactly when it expires with a slot held |
| Controller.Session.SelectFiles | script.js:957-971 | the picker keeps the selection that fits, or alerts and clears it |
| Controller.Session.SubmitBooking | script.js:685-727 | the stop reported is the gate's, and the new page state is the submission's |
| Controller.Session.CheckAndSend | script.js:727-839 | the checks after `clearInterval`, then the package sent |
| Controller.Session.Alert | script.js:691 | an alert is appended to those shown |
| Controller.Session.Deliver | script.js:832-839 | the package is sent; acceptance shows the confirmation, refusal the error alert |

## Left out

- Time zones and daylight saving: local time is one uniform timeline, so an
  instant is a count of milliseconds and a day a count of days from 1970-01-01.
- The Date value range (TimeClip): every date is valid whatever its size.
- Text.ToNumber: covers an optional sign before decimal digits, with
  surrounding white space. Fractions, exponents, hexadecimal and `Infinity`
  read as NaN (None), where `Number()` accepts them.
- Markup and escaping: labels, headings, the card and confirmation HTML, and
  `displayEventDetails`' text.
- The loading overlay, `scrollIntoView` and the `console` messages. The
  release's outcome only reaches the console, so `goBack` does not depend on it.
- The event cards' date sort and their past or future styling. `new Date(a.Date)`
  on a free-form string depends on the engine, so the cards keep sheet order.
- `checkAge`, the insurance and records section toggles, `changeLanguage`, the
  typed-signature canvas, the signature pad and the signature image. A signature
  is only "drawn, pad empty or not" or "typed name".
- `readFilesAsBase64`: records are the accepted selection's names and sizes, not
  their contents. A submission reads the selection the picker kept.
- `callAPI`'s response parsing and `fetchCSV`'s download. A booking or
  submission outcome is a boolean parameter. A refetch after a refused booking
  is an optional slot list, and None (a failed download) leaves the slots as they
  were.
- A sheet row with a missing column: event and slot rows have every column,
  and an empty cell is "". Question rows keep cells by header, so a missing
  question column is modelled.
- The browser's native `required` validation, which runs before the submit
  handler. The model tracks `required` so that the findings below can be stated,
  but the submit handler is reached directly.
- `submitBooking` awaits `readFilesAsBase64` between `clearInterval` and the
  dynamic validation. Events in that gap are not interleaved. `selectSlot` and
  `goBack` are split at their awaits; a timer tick can fall into a `goBack` that
  awaits its release.
- The markup the page first loads with is a constructor parameter. The
  listeners `setupEventListeners` attaches are the class's methods.
- `goBack` and `displayConfirmation` compare `String(e.EventID) === String(eventId)`.
  Both are strings here, so this is the same `find` as elsewhere.
- The order in which the browser fires several due intervals: each tick is
  one call with its interval's handle.
- Controller.Session.BookingSettled: renders the corrected form builder, and so
  do `SelectSlot` and `SelectSlotOutcome`. The code as written is
  `BookingSettledAsWritten` and `BookingDoneAsWritten`.
- Controller.Session.BookingSettledAsWritten: the part-built container left
  behind by the throw is not modelled; the container keeps its old contents.
  The throw also skips creating the signature pad (script.js:401-406), so a later
  draw-tab submission throws at script.js:700. The pad is not modelled.
- Dates.SlotStart: the page rebuilds the day from `getFullYear()`, `getMonth()`
  and `getDate()` (script.js:305-310), which maps a year 0..99 into the 1900s a
  second time, as for "0/1/100". The model keeps the day of the first mapping,
  so it differs only for event days before the year 100.
- Text.Upper: maps ASCII letters only, where `toUpperCase` also maps other
  scripts and expands some letters ("ß" becomes "SS"). Text.Lower likewise.
- `initConditionalLogic` runs on every render and adds one more change listener
  each time (script.js:547-550, 682). The model runs the listener once per
  change.

## Findings

| source | as written | input that shows it | evidently intended | confidence | as-written member | corrected member |
|---|---|---|---|---|---|---|
| script.js:486 | `createQuestionElement` reads `cleanQ` (and its templates read `reqAttr`); neither is defined in that function | any event whose Forms list names a form that has a question row: the first call throws a ReferenceError and the rest of the form, listeners included, is never built | read the row `q` it is given and put `wasReqAttr` on each control, as the comment at line 496 says | high; not executed | `Questions.BuildFormAsWrittenThrows` | `Questions.BuildForm` |
| script.js:662-666 | ticking a service re-arms `required` on every control of its section marked was-required, including one whose own wrapper is still hidden by its condition; latent until line 486 is fixed, since only then do forms have question controls | `Fields.HiddenRequiredExample`: a required question waiting on "q0" in an unticked section; tick the service | re-arm only controls that are visible, so the browser's validation never blocks on a field the user cannot see | medium; not executed | `Fields.ServiceShowArmsHiddenQuestion` | `Fields.ServiceIntendedKeeps` |
| script.js:584 | the conditional hide sets `value = ''` on every control of the hidden question, radios included; latent until line 486 is fixed, since only then do forms have question controls | `Answers.RadioForm`: a required radio_yes_no question shown when "q0" is "Yes"; answer "No", then "Yes", then click the first radio; the group now answers "" and the submission is refused | clear a radio or checkbox by unchecking it, as the service hide does at line 676 | high; not executed | `Answers.ReshownRadioAnswersBlank` | `Answers.ReshownRadioAnswersOption` |
| script.js:398-413 | the throw from line 486 lands in `selectSlot`'s catch, which treats a booked slot as taken | any event with a question, once its booking succeeds | render the form and create the signature pad | high; not executed | `Controller.RenderFailureKeepsHold` | `Controller.SelectSlotOutcome` |
| script.js:832-835 | an accepted submission shows the confirmation but leaves `selectedSlotTime` set, so the unload handler at script.js:233-239 releases the slot just booked | submit a valid booking, then close the page | clear the hold once the submission is accepted | plausible; not executed | `Controller.ConfirmedSlotReleasedOnUnload` | `Controller.IntendedConfirmationSendsNoBeacon` |

The same re-arming happens in the conditional listener for a question whose
section is hidden (`Fields.ConditionArmsQuestionInHiddenSection`). The intended
listener, proved in `Fields.CondIntendedKeeps`, avoids it. The `DynamicForm`
class and the controller follow the code as written for the second, third and
fifth rows. The intended listeners and `DeliveredIntended` are defined beside
them. The intended listeners are proved to keep every control required exactly
when it is marked so and visible (`Fields.CondIntendedKeeps`) and to keep every
radio's and checkbox's value (`Fields.IntendedListenerKeepsOptions`).
