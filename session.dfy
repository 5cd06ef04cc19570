/**
 * The booking page's controller: the module-level state of the page
 * (`eventId`, the three sheets, `selectedSlotTime`, `isWaitlistSubmission`,
 * `timerInterval`) and the handlers that change it. Calls to the backend
 * are not made: each is appended to a log, and its outcome is a parameter of
 * the handler that awaits it. A handler that awaits is split at the await
 * into the part before and the part after, so that other events can be
 * placed between them.
 */
module Controller {
  import opened Wrappers
  import opened Text
  import opened Slots
  import opened Countdown
  import opened Questions
  import opened Fields
  import opened Answers
  import opened Forms
  import opened Submission
  import opened Uploads
  import Dates

  /** Which parts of the page are shown. */
  datatype Layout = Layout(
    slotSection: bool, formSection: bool, eventPicker: bool, confirmation: bool,
    timer: bool, slotsGrid: bool, waitlist: bool)

  /** A service the user ticked: the form id and the shown name. */
  datatype ServiceChoice = ServiceChoice(id: string, name: string)

  /** The data package of `submitForm` (the signature image is not modelled). */
  datatype Payload = Payload(
    eventId: Option<string>, slotTime: Option<string>, isWaitlist: bool,
    selectedServices: seq<ServiceChoice>,
    demographics: map<string, string>, insurance: map<string, string>,
    medicalRecords: seq<FileInfo>, formResponses: seq<Response>,
    consents: Consents, electronicConsent: bool, vaxConsent: bool)

  /** A request to the backend, by `callAPI` or by `navigator.sendBeacon`. */
  datatype Call =
    | BookSlot(eventId: Option<string>, startTime: string)
    | ReleaseSlot(eventId: Option<string>, startTime: string, beacon: bool)
    | SubmitForm(data: Payload)

  /** The three sheets, as downloaded at start-up. */
  datatype Sheets = Sheets(events: seq<EventRow>, slots: seq<SlotRow>, questions: seq<Row>)

  const WaitlistEventId := "WAITLIST"
  const InitFailedMessage := "Failed to initialize the application."
  const EventNotFoundMessage := "Event not found."
  const SlotsEventMissingMessage := "Event details could not be found to render slots."
  const SlotTakenMessage := "This slot was just taken. Please select another."
  const ExpiredMessage := "Your session has expired. The slot has been released."
  const TooLargeMessage := "The total file size cannot exceed 25 MB. Please select smaller files."
  const SubmitFailedMessage := "There was an error submitting your registration."

  /** The alert each stopped submission shows (the signature one depends on the tab). */
  function StopMessage(stop: Stop, s: Signature): string {
    match stop
    case NoConsent => "Please consent to at least one method of contact to continue."
    case NoSignature =>
      if s.Drawn? then "Please provide a signature by drawing it."
      else "Please provide a signature by typing your name."
    case NoService => "Please select at least one service to continue."
    case StillLoading => "Form data is still loading. Please wait a moment and try again."
    case AnswersMissing => "Please answer all required questions before submitting."
  }

  /** The pills `renderSlots` leaves in the grid. */
  function GridPills(v: SlotsView): seq<Pill> {
    if v.Grid? then v.pills else []
  }

  /** The grid and waitlist visibility `renderSlots` leaves. */
  function SlotsLayout(l: Layout, v: SlotsView): Layout {
    match v
    case EventMissing => l
    case WaitlistShown => l.(slotsGrid := false, waitlist := true)
    case Grid(_) => l.(slotsGrid := true, waitlist := false)
  }

  /** The alerts `renderSlots` raises. */
  function SlotsAlerts(v: SlotsView): seq<string> {
    if v.EventMissing? then [SlotsEventMissingMessage] else []
  }

  /** `.service-selector:checked`, mapped to id and name, in page order. */
  function Chosen(services: seq<Service>): (r: seq<ServiceChoice>)
    ensures |r| <= |services|
    ensures forall c :: c in r <==>
      (exists i :: 0 <= i < |services| && services[i].checked && c == ServiceChoice(services[i].formId, services[i].name))
  {
    if services == [] then []
    else
      var rest := Chosen(services[1..]);
      assert forall i :: 1 <= i < |services| ==> services[i] == services[1..][i - 1];
      assert forall c :: c in rest ==>
        (exists i :: 0 <= i < |services| && services[i].checked && c == ServiceChoice(services[i].formId, services[i].name)) by {
        forall c | c in rest
          ensures exists i :: 0 <= i < |services| && services[i].checked && c == ServiceChoice(services[i].formId, services[i].name)
        {
          var j :| 0 <= j < |services[1..]| && services[1..][j].checked
            && c == ServiceChoice(services[1..][j].formId, services[1..][j].name);
          assert services[j + 1] == services[1..][j];
        }
      }
      if services[0].checked then [ServiceChoice(services[0].formId, services[0].name)] + rest
      else rest
  }

  /** No service is ticked exactly when no choice is collected. */
  lemma {:induction false} ChosenEmpty(services: seq<Service>)
    ensures Chosen(services) == [] <==> forall i :: 0 <= i < |services| ==> !services[i].checked
  {
    if services != [] {
      ChosenEmpty(services[1..]);
      assert forall i :: 1 <= i < |services| ==> services[i] == services[1..][i - 1];
    }
  }

  /**
   * The work of `renderSlots`: the event is looked up; when it is known and
   * one of its slots is bookable, a pill is made for each of its slots in
   * sheet order, clickable exactly when that slot is bookable; when none is,
   * the waitlist is offered instead.
   */
  method SlotGrid(events: seq<EventRow>, slots: seq<SlotRow>, id: Option<string>, now: int) returns (v: SlotsView)
    ensures v == View(events, slots, id, now)
  {
    var own := EventSlots(slots, id);
    var event := FindEvent(events, id);
    if event.None? {
      return EventMissing;
    }
    var day := Dates.EventDay(event.value.date);
    var available := Bookable(own, day, now);
    if available == [] {
      return WaitlistShown;
    }
    var grid := PillsOf(own, day, now);
    return Grid(grid);
  }

  /** The `forEach` of `renderSlots` that appends one pill per slot. */
  method PillsOf(own: seq<SlotRow>, day: Option<int>, now: int) returns (grid: seq<Pill>)
    ensures grid == Pills(own, day, now)
  {
    grid := [];
    var i := 0;
    while i < |own|
      invariant i <= |own| && |grid| == i
      invariant forall j :: 0 <= j < i ==>
        grid[j] == Pill(own[j].startTime, own[j].endTime, IsBookable(own[j], day, now))
    {
      var slot := own[i];
      grid := grid + [Pill(slot.startTime, slot.endTime, IsBookable(slot, day, now))];
      i := i + 1;
    }
  }

  /** The collection loop finds no required question left blank; by
      FirstMissingNone, exactly when no control of the table misses its answer. */
  predicate AllAnswered(t: FormTable, questions: seq<Row>)
    requires WellFormed(t)
  {
    FirstMissing(t, Lookup(t, questions), |t.inputs|).None?
  }

  /** The page's module-level state and what it shows, apart from the
      dynamic-forms container. */
  datatype Globals = Globals(
    eventId: Option<string>,
    allEvents: seq<EventRow>, allSlots: seq<SlotRow>, allQuestions: seq<Row>,
    selectedSlotTime: Option<string>, isWaitlistSubmission: bool,
    timerInterval: Option<nat>,   // the handle of the last interval `startTimer` created
    intervals: map<nat, int>,     // the intervals still running, with their deadlines
    nextIntervalId: nat,
    timerText: string, layout: Layout, pills: seq<Pill>, cards: seq<EventRow>,
    uploads: seq<FileInfo>,
    calls: seq<Call>,             // backend requests, in the order they were made
    alerts: seq<string>)

  /** What the page shows and what it has asked of the browser and the
      backend: the running intervals, the countdown text, the layout, the slot
      pills, the event cards, the chosen record files, the backend requests
      and the alerts shown. */
  datatype Page = Page(
    intervals: map<nat, int>, nextIntervalId: nat,
    timerText: string, layout: Layout, pills: seq<Pill>, cards: seq<EventRow>,
    uploads: seq<FileInfo>, calls: seq<Call>, alerts: seq<string>)

  /** Interval handles are never reused: every handle handed out is below the next one. */
  predicate TimerIdsFresh(g: Globals) {
    && (forall id :: id in g.intervals ==> id < g.nextIntervalId)
    && (g.timerInterval.Some? ==> g.timerInterval.value < g.nextIntervalId)
  }

  /** The state of a freshly loaded page whose markup shows `initial`. */
  function Initial(initial: Layout): (g: Globals)
    ensures TimerIdsFresh(g) && g.selectedSlotTime == None && g.calls == []
  {
    Globals(None, [], [], [], None, false, None, map[], 0, "", initial, [], [], [], [], [])
  }

  /** `renderSlots`. */
  function Rendered(g: Globals, now: int): Globals {
    var v := View(g.allEvents, g.allSlots, g.eventId, now);
    g.(pills := GridPills(v), layout := SlotsLayout(g.layout, v), alerts := g.alerts + SlotsAlerts(v))
  }

  /** The DOMContentLoaded handler; `fetched` is None when a download failed. */
  function Started(g: Globals, urlEventId: Option<string>, campaignId: Option<string>,
                   facilityId: Option<string>, fetched: Option<Sheets>, now: int): Globals
  {
    if fetched.None? then g.(eventId := urlEventId, alerts := g.alerts + [InitFailedMessage])
    else Dispatched(Loaded(g, urlEventId, fetched.value), campaignId, facilityId, now)
  }

  /** The event id from the address and the three downloaded sheets. */
  function Loaded(g: Globals, urlEventId: Option<string>, sheets: Sheets): Globals {
    g.(eventId := urlEventId, allEvents := sheets.events, allSlots := sheets.slots, allQuestions := sheets.questions)
  }

  /** The mode dispatch once the sheets are loaded: the event's slots for an
      event id, the event picker for a campaign or facility id, and otherwise
      a general waitlist registration. */
  function Dispatched(g: Globals, campaignId: Option<string>, facilityId: Option<string>, now: int): Globals {
    if Truthy(g.eventId) then
      if FindEvent(g.allEvents, g.eventId).None? then g.(alerts := g.alerts + [EventNotFoundMessage])
      else Rendered(g, now)
    else if Truthy(campaignId) || Truthy(facilityId) then
      g.(layout := g.layout.(slotSection := false, formSection := false, eventPicker := true),
         cards := CardEvents(g.allEvents, campaignId, facilityId))
    else
      g.(eventId := Some(WaitlistEventId), isWaitlistSubmission := true,
         layout := g.layout.(slotSection := false, formSection := true, timer := false))
  }

  /** `startTimer`: a new interval counting down TIMEOUT_MS from now. */
  function TimerStarted(g: Globals, now: int): Globals {
    g.(layout := g.layout.(timer := true),
       intervals := g.intervals[g.nextIntervalId := now + TimeoutMs],
       timerInterval := Some(g.nextIntervalId),
       nextIntervalId := g.nextIntervalId + 1)
  }

  /** `clearInterval(timerInterval)`: the last interval created stops, if it still runs. */
  function TimerCleared(g: Globals): Globals {
    if g.timerInterval.Some? then g.(intervals := g.intervals - {g.timerInterval.value}) else g
  }

  /** `selectSlot` up to its await: the booking request, unless a slot is held. */
  function BookingRequested(g: Globals, time: string): Globals {
    if Truthy(g.selectedSlotTime) then g else g.(calls := g.calls + [BookSlot(g.eventId, time)])
  }

  /** `selectSlot` after its await (the dynamic forms are rendered separately). */
  function BookingDone(g: Globals, time: string, ok: bool, refreshed: Option<seq<SlotRow>>, now: int): Globals {
    if ok then SlotHeld(g, time, now) else SlotRefused(g, refreshed, now)
  }

  /** A successful booking: the slot is held, the countdown starts and the form shows. */
  function SlotHeld(g: Globals, time: string, now: int): Globals {
    var g1 := TimerStarted(g.(selectedSlotTime := Some(time)), now);
    g1.(layout := g1.layout.(slotSection := false, formSection := true))
  }

  /** A refused booking: an alert, and the grid redrawn from the slots sent back, if any. */
  function SlotRefused(g: Globals, refreshed: Option<seq<SlotRow>>, now: int): Globals {
    var g1 := g.(alerts := g.alerts + [SlotTakenMessage]);
    if refreshed.Some? then Rendered(g1.(allSlots := refreshed.value), now) else g1
  }

  /** `selectSlot` after its await as the script is written: the forms
      renderer throws for an event whose form has a question, after the slot
      is held and the countdown started, so the catch shows the slot-taken
      alert and redraws the grid while the hold and the countdown stay. */
  function BookingDoneAsWritten(g: Globals, time: string, ok: bool, refreshed: Option<seq<SlotRow>>, now: int): Globals {
    if !ok then SlotRefused(g, refreshed, now)
    else if BuildFormAsWritten(FindEvent(g.allEvents, g.eventId), g.allQuestions).Some? then
      SlotRefused(SlotHeld(g, time, now), refreshed, now)
    else SlotHeld(g, time, now)
  }

  /** `selectSlot` run to the end with nothing in between. */
  function Selected(g: Globals, time: string, ok: bool, refreshed: Option<seq<SlotRow>>, now: int): Globals {
    if Truthy(g.selectedSlotTime) then g
    else BookingDone(BookingRequested(g, time), time, ok, refreshed, now)
  }

  /** `goBack` up to its await: the countdown stops and a held slot's release is requested. */
  function GoBackStarted(g: Globals): Globals {
    var g1 := TimerCleared(g);
    if Truthy(g1.selectedSlotTime) then
      g1.(calls := g1.calls + [ReleaseSlot(g1.eventId, g1.selectedSlotTime.value, false)])
    else g1
  }

  /** `goBack` after its await, whatever the release's outcome. */
  function GoBackFinished(g: Globals, now: int): Globals {
    Rendered(g.(selectedSlotTime := None, isWaitlistSubmission := false,
                layout := g.layout.(formSection := false, slotSection := true, timer := false)), now)
  }

  /** `goBack` run to the end. */
  function WentBack(g: Globals, now: int): Globals {
    GoBackFinished(GoBackStarted(g), now)
  }

  /** `joinWaitlist`. */
  function Joined(g: Globals): Globals {
    g.(isWaitlistSubmission := true, selectedSlotTime := None,
       layout := g.layout.(slotSection := false, formSection := true, timer := false))
  }

  /** The beforeunload handler. */
  function Unloaded(g: Globals): Globals {
    if Truthy(g.selectedSlotTime) then
      g.(calls := g.calls + [ReleaseSlot(g.eventId, g.selectedSlotTime.value, true)])
    else g
  }

  /** One tick of interval `id` at `now`: the MM:SS text before the deadline;
      at or after it the last interval created stops, `goBack` starts (and
      runs to the end when no release is awaited) and the expiry alert shows. */
  function Ticked(g: Globals, id: nat, now: int): Globals
    requires id in g.intervals
  {
    var ms := g.intervals[id] - now;
    if ms <= 0 then
      var g1 := GoBackStarted(TimerCleared(g));
      var g2 := if Truthy(g.selectedSlotTime) then g1 else GoBackFinished(g1, now);
      g2.(alerts := g2.alerts + [ExpiredMessage])
    else g.(timerText := CountdownText(ms))
  }

  /** `handleFileSelection`. */
  function FilesSelected(g: Globals, files: seq<FileInfo>): Globals {
    g.(uploads := Accepted(files),
       alerts := g.alerts + (if TotalSize(files) > MaxTotalSizeBytes then [TooLargeMessage] else []))
  }

  /** The checks of `submitBooking` for the page `g` with form table `t`. */
  function SubmitStop(g: Globals, t: FormTable, consents: Consents, signature: Signature): Option<Stop>
    requires WellFormed(t)
  {
    Gate(consents, signature, |Chosen(t.services)|, g.isWaitlistSubmission,
         |g.allQuestions|, AllAnswered(t, g.allQuestions))
  }

  /** The data package `submitBooking` sends. */
  function PackageOf(g: Globals, t: FormTable, consents: Consents, electronicConsent: bool, vaxConsent: bool,
                     fields: map<string, Option<string>>, hasRecords: bool): Payload
    requires WellFormed(t)
  {
    Payload(g.eventId, g.selectedSlotTime, g.isWaitlistSubmission, Chosen(t.services),
            FieldMap(DemographicIds, fields), FieldMap(InsuranceIds, fields),
            if hasRecords then g.uploads else [],
            ResponsesUpTo(t, Lookup(t, g.allQuestions), |t.inputs|),
            consents, electronicConsent, vaxConsent)
  }

  /** `submitBooking`: the first failing check's alert, with the countdown
      stopped when the early checks pass; or the package is sent and
      `backendOk` decides between the confirmation and an alert. */
  function Submitted(g: Globals, t: FormTable, consents: Consents, electronicConsent: bool, vaxConsent: bool,
                     signature: Signature, fields: map<string, Option<string>>, hasRecords: bool,
                     backendOk: bool): Globals
    requires WellFormed(t)
  {
    var early := EarlyStop(consents, signature, |Chosen(t.services)|, g.isWaitlistSubmission);
    if early.Some? then g.(alerts := g.alerts + [StopMessage(early.value, signature)])
    else Checked(TimerCleared(g), t, consents, electronicConsent, vaxConsent, signature, fields, hasRecords, backendOk)
  }

  /** The rest of `submitBooking` once the countdown is stopped: the loading
      and answer checks, then the package is sent. */
  function Checked(g: Globals, t: FormTable, consents: Consents, electronicConsent: bool, vaxConsent: bool,
                   signature: Signature, fields: map<string, Option<string>>, hasRecords: bool,
                   backendOk: bool): Globals
    requires WellFormed(t)
  {
    var stop := SubmitStop(g, t, consents, signature);
    if stop.Some? then g.(alerts := g.alerts + [StopMessage(stop.value, signature)])
    else Delivered(g, PackageOf(g, t, consents, electronicConsent, vaxConsent, fields, hasRecords), backendOk)
  }

  /** The package is sent as intended: an accepted registration also lets go
      of the held slot, so that leaving the confirmation releases nothing. */
  function DeliveredIntended(g: Globals, data: Payload, backendOk: bool): Globals {
    var g1 := Delivered(g, data, backendOk);
    if backendOk then g1.(selectedSlotTime := None) else g1
  }

  /** The package is sent; the confirmation is shown when the backend accepts it. */
  function Delivered(g: Globals, data: Payload, backendOk: bool): Globals {
    var g1 := g.(calls := g.calls + [SubmitForm(data)]);
    if backendOk then g1.(layout := g1.layout.(slotSection := false, formSection := false, confirmation := true))
    else g1.(alerts := g1.alerts + [SubmitFailedMessage])
  }

  // ----- properties of the handlers -----

  /** Rendering the grid leaves the countdown state alone. */
  lemma RenderedKeepsTimers(g: Globals, now: int)
    ensures Rendered(g, now).intervals == g.intervals
    ensures Rendered(g, now).timerInterval == g.timerInterval
    ensures Rendered(g, now).nextIntervalId == g.nextIntervalId
  {
  }

  /** Starting and stopping the countdown keep interval handles fresh. */
  lemma TimerKeepsIdsFresh(g: Globals, now: int)
    requires TimerIdsFresh(g)
    ensures TimerIdsFresh(TimerStarted(g, now)) && TimerIdsFresh(TimerCleared(g))
  {
  }

  /** A pill click keeps interval handles fresh. */
  lemma SelectKeepsIdsFresh(g: Globals, time: string, ok: bool, refreshed: Option<seq<SlotRow>>, now: int)
    requires TimerIdsFresh(g)
    ensures TimerIdsFresh(Selected(g, time, ok, refreshed, now))
  {
    var g1 := BookingRequested(g, time);
    if !ok && refreshed.Some? {
      RenderedKeepsTimers(g1.(alerts := g1.alerts + [SlotTakenMessage], allSlots := refreshed.value), now);
    }
  }

  /** The second half of `goBack` leaves the countdown state alone. */
  lemma GoBackFinishedKeepsTimers(g: Globals, now: int)
    ensures GoBackFinished(g, now).intervals == g.intervals
    ensures GoBackFinished(g, now).timerInterval == g.timerInterval
    ensures GoBackFinished(g, now).nextIntervalId == g.nextIntervalId
  {
    RenderedKeepsTimers(g.(selectedSlotTime := None, isWaitlistSubmission := false,
                           layout := g.layout.(formSection := false, slotSection := true, timer := false)), now);
  }

  /** `goBack` keeps interval handles fresh. */
  lemma GoBackKeepsIdsFresh(g: Globals, now: int)
    requires TimerIdsFresh(g)
    ensures TimerIdsFresh(WentBack(g, now))
  {
    GoBackFinishedKeepsTimers(GoBackStarted(g), now);
  }

  /** A tick keeps interval handles fresh. */
  lemma TickKeepsIdsFresh(g: Globals, id: nat, now: int)
    requires TimerIdsFresh(g) && id in g.intervals
    ensures TimerIdsFresh(Ticked(g, id, now))
  {
    var g1 := GoBackStarted(TimerCleared(g));
    assert TimerIdsFresh(g1);
    GoBackFinishedKeepsTimers(g1, now);
  }

  /**
   * The three start-up modes: with an event id in the address the event's
   * slot grid is drawn (or "Event not found." shown); with a campaign or
   * facility id the event picker replaces the slot and form views; with
   * neither the page becomes a general waitlist registration, which later
   * needs no service to be ticked.
   */
  lemma DispatchModes(g: Globals, campaignId: Option<string>, facilityId: Option<string>, now: int, t: FormTable,
                      consents: Consents, signature: Signature)
    requires WellFormed(t)
    ensures var r := Dispatched(g, campaignId, facilityId, now);
      && (Truthy(g.eventId) && FindEvent(g.allEvents, g.eventId).None? ==>
            r == g.(alerts := g.alerts + [EventNotFoundMessage]))
      && (Truthy(g.eventId) && FindEvent(g.allEvents, g.eventId).Some? ==>
            r.pills == GridPills(View(g.allEvents, g.allSlots, g.eventId, now)) && r.eventId == g.eventId
            && r.isWaitlistSubmission == g.isWaitlistSubmission)
      && (!Truthy(g.eventId) && (Truthy(campaignId) || Truthy(facilityId)) ==>
            r.layout.eventPicker && !r.layout.slotSection && !r.layout.formSection
            && r.cards == CardEvents(g.allEvents, campaignId, facilityId))
      && (!Truthy(g.eventId) && !Truthy(campaignId) && !Truthy(facilityId) ==>
            r.eventId == Some(WaitlistEventId) && r.isWaitlistSubmission
            && r.layout.formSection && !r.layout.slotSection && !r.layout.timer
            && SubmitStop(r, t, consents, signature) != Some(NoService))
      && r.calls == g.calls && r.intervals == g.intervals
  {
  }

  /** Joining the waitlist drops any held slot, shows the form without the
      countdown and lifts the service requirement. */
  lemma JoinedNeedsNoService(g: Globals, t: FormTable, consents: Consents, signature: Signature)
    requires WellFormed(t)
    ensures var r := Joined(g);
      && r.isWaitlistSubmission && r.selectedSlotTime == None
      && r.layout.formSection && !r.layout.slotSection && !r.layout.timer
      && r.calls == g.calls && r.intervals == g.intervals
      && SubmitStop(r, t, consents, signature) != Some(NoService)
  {
  }

  /** A click on a pill does nothing while a slot is held. */
  lemma HeldSlotIgnoresClick(g: Globals, time: string, ok: bool, refreshed: Option<seq<SlotRow>>, now: int)
    requires Truthy(g.selectedSlotTime)
    ensures Selected(g, time, ok, refreshed, now) == g
  {
  }

  /**
   * With no slot held, a click requests the booking; a success holds the
   * chosen time, starts one new countdown and shows the form; a failure
   * keeps the held slot as it was and, when the sheet could be downloaded
   * again, replaces the slots and renders the grid again.
   */
  lemma SelectSlotOutcome(g: Globals, time: string, ok: bool, refreshed: Option<seq<SlotRow>>, now: int)
    requires TimerIdsFresh(g) && !Truthy(g.selectedSlotTime)
    ensures Selected(g, time, ok, refreshed, now).calls == g.calls + [BookSlot(g.eventId, time)]
    ensures ok ==>
      && Selected(g, time, ok, refreshed, now).selectedSlotTime == Some(time)
      && Selected(g, time, ok, refreshed, now).timerInterval == Some(g.nextIntervalId)
      && Selected(g, time, ok, refreshed, now).intervals == g.intervals[g.nextIntervalId := now + TimeoutMs]
      && |Selected(g, time, ok, refreshed, now).intervals| == |g.intervals| + 1
      && Selected(g, time, ok, refreshed, now).layout.formSection
      && !Selected(g, time, ok, refreshed, now).layout.slotSection
    ensures !ok ==>
      && Selected(g, time, ok, refreshed, now).selectedSlotTime == g.selectedSlotTime
      && Selected(g, time, ok, refreshed, now).intervals == g.intervals
      && (refreshed.Some? ==>
            && Selected(g, time, ok, refreshed, now).allSlots == refreshed.value
            && Selected(g, time, ok, refreshed, now).pills
               == GridPills(View(g.allEvents, refreshed.value, g.eventId, now)))
      && (refreshed.None? ==> Selected(g, time, ok, refreshed, now).allSlots == g.allSlots)
  {
    assert g.nextIntervalId !in g.intervals;
  }

  /**
   * As written, a successful booking for an event whose form has a question
   * ends in the catch: the slot-taken alert shows and the grid is redrawn
   * from the slots sent back, yet the slot stays held, the countdown runs,
   * the form section stays shown and no release is requested.
   */
  lemma RenderFailureKeepsHold(g: Globals, time: string, refreshed: Option<seq<SlotRow>>, now: int, i: nat)
    requires TimerIdsFresh(g)
    requires var forms := FormsOf(FindEvent(g.allEvents, g.eventId));
      && forms != "" && i < |SplitList(forms)|
      && OfForm(Relevant(g.allQuestions, SplitList(forms)), SplitList(forms)[i]) != []
    ensures var r := BookingDoneAsWritten(g, time, true, refreshed, now);
      && r.selectedSlotTime == Some(time)
      && r.timerInterval == Some(g.nextIntervalId) && r.intervals == g.intervals[g.nextIntervalId := now + TimeoutMs]
      && r.layout.formSection && !r.layout.slotSection
      && r.calls == g.calls
      && |r.alerts| > |g.alerts| && r.alerts[|g.alerts|] == SlotTakenMessage
      && (refreshed.Some? ==>
            r.allSlots == refreshed.value && r.pills == GridPills(View(g.allEvents, refreshed.value, g.eventId, now)))
  {
    BuildFormAsWrittenThrows(FindEvent(g.allEvents, g.eventId), g.allQuestions, i);
  }

  /**
   * Two clicks while the first booking is pending both get through the
   * guard; when both bookings succeed, two countdowns run and the handle
   * kept is the second's, so the first can no longer be stopped.
   */
  lemma PendingDoubleBookingLeaksInterval(g: Globals, t1: string, t2: string, now: int)
    requires TimerIdsFresh(g) && !Truthy(g.selectedSlotTime)
    ensures var g2 := BookingRequested(BookingRequested(g, t1), t2);
      var g3 := BookingDone(BookingDone(g2, t1, true, None, now), t2, true, None, now);
      && g2.calls == g.calls + [BookSlot(g.eventId, t1), BookSlot(g.eventId, t2)]
      && g3.selectedSlotTime == Some(t2)
      && g.nextIntervalId in g3.intervals && g.nextIntervalId + 1 in g3.intervals
      && |g3.intervals| == |g.intervals| + 2
      && g3.timerInterval == Some(g.nextIntervalId + 1)
      && TimerCleared(g3).intervals == g.intervals[g.nextIntervalId := now + TimeoutMs]
  {
    var g2 := BookingRequested(BookingRequested(g, t1), t2);
    var ga := BookingDone(g2, t1, true, None, now);
    assert g.nextIntervalId !in g.intervals;
    assert ga.intervals == g.intervals[g.nextIntervalId := now + TimeoutMs];
    assert g.nextIntervalId + 1 !in ga.intervals;
  }

  /** `goBack` always ends with the countdown stopped, nothing held, no
      waitlist submission and the slot grid shown; a release is requested
      exactly when a slot was held. */
  lemma GoBackResets(g: Globals, now: int)
    ensures WentBack(g, now).selectedSlotTime == None
    ensures !WentBack(g, now).isWaitlistSubmission
    ensures WentBack(g, now).timerInterval == g.timerInterval
    ensures g.timerInterval.Some? ==> g.timerInterval.value !in WentBack(g, now).intervals
    ensures WentBack(g, now).intervals.Keys <= g.intervals.Keys
    ensures WentBack(g, now).layout.slotSection && !WentBack(g, now).layout.formSection
    ensures !WentBack(g, now).layout.timer
    ensures Truthy(g.selectedSlotTime) ==>
      WentBack(g, now).calls == g.calls + [ReleaseSlot(g.eventId, g.selectedSlotTime.value, false)]
    ensures !Truthy(g.selectedSlotTime) ==> WentBack(g, now).calls == g.calls
  {
  }

  /**
   * A registration the backend accepts leaves `selectedSlotTime` set, so
   * closing the confirmation page sends the release beacon for the slot just
   * registered.
   */
  lemma ConfirmedSlotReleasedOnUnload(g: Globals, t: FormTable, consents: Consents, electronicConsent: bool,
                                      vaxConsent: bool, signature: Signature, fields: map<string, Option<string>>,
                                      hasRecords: bool)
    requires WellFormed(t) && Truthy(g.selectedSlotTime)
    requires SubmitStop(g, t, consents, signature).None?
    ensures var r := Submitted(g, t, consents, electronicConsent, vaxConsent, signature, fields, hasRecords, true);
      && r.layout.confirmation && r.selectedSlotTime == g.selectedSlotTime
      && Unloaded(r).calls == r.calls + [ReleaseSlot(g.eventId, g.selectedSlotTime.value, true)]
  {
    assert SubmitStop(TimerCleared(g), t, consents, signature) == SubmitStop(g, t, consents, signature);
  }

  /** With the intended delivery an accepted registration holds no slot, and
      leaving the confirmation sends nothing; a refused one keeps the hold, so
      a later `goBack` or unload still releases it. */
  lemma IntendedConfirmationSendsNoBeacon(g: Globals, data: Payload)
    ensures var r := DeliveredIntended(g, data, true);
      && r.layout.confirmation && r.calls == g.calls + [SubmitForm(data)]
      && r.selectedSlotTime == None && Unloaded(r) == r
    ensures DeliveredIntended(g, data, false).selectedSlotTime == g.selectedSlotTime
  {
  }

  /** The unload beacon is sent exactly when a slot is held, and for that slot. */
  lemma BeaconOnlyWhenHeld(g: Globals)
    ensures Truthy(g.selectedSlotTime) ==>
      Unloaded(g).calls == g.calls + [ReleaseSlot(g.eventId, g.selectedSlotTime.value, true)]
    ensures !Truthy(g.selectedSlotTime) ==> Unloaded(g) == g
  {
  }

  /** Before the deadline a tick only shows the minutes and the seconds
      (0..59) left, and the text reads back as them. */
  lemma TickBeforeDeadline(g: Globals, id: nat, now: int)
    requires id in g.intervals && g.intervals[id] > now
    ensures Ticked(g, id, now).(timerText := g.timerText) == g
    ensures ParseCountdown(Ticked(g, id, now).timerText)
      == Some((Minutes(g.intervals[id] - now), Seconds(g.intervals[id] - now)))
    ensures Seconds(g.intervals[id] - now) < 60
  {
    var ms := g.intervals[id] - now;
    assert Ticked(g, id, now) == g.(timerText := CountdownText(ms));
    CountdownTextRoundTrip(ms);
  }

  /** At or after the deadline a tick stops the countdown, starts `goBack`
      (releasing a held slot) and ends with the expiry alert. */
  lemma TickAtDeadline(g: Globals, id: nat, now: int)
    requires id in g.intervals && g.intervals[id] <= now
    ensures g.timerInterval.Some? ==> g.timerInterval.value !in Ticked(g, id, now).intervals
    ensures Ticked(g, id, now).alerts[|Ticked(g, id, now).alerts| - 1] == ExpiredMessage
    ensures Truthy(g.selectedSlotTime) ==>
      Ticked(g, id, now).calls == g.calls + [ReleaseSlot(g.eventId, g.selectedSlotTime.value, false)]
    ensures !Truthy(g.selectedSlotTime) ==>
      Ticked(g, id, now).selectedSlotTime == None && Ticked(g, id, now).calls == g.calls
  {
  }

  /** An interval the page no longer holds a handle to keeps ticking: once
      its deadline has passed, each tick starts `goBack` and alerts again. */
  lemma LeakedIntervalRepeatsExpiry(g: Globals, id: nat, now: int)
    requires id in g.intervals && g.intervals[id] <= now
    requires g.timerInterval != Some(id)
    ensures id in Ticked(g, id, now).intervals
    ensures id in Ticked(Ticked(g, id, now), id, now + 1000).intervals
    ensures |Ticked(Ticked(g, id, now), id, now + 1000).alerts| >= |g.alerts| + 2
  {
  }

  /** A submission stopped by the consent, signature or service check only
      raises that check's alert: nothing is sent and the countdown runs on. */
  lemma SubmitStopsEarly(g: Globals, t: FormTable, consents: Consents, electronicConsent: bool, vaxConsent: bool,
                         signature: Signature, fields: map<string, Option<string>>, hasRecords: bool, backendOk: bool)
    requires WellFormed(t)
    requires EarlyStop(consents, signature, |Chosen(t.services)|, g.isWaitlistSubmission).Some?
    ensures var r := Submitted(g, t, consents, electronicConsent, vaxConsent, signature, fields, hasRecords, backendOk);
      var stop := SubmitStop(g, t, consents, signature);
      && stop.Some? && stop.value in {NoConsent, NoSignature, NoService}
      && r.calls == g.calls && r.intervals == g.intervals
      && r.alerts == g.alerts + [StopMessage(stop.value, signature)]
  {
  }

  /** Once the early checks pass the countdown is stopped, whatever follows;
      a failing later check raises its alert and sends nothing, and otherwise
      exactly one package is sent. */
  lemma SubmitAfterEarlyChecks(g: Globals, t: FormTable, consents: Consents, electronicConsent: bool, vaxConsent: bool,
                               signature: Signature, fields: map<string, Option<string>>, hasRecords: bool, backendOk: bool)
    requires WellFormed(t)
    requires EarlyStop(consents, signature, |Chosen(t.services)|, g.isWaitlistSubmission).None?
    ensures var r := Submitted(g, t, consents, electronicConsent, vaxConsent, signature, fields, hasRecords, backendOk);
      var stop := SubmitStop(g, t, consents, signature);
      && r.intervals == TimerCleared(g).intervals
      && (stop.Some? ==> r.calls == g.calls && r.alerts == g.alerts + [StopMessage(stop.value, signature)])
      && (stop.None? ==>
            r.calls == g.calls + [SubmitForm(PackageOf(g, t, consents, electronicConsent, vaxConsent, fields, hasRecords))])
  {
    var g1 := TimerCleared(g);
    assert g1.calls == g.calls && g1.alerts == g.alerts;
    assert SubmitStop(g1, t, consents, signature) == SubmitStop(g, t, consents, signature);
    assert PackageOf(g1, t, consents, electronicConsent, vaxConsent, fields, hasRecords)
        == PackageOf(g, t, consents, electronicConsent, vaxConsent, fields, hasRecords);
  }

  /** The package holds one response per answering group, in document order,
      and the named fields each list finds in the form. */
  lemma PackageContents(g: Globals, t: FormTable, consents: Consents, electronicConsent: bool, vaxConsent: bool,
                        fields: map<string, Option<string>>, hasRecords: bool)
    requires WellFormed(t)
    ensures var p := PackageOf(g, t, consents, electronicConsent, vaxConsent, fields, hasRecords);
      && p.demographics.Keys == (set id | id in DemographicIds && id in fields)
      && p.insurance.Keys == (set id | id in InsuranceIds && id in fields)
      && (forall id :: id in p.demographics ==> p.demographics[id] == FieldValue(fields[id]))
      && (Chosen(t.services) == [] ==> p.isWaitlist || forall i :: 0 <= i < |t.services| ==> !t.services[i].checked)
  {
    ChosenEmpty(t.services);
  }

  /** The script's module-level variables, the page around them and the
      dynamic-forms container. */
  class Session {
    var eventId: Option<string>
    var allEvents: seq<EventRow>
    var allSlots: seq<SlotRow>
    var allQuestions: seq<Row>
    var selectedSlotTime: Option<string>
    var isWaitlistSubmission: bool
    var timerInterval: Option<nat>
    var page: Page
    const form: DynamicForm

    /** The variables and the page as one value. */
    function State(): Globals
      reads this
    {
      Globals(eventId, allEvents, allSlots, allQuestions, selectedSlotTime, isWaitlistSubmission,
              timerInterval, page.intervals, page.nextIntervalId, page.timerText, page.layout, page.pills,
              page.cards, page.uploads, page.calls, page.alerts)
    }

    predicate Valid()
      reads this, form
    {
      form.Valid() && TimerIdsFresh(State())
    }

    /** The page as loaded, before the start-up handler runs. */
    constructor (initial: Layout)
      ensures Valid() && State() == Initial(initial)
      ensures form.Table() == FormTable([], [], [], [])
    {
      eventId, allEvents, allSlots, allQuestions := None, [], [], [];
      selectedSlotTime, isWaitlistSubmission := None, false;
      timerInterval := None;
      page := Page(map[], 0, "", initial, [], [], [], [], []);
      form := new DynamicForm();
    }

    method Startup(urlEventId: Option<string>, campaignId: Option<string>, facilityId: Option<string>,
                   fetched: Option<Sheets>, now: int)
      modifies this
      ensures State() == Started(old(State()), urlEventId, campaignId, facilityId, fetched, now)
    {
      if fetched.None? {
        eventId := urlEventId;
        page := page.(alerts := page.alerts + [InitFailedMessage]);
        return;
      }
      Load(urlEventId, fetched.value);
      Dispatch(campaignId, facilityId, now);
    }

    method Load(urlEventId: Option<string>, sheets: Sheets)
      modifies this
      ensures State() == Loaded(old(State()), urlEventId, sheets)
    {
      eventId := urlEventId;
      allEvents, allSlots, allQuestions := sheets.events, sheets.slots, sheets.questions;
    }

    method Dispatch(campaignId: Option<string>, facilityId: Option<string>, now: int)
      modifies this
      ensures State() == Dispatched(old(State()), campaignId, facilityId, now)
    {
      if Truthy(eventId) {
        if FindEvent(allEvents, eventId).None? {
          page := page.(alerts := page.alerts + [EventNotFoundMessage]);
          return;
        }
        RenderSlots(now);
      } else if Truthy(campaignId) || Truthy(facilityId) {
        page := page.(layout := page.layout.(slotSection := false, formSection := false, eventPicker := true));
        page := page.(cards := CardEvents(allEvents, campaignId, facilityId));
      } else {
        eventId := Some(WaitlistEventId);
        isWaitlistSubmission := true;
        page := page.(layout := page.layout.(slotSection := false, formSection := true, timer := false));
      }
    }

    method RenderSlots(now: int)
      modifies this
      ensures State() == Rendered(old(State()), now)
    {
      var v := SlotGrid(allEvents, allSlots, eventId, now);
      page := page.(pills := GridPills(v));
      page := page.(layout := SlotsLayout(page.layout, v));
      page := page.(alerts := page.alerts + SlotsAlerts(v));
    }

    method StartTimer(now: int)
      modifies this
      ensures State() == TimerStarted(old(State()), now)
    {
      page := page.(layout := page.layout.(timer := true));
      var id := page.nextIntervalId;
      page := page.(intervals := page.intervals[id := now + TimeoutMs], nextIntervalId := id + 1);
      timerInterval := Some(id);
    }

    method ClearTimer()
      modifies this
      ensures State() == TimerCleared(old(State()))
    {
      if timerInterval.Some? {
        page := page.(intervals := page.intervals - {timerInterval.value});
      }
    }

    /** `sent` says the booking request went out and its answer is awaited. */
    method RequestBooking(time: string) returns (sent: bool)
      modifies this
      ensures sent <==> !Truthy(old(selectedSlotTime))
      ensures State() == BookingRequested(old(State()), time)
    {
      if Truthy(selectedSlotTime) {
        return false;
      }
      page := page.(calls := page.calls + [BookSlot(eventId, time)]);
      return true;
    }

    /** A successful booking also renders the dynamic forms for the event. */
    method BookingSettled(time: string, ok: bool, refreshed: Option<seq<SlotRow>>, now: int)
      requires Valid()
      modifies this, form
      ensures Valid()
      ensures State() == BookingDone(old(State()), time, ok, refreshed, now)
      ensures ok ==> form.Table() == BuildForm(FindEvent(allEvents, eventId), allQuestions)
      ensures !ok ==> form.Table() == old(form.Table())
    {
      if ok {
        HoldSlot(time, now);
        form.Render(FindEvent(allEvents, eventId), allQuestions);
      } else {
        RefuseSlot(refreshed, now);
      }
    }

    /** `BookingSettled` as the script is written: for an event whose form
        has a question the renderer throws once the slot is held, and the
        catch runs. What the throwing renderer leaves in the container is not
        modelled. */
    method BookingSettledAsWritten(time: string, ok: bool, refreshed: Option<seq<SlotRow>>, now: int)
      requires Valid()
      modifies this, form
      ensures Valid()
      ensures State() == BookingDoneAsWritten(old(State()), time, ok, refreshed, now)
      ensures ok && BuildFormAsWritten(FindEvent(allEvents, eventId), allQuestions).None? ==>
        form.Table() == BuildForm(FindEvent(allEvents, eventId), allQuestions)
      ensures !ok || BuildFormAsWritten(FindEvent(allEvents, eventId), allQuestions).Some? ==>
        form.Table() == old(form.Table())
    {
      if !ok {
        RefuseSlot(refreshed, now);
        return;
      }
      HoldSlot(time, now);
      if BuildFormAsWritten(FindEvent(allEvents, eventId), allQuestions).Some? {
        RefuseSlot(refreshed, now);
      } else {
        form.Render(FindEvent(allEvents, eventId), allQuestions);
      }
    }

    method HoldSlot(time: string, now: int)
      modifies this
      ensures State() == SlotHeld(old(State()), time, now)
    {
      selectedSlotTime := Some(time);
      StartTimer(now);
      page := page.(layout := page.layout.(slotSection := false, formSection := true));
    }

    method RefuseSlot(refreshed: Option<seq<SlotRow>>, now: int)
      modifies this
      ensures State() == SlotRefused(old(State()), refreshed, now)
    {
      page := page.(alerts := page.alerts + [SlotTakenMessage]);
      if refreshed.Some? {
        allSlots := refreshed.value;
        RenderSlots(now);
      }
    }

    method SelectSlot(time: string, ok: bool, refreshed: Option<seq<SlotRow>>, now: int)
      requires Valid()
      modifies this, form
      ensures Valid()
      ensures State() == Selected(old(State()), time, ok, refreshed, now)
    {
      var sent := RequestBooking(time);
      if sent {
        BookingSettled(time, ok, refreshed, now);
      }
    }

    /** `pending` says a release request went out and is awaited. */
    method GoBackStart() returns (pending: bool)
      modifies this
      ensures pending <==> Truthy(old(selectedSlotTime))
      ensures State() == GoBackStarted(old(State()))
    {
      ClearTimer();
      pending := Truthy(selectedSlotTime);
      if pending {
        page := page.(calls := page.calls + [ReleaseSlot(eventId, selectedSlotTime.value, false)]);
      }
    }

    method GoBackFinish(now: int)
      modifies this
      ensures State() == GoBackFinished(old(State()), now)
    {
      selectedSlotTime := None;
      isWaitlistSubmission := false;
      page := page.(layout := page.layout.(formSection := false, slotSection := true, timer := false));
      RenderSlots(now);
    }

    method GoBack(now: int)
      modifies this
      ensures State() == WentBack(old(State()), now)
    {
      var _ := GoBackStart();
      GoBackFinish(now);
    }

    method JoinWaitlist()
      modifies this
      ensures State() == Joined(old(State()))
    {
      isWaitlistSubmission := true;
      selectedSlotTime := None;
      page := page.(layout := page.layout.(slotSection := false, formSection := true, timer := false));
    }

    method Unload()
      modifies this
      ensures State() == Unloaded(old(State()))
    {
      if Truthy(selectedSlotTime) {
        page := page.(calls := page.calls + [ReleaseSlot(eventId, selectedSlotTime.value, true)]);
      }
    }

    /** `expired` says the deadline has passed; `pending` that a release is awaited. */
    method Tick(id: nat, now: int) returns (expired: bool, pending: bool)
      requires id in page.intervals
      modifies this
      ensures expired <==> old(page.intervals)[id] <= now
      ensures pending <==> expired && Truthy(old(selectedSlotTime))
      ensures State() == Ticked(old(State()), id, now)
    {
      var msRemaining := page.intervals[id] - now;
      if msRemaining <= 0 {
        expired := true;
        ClearTimer();
        pending := GoBackStart();
        if !pending {
          GoBackFinish(now);
        }
        page := page.(alerts := page.alerts + [ExpiredMessage]);
      } else {
        expired, pending := false, false;
        page := page.(timerText := CountdownText(msRemaining));
      }
    }

    method SelectFiles(files: seq<FileInfo>)
      modifies this
      ensures State() == FilesSelected(old(State()), files)
    {
      if TotalSize(files) > MaxTotalSizeBytes {
        page := page.(alerts := page.alerts + [TooLargeMessage]);
        page := page.(uploads := []);
        return;
      }
      page := page.(uploads := files);
    }

    /** `fields` maps the id of each named control of the registration form to its value. */
    method SubmitBooking(consents: Consents, electronicConsent: bool, vaxConsent: bool, signature: Signature,
                         fields: map<string, Option<string>>, hasRecords: bool, backendOk: bool)
      returns (stop: Option<Stop>)
      requires Valid()
      modifies this
      ensures stop == SubmitStop(old(State()), form.Table(), consents, signature)
      ensures State() == Submitted(old(State()), form.Table(), consents, electronicConsent, vaxConsent,
                                   signature, fields, hasRecords, backendOk)
    {
      var early := EarlyStop(consents, signature, |Chosen(form.services)|, isWaitlistSubmission);
      if early.Some? {
        Alert(StopMessage(early.value, signature));
        return early;
      }
      ClearTimer();
      stop := CheckAndSend(consents, electronicConsent, vaxConsent, signature, fields, hasRecords, backendOk);
    }

    /** `submitBooking` after `clearInterval`. */
    method CheckAndSend(consents: Consents, electronicConsent: bool, vaxConsent: bool, signature: Signature,
                        fields: map<string, Option<string>>, hasRecords: bool, backendOk: bool)
      returns (stop: Option<Stop>)
      requires Valid()
      requires EarlyStop(consents, signature, |Chosen(form.services)|, isWaitlistSubmission).None?
      modifies this
      ensures stop == SubmitStop(old(State()), form.Table(), consents, signature)
      ensures State() == Checked(old(State()), form.Table(), consents, electronicConsent, vaxConsent,
                                 signature, fields, hasRecords, backendOk)
    {
      ghost var t := form.Table();
      if |allQuestions| == 0 {
        assert SubmitStop(State(), t, consents, signature) == Some(StillLoading);
        Alert(StopMessage(StillLoading, signature));
        return Some(StillLoading);
      }
      var responses, valid, firstInvalid := form.Collect(allQuestions);
      assert valid == AllAnswered(t, allQuestions);
      if !valid {
        assert SubmitStop(State(), t, consents, signature) == Some(AnswersMissing);
        Alert(StopMessage(AnswersMissing, signature));
        return Some(AnswersMissing);
      }
      assert SubmitStop(State(), t, consents, signature) == None;
      var demographics := GatherFields(DemographicIds, fields);
      var insurance := GatherFields(InsuranceIds, fields);
      var data := Payload(eventId, selectedSlotTime, isWaitlistSubmission, Chosen(form.services),
                          demographics, insurance, if hasRecords then page.uploads else [], responses,
                          consents, electronicConsent, vaxConsent);
      assert data == PackageOf(State(), form.Table(), consents, electronicConsent, vaxConsent, fields, hasRecords);
      Deliver(data, backendOk);
      stop := None;
    }

    /** `alert(message)`. */
    method Alert(message: string)
      modifies this
      ensures State() == old(State()).(alerts := old(State()).alerts + [message])
    {
      page := page.(alerts := page.alerts + [message]);
    }

    /** The `submitForm` call and its outcome. */
    method Deliver(data: Payload, backendOk: bool)
      modifies this
      ensures State() == Delivered(old(State()), data, backendOk)
    {
      page := page.(calls := page.calls + [SubmitForm(data)]);
      if backendOk {
        page := page.(layout := page.layout.(slotSection := false, formSection := false, confirmation := true));
      } else {
        page := page.(alerts := page.alerts + [SubmitFailedMessage]);
      }
    }
  }
}
