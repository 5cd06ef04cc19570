/**
 * The slot grid of one event. A slot is bookable when its sheet status is
 * "Open" and its start (the event's date at the slot's HH:MM) is not before
 * the current instant; the grid lists every slot of the event, clickable or
 * greyed out, unless none is bookable, in which case the waitlist is offered
 * instead. Also here: the event picker's filter by campaign or facility.
 */
module Slots {
  import opened Wrappers
  import opened Text
  import opened Dates

  /** A row of the events sheet; every column is present, an empty cell is "". */
  datatype EventRow = EventRow(
    eventId: string, name: string, date: string, startTime: string, endTime: string,
    campaignId: string, facilityId: string, forms: string, serviceNames: string)

  /** A row of the slots sheet. */
  datatype SlotRow = SlotRow(eventId: string, startTime: string, endTime: string, status: string)

  /** One rendered slot pill: its label's times and whether it is clickable. */
  datatype Pill = Pill(startTime: string, endTime: string, open: bool)

  /** What `renderSlots` leaves on the page. */
  datatype SlotsView =
    | EventMissing          // the event is not in the sheet: an alert, no pills
    | WaitlistShown         // no bookable slot: grid hidden, waitlist shown, no pills
    | Grid(pills: seq<Pill>) // grid shown, waitlist hidden

  /** Index of the first event whose id is `id` (`allEvents.find`), or |events|. */
  function FindEventIndex(events: seq<EventRow>, id: Option<string>): (k: nat)
    ensures k <= |events|
    ensures k < |events| ==> id == Some(events[k].eventId)
    ensures forall j :: 0 <= j < k ==> id != Some(events[j].eventId)
  {
    if events == [] then 0
    else if id == Some(events[0].eventId) then 0
    else 1 + FindEventIndex(events[1..], id)
  }

  function FindEvent(events: seq<EventRow>, id: Option<string>): Option<EventRow> {
    var k := FindEventIndex(events, id);
    if k < |events| then Some(events[k]) else None
  }

  /** The slots of event `id`, in sheet order (`allSlots.filter`). */
  function EventSlots(slots: seq<SlotRow>, id: Option<string>): (r: seq<SlotRow>)
    ensures |r| <= |slots|
    ensures forall s :: s in r <==> s in slots && id == Some(s.eventId)
  {
    if slots == [] then []
    else
      var rest := EventSlots(slots[1..], id);
      assert forall s :: s in slots <==> s == slots[0] || s in slots[1..];
      if id == Some(slots[0].eventId) then [slots[0]] + rest else rest
  }

  /** The test `slot.Status === 'Open' && !isPastSlot` of `renderSlots`. */
  predicate IsBookable(slot: SlotRow, eventDay: Option<int>, now: int) {
    slot.status == "Open" && !IsPast(SlotStart(eventDay, slot.startTime), now)
  }

  /** `trulyAvailableSlots`: the bookable slots among `slots`, in order. */
  function Bookable(slots: seq<SlotRow>, eventDay: Option<int>, now: int): (r: seq<SlotRow>)
    ensures forall s :: s in r <==> s in slots && IsBookable(s, eventDay, now)
  {
    if slots == [] then []
    else
      var rest := Bookable(slots[1..], eventDay, now);
      assert forall s :: s in slots <==> s == slots[0] || s in slots[1..];
      if IsBookable(slots[0], eventDay, now) then [slots[0]] + rest else rest
  }

  /** One pill per slot, clickable exactly when the slot is bookable. */
  function Pills(slots: seq<SlotRow>, eventDay: Option<int>, now: int): (pills: seq<Pill>)
    ensures |pills| == |slots|
    ensures forall i :: 0 <= i < |slots| ==>
      pills[i] == Pill(slots[i].startTime, slots[i].endTime, IsBookable(slots[i], eventDay, now))
  {
    if slots == [] then []
    else [Pill(slots[0].startTime, slots[0].endTime, IsBookable(slots[0], eventDay, now))]
         + Pills(slots[1..], eventDay, now)
  }

  /** `renderSlots` for event `id` at instant `now`. */
  function View(events: seq<EventRow>, slots: seq<SlotRow>, id: Option<string>, now: int): SlotsView {
    match FindEvent(events, id)
    case None => EventMissing
    case Some(event) =>
      var own := EventSlots(slots, id);
      var day := EventDay(event.date);
      if Bookable(own, day, now) == [] then WaitlistShown
      else Grid(Pills(own, day, now))
  }

  /**
   * The waitlist is shown exactly when the event exists and none of its
   * slots is bookable; otherwise, for a known event, there is a pill for every
   * slot of the event, clickable exactly when the slot is bookable, and at
   * least one of them is clickable.
   */
  lemma ViewMeaning(events: seq<EventRow>, slots: seq<SlotRow>, id: Option<string>, now: int)
    ensures View(events, slots, id, now).EventMissing? <==> FindEvent(events, id).None?
    ensures View(events, slots, id, now).WaitlistShown? <==>
      && FindEvent(events, id).Some?
      && forall s :: s in EventSlots(slots, id) ==>
           !IsBookable(s, EventDay(FindEvent(events, id).value.date), now)
    ensures View(events, slots, id, now).Grid? ==>
      && FindEvent(events, id).Some?
      && View(events, slots, id, now).pills == Pills(EventSlots(slots, id), EventDay(FindEvent(events, id).value.date), now)
      && exists i :: 0 <= i < |View(events, slots, id, now).pills| && View(events, slots, id, now).pills[i].open
  {
    match FindEvent(events, id)
    case None =>
    case Some(event) =>
      var own := EventSlots(slots, id);
      var day := EventDay(event.date);
      var available := Bookable(own, day, now);
      if available != [] {
        var pills := Pills(own, day, now);
        assert available[0] in own;
        var i :| 0 <= i < |own| && own[i] == available[0];
        assert pills[i].open;
      }
  }

  /**
   * With a well-formed M/D/YYYY date and HH:MM start, a slot is bookable
   * exactly when it is "Open" and it starts at or after `now`.
   */
  lemma BookableIffOpenAndNotPast(slot: SlotRow, month: nat, day: nat, year: nat, hours: nat, minutes: nat, now: int)
    requires slot.startTime == FormatTime(hours, minutes)
    ensures IsBookable(slot, EventDay(FormatDate(month, day, year)), now)
        <==> slot.status == "Open" && Instant(MakeDay(FullYear(year), month - 1, day), hours, minutes) >= now
  {
    EventDayOfFormatted(month, day, year);
    SlotStartOfFormatted(MakeDay(FullYear(year), month - 1, day), hours, minutes);
  }

  /** A start time that does not read as a number gives an invalid date, and a
      comparison with an invalid date is false: an "Open" slot with such a
      start is offered as bookable whatever the time. */
  lemma UnreadableStartIsBookable(slot: SlotRow, eventDay: Option<int>, now: int)
    requires slot.status == "Open"
    requires ':' !in slot.startTime
    ensures IsBookable(slot, eventDay, now)
  {
    assert Split(slot.startTime, ':') == [slot.startTime] by {
      IndexOfAbsent(slot.startTime, ':');
    }
  }

  /** `renderEventCards`' filter: by campaign when a campaign id is given,
      otherwise by facility; sheet order is kept. */
  function CardEvents(events: seq<EventRow>, campaignId: Option<string>, facilityId: Option<string>): (r: seq<EventRow>)
    ensures Truthy(campaignId) ==> forall e :: e in r <==> e in events && e.campaignId == campaignId.value
    ensures !Truthy(campaignId) && Truthy(facilityId) ==>
      forall e :: e in r <==> e in events && e.facilityId == facilityId.value
    ensures !Truthy(campaignId) && !Truthy(facilityId) ==> r == []
  {
    if Truthy(campaignId) then WithCampaign(events, campaignId.value)
    else if Truthy(facilityId) then WithFacility(events, facilityId.value)
    else []
  }

  function WithCampaign(events: seq<EventRow>, id: string): (r: seq<EventRow>)
    ensures forall e :: e in r <==> e in events && e.campaignId == id
  {
    if events == [] then []
    else
      var rest := WithCampaign(events[1..], id);
      assert forall e :: e in events <==> e == events[0] || e in events[1..];
      if events[0].campaignId == id then [events[0]] + rest else rest
  }

  function WithFacility(events: seq<EventRow>, id: string): (r: seq<EventRow>)
    ensures forall e :: e in r <==> e in events && e.facilityId == id
  {
    if events == [] then []
    else
      var rest := WithFacility(events[1..], id);
      assert forall e :: e in events <==> e == events[0] || e in events[1..];
      if events[0].facilityId == id then [events[0]] + rest else rest
  }
}
