/**
 * The calendar arithmetic behind the slot grid. The page splits an event's
 * `Date` column as M/D/YYYY and a slot's `Start Time` as HH:MM and hands the
 * pieces to JavaScript's `new Date(year, month, day, hours, minutes)`, which
 * coerces each piece with Number(), maps years 0..99 to 1900..1999, and lets
 * an out-of-range month, day, hour or minute roll over into the next unit.
 * Local time is taken as one uniform timeline, so an instant is a count of
 * milliseconds and a calendar day a count of days, both from 1970-01-01.
 */
module Dates {
  import opened Wrappers
  import opened Text

  /** The instant `hours` and `minutes` into day `day`, in milliseconds. */
  function Instant(day: int, hours: int, minutes: int): int {
    day * 86400000 + hours * 3600000 + minutes * 60000
  }

  /** Days from 1970-01-01 to the first `d`-th day of month `m` (1..12) of year
      `y` in the proleptic Gregorian calendar; `d` may run past the month. */
  function DaysFromCivil(y: int, m: int, d: int): int
    requires 1 <= m <= 12
  {
    var y' := if m <= 2 then y - 1 else y;
    var era := y' / 400;
    var yoe := y' - era * 400;
    var mp := (m + 9) % 12;
    var doy := (153 * mp + 2) / 5 + d - 1;
    var doe := yoe * 365 + yoe / 4 - yoe / 100 + doy;
    era * 146097 + doe - 719468
  }

  /** MakeDay of ECMAScript: the month index counts from 0 and rolls over
      into the year in either direction. */
  function MakeDay(year: int, month: int, date: int): int {
    DaysFromCivil(year + month / 12, month % 12 + 1, 1) + date - 1
  }

  /** The Date constructor reads a year 0..99 as 1900..1999. */
  function FullYear(y: int): (r: int)
    ensures 0 <= y <= 99 ==> r == 1900 + y
    ensures (y < 0 || 99 < y) ==> r == y
  {
    if 0 <= y <= 99 then 1900 + y else y
  }

  /** `new Date(parts[2], parts[0] - 1, parts[1])` for `date.split('/')`, as a
      day count; None is the invalid date a missing or non-numeric piece gives. */
  function EventDay(date: string): Option<int> {
    var parts := Split(date, '/');
    var month := ToNumber(parts[0]);
    var day := if |parts| > 1 then ToNumber(parts[1]) else None;
    var year := if |parts| > 2 then ToNumber(parts[2]) else None;
    if month.Some? && day.Some? && year.Some? then
      Some(MakeDay(FullYear(year.value), month.value - 1, day.value))
    else None
  }

  /** The instant of a slot that starts at `startTime` (split on ':') on the
      event day; None is the invalid date of a missing or non-numeric piece.
      The hours and minutes are added to the event day as it stands; the page
      rebuilds that day from its year, month and date, which maps a year
      0..99 into the 1900s a second time, and that case is not modelled. */
  function SlotStart(eventDay: Option<int>, startTime: string): Option<int> {
    var parts := Split(startTime, ':');
    var hours := ToNumber(parts[0]);
    var minutes := if |parts| > 1 then ToNumber(parts[1]) else None;
    if eventDay.Some? && hours.Some? && minutes.Some? then
      Some(Instant(eventDay.value, hours.value, minutes.value))
    else None
  }

  /** `slotDateTime < now`: a comparison with an invalid date is false. */
  predicate IsPast(start: Option<int>, now: int) {
    start.Some? && start.value < now
  }

  /** "M/D/YYYY" as the events sheet writes it. */
  function FormatDate(month: nat, day: nat, year: nat): string {
    Join([NatToString(month), NatToString(day), NatToString(year)], "/")
  }

  /** "HH:MM" as the slots sheet writes it. */
  function FormatTime(hours: nat, minutes: nat): string {
    Join([Pad2(NatToString(hours)), Pad2(NatToString(minutes))], ":")
  }

  /** A well-formed M/D/YYYY date is read as that calendar day. */
  lemma EventDayOfFormatted(month: nat, day: nat, year: nat)
    ensures EventDay(FormatDate(month, day, year)) == Some(MakeDay(FullYear(year), month - 1, day))
  {
    var parts := [NatToString(month), NatToString(day), NatToString(year)];
    forall i | 0 <= i < 3 ensures '/' !in parts[i] {
      DigitsExclude(parts[i], '/');
    }
    SplitJoin(parts, '/');
    ToNumberOfNatToString(month);
    ToNumberOfNatToString(day);
    ToNumberOfNatToString(year);
  }

  /** A well-formed HH:MM start time is read as that many hours and minutes into the event day. */
  lemma SlotStartOfFormatted(eventDay: int, hours: nat, minutes: nat)
    ensures SlotStart(Some(eventDay), FormatTime(hours, minutes)) == Some(Instant(eventDay, hours, minutes))
  {
    PiecesOfFormatTime(hours, minutes);
    NumbersOfPadded(hours, minutes);
    SlotStartOfPieces(eventDay, FormatTime(hours, minutes), Pad2(NatToString(hours)), Pad2(NatToString(minutes)), hours, minutes);
  }

  lemma NumbersOfPadded(hours: nat, minutes: nat)
    ensures ToNumber(Pad2(NatToString(hours))) == Some(hours)
    ensures ToNumber(Pad2(NatToString(minutes))) == Some(minutes)
  {
    ToNumberOfPadded(hours);
    ToNumberOfPadded(minutes);
  }

  lemma PiecesOfFormatTime(hours: nat, minutes: nat)
    ensures Split(FormatTime(hours, minutes), ':') == [Pad2(NatToString(hours)), Pad2(NatToString(minutes))]
  {
    var parts := [Pad2(NatToString(hours)), Pad2(NatToString(minutes))];
    PaddedExcludes(hours, ':');
    PaddedExcludes(minutes, ':');
    SplitJoin(parts, ':');
  }

  lemma SlotStartOfPieces(eventDay: int, t: string, h: string, m: string, hours: int, minutes: int)
    requires Split(t, ':') == [h, m]
    requires ToNumber(h) == Some(hours) && ToNumber(m) == Some(minutes)
    ensures SlotStart(Some(eventDay), t) == Some(Instant(eventDay, hours, minutes))
  {
  }

  /** On one day, start times within the hour compare like (hours, minutes) pairs. */
  lemma ClockOrder(eventDay: int, h1: nat, m1: nat, h2: nat, m2: nat)
    requires m1 < 60 && m2 < 60
    ensures Instant(eventDay, h1, m1) < Instant(eventDay, h2, m2) <==> h1 < h2 || (h1 == h2 && m1 < m2)
  {
  }

  /** A month index of 12 is January of the next year, and -1 December of the previous one. */
  lemma MonthRollsOver(year: int, month: int, date: int)
    ensures MakeDay(year, month + 12, date) == MakeDay(year + 1, month, date)
    ensures MakeDay(year, month - 12, date) == MakeDay(year - 1, month, date)
  {
  }
}
