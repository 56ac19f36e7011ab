/**
 * Event timing. The handlers combine a date column with a time column through
 * JavaScript `Date` objects; here an event carries the resulting instants (in
 * milliseconds) directly, and the registration deadline is a calendar day whose
 * cutoff is its last millisecond.
 */
module Schedule {

  const MsPerDay: int := 86_400_000
  const MsPerHour: int := 3_600_000

  /** Scheduling data of an event: its owner's uid, the start and end instants,
      the instant registration opens, and the last calendar day of registration. */
  datatype EventRec = EventRec(owner: int, startAt: int, endAt: int, regisStartAt: int, regisEndDay: int)

  /** The calendar day an instant falls on. */
  function DayOf(t: int): int {
    t / MsPerDay
  }

  /** 23:59:59.999 of `day`. */
  function RegisCutoff(day: int): int {
    day * MsPerDay + MsPerDay - 1
  }

  /** An instant is not past the cutoff exactly when it falls on or before the day. */
  lemma CutoffIsEndOfDay(t: int, day: int)
    ensures t <= RegisCutoff(day) <==> DayOf(t) <= day
  {
    var q, r := t / MsPerDay, t % MsPerDay;
    assert t == q * MsPerDay + r && 0 <= r < MsPerDay;
    if q <= day {
      assert q * MsPerDay <= day * MsPerDay;
    } else {
      assert (day + 1) * MsPerDay <= q * MsPerDay;
    }
  }

  datatype Phase = Upcoming | Ongoing | Ended

  /** The status shown for an event: "ended" once `now` is past the end,
      otherwise "ongoing" from the start on, otherwise "upcoming". */
  function PhaseAt(now: int, startAt: int, endAt: int): (p: Phase)
    ensures p == Ended <==> now > endAt
    ensures p == Ongoing <==> startAt <= now <= endAt
    ensures p == Upcoming <==> now < startAt && now <= endAt
  {
    if now > endAt then Ended
    else if now >= startAt then Ongoing
    else Upcoming
  }

  function PhaseRank(p: Phase): nat {
    match p
    case Upcoming => 0
    case Ongoing => 1
    case Ended => 2
  }

  /** As time passes an event's status only moves forward. */
  lemma PhaseMonotone(t1: int, t2: int, startAt: int, endAt: int)
    requires t1 <= t2
    ensures PhaseRank(PhaseAt(t1, startAt, endAt)) <= PhaseRank(PhaseAt(t2, startAt, endAt))
  {
  }

  /** The outcome of the registration-window checks of an explicit registration. */
  datatype Window = Open | EventEnded | RegistrationClosed | RegistrationNotOpen

  /** The window checks in the order the handler makes them: event over, then
      registration deadline passed, then registration not yet open. */
  function CheckWindow(now: int, ev: EventRec): (w: Window)
    ensures w == EventEnded <==> now > ev.endAt
    ensures w == RegistrationClosed <==> now <= ev.endAt && DayOf(now) > ev.regisEndDay
    ensures w == RegistrationNotOpen <==> now <= ev.endAt && DayOf(now) <= ev.regisEndDay && now < ev.regisStartAt
    ensures w == Open <==> ev.regisStartAt <= now <= ev.endAt && DayOf(now) <= ev.regisEndDay
  {
    CutoffIsEndOfDay(now, ev.regisEndDay);
    if now > ev.endAt then EventEnded
    else if now > RegisCutoff(ev.regisEndDay) then RegistrationClosed
    else if now < ev.regisStartAt then RegistrationNotOpen
    else Open
  }

  /** Days since 1970-01-01 of the dates the seed data uses. */
  const Jan10_2026: int := 20463
  const Jan15_2026: int := 20468
  const Jan20_2026: int := 20473
  const Jan30_2026: int := 20483
  const Feb01_2026: int := 20485
  const Mar10_2026: int := 20522
  const Mar15_2026: int := 20527
  const Mar16_2026: int := 20528

  /** "Tech Conference 2026" of the seed data: 2026-02-01 09:00-17:00,
      registration from 2026-01-15 through 2026-01-30, owned by uid 31. */
  const TechConference: EventRec :=
    EventRec(31, Feb01_2026 * MsPerDay + 9 * MsPerHour, Feb01_2026 * MsPerDay + 17 * MsPerHour,
             Jan15_2026 * MsPerDay, Jan30_2026)

  /** "Spring Art Exhibition" of the seed data: 2026-03-15 10:00 to 2026-03-16 18:00,
      registration from 2026-02-01 through 2026-03-10, owned by uid 31. */
  const ArtExhibition: EventRec :=
    EventRec(31, Mar15_2026 * MsPerDay + 10 * MsPerHour, Mar16_2026 * MsPerDay + 18 * MsPerHour,
             Feb01_2026 * MsPerDay, Mar10_2026)

  /** Registering for the conference at noon: refused on 2026-02-01 as closed
      (the event itself has not ended yet), refused on 2026-01-10 as not open,
      accepted on 2026-01-20. */
  lemma RegistrationScenario()
    ensures CheckWindow(Feb01_2026 * MsPerDay + 12 * MsPerHour, TechConference) == RegistrationClosed
    ensures CheckWindow(Jan10_2026 * MsPerDay + 12 * MsPerHour, TechConference) == RegistrationNotOpen
    ensures CheckWindow(Jan20_2026 * MsPerDay + 12 * MsPerHour, TechConference) == Open
  {
  }
}
