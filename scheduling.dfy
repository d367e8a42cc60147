/** Working-hours and weekend arithmetic of the send scheduler, and the
    pool of sending domains (services/api/shared/scheduling.py).

    Time is wall-clock time in the operating timezone, counted in
    milliseconds from a Monday 00:00 local; the zone has a fixed offset
    (no daylight-saving folds). Day numbers count whole days from that
    Monday, so `DayNumber(t) % 7` is Python's `weekday()` (Monday = 0). */
module Scheduling {
  import opened Wrappers

  type Time = int

  const SECOND: int := 1000
  const MINUTE: int := 60000
  const HOUR: int := 3600000
  const DAY: int := 86400000

  function DayNumber(t: Time): int { t / DAY }

  /** Python's `weekday()`: Monday = 0 … Sunday = 6. */
  function Weekday(t: Time): int { DayNumber(t) % 7 }

  function HourOf(t: Time): int { (t % DAY) / HOUR }

  predicate IsWeekend(t: Time) { Weekday(t) >= 5 }

  /** The instant `hour`:00:00 on day number `day`. */
  function AtHour(day: int, hour: int): Time { day * DAY + hour * HOUR }

  /** A time inside the sending window: Monday to Friday, from the start
      hour (inclusive) to the end hour (exclusive). */
  predicate InWindow(t: Time, startHour: int, endHour: int) {
    !IsWeekend(t) && startHour <= HourOf(t) < endHour
  }

  lemma AtHourParts(day: int, hour: int)
    requires 0 <= hour < 24
    ensures DayNumber(AtHour(day, hour)) == day
    ensures HourOf(AtHour(day, hour)) == hour
    ensures AtHour(day, hour) % HOUR == 0
  {
    var t := AtHour(day, hour);
    assert t == day * DAY + hour * HOUR;
    assert 0 <= hour * HOUR < DAY;
  }

  /** Every time lies between the start of its day and the start of the next,
      and its hour says which hour-long slice of the day it lies in. */
  lemma TimeParts(t: Time)
    ensures AtHour(DayNumber(t), 0) <= t < AtHour(DayNumber(t) + 1, 0)
    ensures AtHour(DayNumber(t), HourOf(t)) <= t < AtHour(DayNumber(t), HourOf(t) + 1)
    ensures 0 <= HourOf(t) < 24
  {
  }

  // ---------------------------------------------------------------------
  // Sending domains

  const BASE_DOMAINS: seq<string> := [
    "connect-ozlistings.com",
    "engage-ozlistings.com",
    "get-ozlistings.com",
    "join-ozlistings.com",
    "outreach-ozlistings.com",
    "ozlistings-reach.com",
    "reach-ozlistings.com",
    "access-ozlistings.com",
    "contact-ozlistings.com",
    "direct-ozlistings.com",
    "grow-ozlistings.com",
    "growth-ozlistings.com",
    "link-ozlistings.com",
    "network-ozlistings.com",
    "ozlistings-access.com",
    "ozlistings-connect.com",
    "ozlistings-contact.com",
    "ozlistings-direct.com",
    "ozlistings-engage.com",
    "ozlistings-get.com",
    "ozlistings-grow.com",
    "ozlistings-join.com",
    "ozlistings-link.com",
    "ozlistings-network.com",
    "ozlistings-outreach.com",
    "ozlistings-team.com",
    "ozlistngs-growth.com",
    "team-ozlistings.com"
  ]

  /** The pool holds 28 pairwise different domains. */
  lemma BaseDomainsDistinct()
    ensures |BASE_DOMAINS| == 28
    ensures forall i, j :: 0 <= i < j < |BASE_DOMAINS| ==> BASE_DOMAINS[i] != BASE_DOMAINS[j]
  {
  }

  datatype DomainConfig = DomainConfig(domain: string, senderLocal: string, displayName: string)

  const TODD_SENDER: string := "todd_vitzthum"

  /** One entry per pool domain, in pool order, all under the sender's
      identity: Todd's for exactly "todd_vitzthum", Jeff's for anything else. */
  function GenerateDomainConfig(sender: string): (r: seq<DomainConfig>)
    ensures |r| == |BASE_DOMAINS|
    ensures forall i :: 0 <= i < |r| ==> r[i].domain == BASE_DOMAINS[i]
    ensures forall i :: 0 <= i < |r| ==>
      if sender == TODD_SENDER
      then r[i].senderLocal == "todd.vitzthum" && r[i].displayName == "Todd Vitzthum"
      else r[i].senderLocal == "jeff.richmond" && r[i].displayName == "Jeff Richmond"
  {
    var local := if sender == TODD_SENDER then "todd.vitzthum" else "jeff.richmond";
    var display := if sender == TODD_SENDER then "Todd Vitzthum" else "Jeff Richmond";
    seq(|BASE_DOMAINS|, i requires 0 <= i < |BASE_DOMAINS| => DomainConfig(BASE_DOMAINS[i], local, display))
  }

  /** The `From` header built for a domain: `Display <local@domain>`. */
  function FromAddress(c: DomainConfig): string {
    c.displayName + " <" + c.senderLocal + "@" + c.domain + ">"
  }

  /** Python's `xs[i]`: negative indices count from the end; anything else
      outside the list raises `IndexError` (None here). */
  function PyIndex<T>(xs: seq<T>, i: int): (r: Option<T>)
    ensures r.Some? <==> -|xs| <= i < |xs|
    ensures r.Some? ==> r.value in xs
  {
    if 0 <= i < |xs| then Some(xs[i])
    else if -|xs| <= i < 0 then Some(xs[|xs| + i])
    else None
  }

  // ---------------------------------------------------------------------
  // next_weekday_start

  /** Extra days the weekend loop adds when the day after lands on `day`. */
  function WeekendDays(day: int): nat {
    if day % 7 == 5 then 2 else if day % 7 == 6 then 1 else 0
  }

  /** The start hour on the first day after `t`'s day; with `skipWeekends`
      the first such day that is Monday to Friday. */
  function NextWeekdayStart(t: Time, startHour: int, skipWeekends: bool): Time
    requires 0 <= startHour < 24
  {
    var next := DayNumber(t) + 1;
    AtHour(next + (if skipWeekends then WeekendDays(next) else 0), startHour)
  }

  /** The loop of the source: midnight of the next day, advanced one day at
      a time while it is a Saturday or Sunday. */
  method NextWeekdayStartLoop(t: Time, startHour: int, skipWeekends: bool) returns (r: Time)
    requires 0 <= startHour < 24
    ensures r == NextWeekdayStart(t, startHour, skipWeekends)
  {
    ghost var first := DayNumber(t) + 1;
    var nextDay := AtHour(DayNumber(t), 0) + DAY;
    AtHourParts(first, 0);
    if skipWeekends {
      while IsWeekend(nextDay)
        invariant nextDay == AtHour(DayNumber(nextDay), 0)
        invariant first <= DayNumber(nextDay) <= first + WeekendDays(first)
        decreases first + WeekendDays(first) - DayNumber(nextDay)
      {
        AtHourParts(DayNumber(nextDay) + 1, 0);
        nextDay := nextDay + DAY;
      }
    }
    r := nextDay + startHour * HOUR;
  }

  /** The result is the start hour, on the next day or (with weekends
      skipped) on the next Monday-to-Friday day, at most two days further. */
  lemma NextWeekdayStartShape(t: Time, startHour: int, skipWeekends: bool)
    requires 0 <= startHour < 24
    ensures var r := NextWeekdayStart(t, startHour, skipWeekends);
      && HourOf(r) == startHour && r % HOUR == 0
      && r == AtHour(DayNumber(r), startHour)
      && t < r
      && DayNumber(t) < DayNumber(r) <= DayNumber(t) + (if skipWeekends then 3 else 1)
      && (!skipWeekends ==> DayNumber(r) == DayNumber(t) + 1)
      && (skipWeekends ==> !IsWeekend(r))
      && (skipWeekends ==> forall d :: DayNumber(t) < d < DayNumber(r) ==> d % 7 >= 5)
      && (skipWeekends && Weekday(t) >= 4 ==> Weekday(r) == 0)
  {
    var next := DayNumber(t) + 1;
    var day := next + (if skipWeekends then WeekendDays(next) else 0);
    AtHourParts(day, startHour);
    TimeParts(t);
  }

  // ---------------------------------------------------------------------
  // get_start_time_in_timezone, with the clock reading passed in

  function GetStartTimeInTimezone(now: Time, startHour: int, endHour: int, skipWeekends: bool): Time
    requires 0 <= startHour < 24
  {
    if skipWeekends && IsWeekend(now) then NextWeekdayStart(now, startHour, skipWeekends)
    else if HourOf(now) < startHour then AtHour(DayNumber(now), startHour)
    else if HourOf(now) >= endHour then NextWeekdayStart(now, startHour, skipWeekends)
    else now - now % SECOND
  }

  /** Inside the window the start time is "now" cut to whole seconds;
      otherwise it is a later start of the window. Either way it lies in the
      window and is not before "now" cut to whole seconds. */
  lemma StartTimeInWindow(now: Time, startHour: int, endHour: int)
    requires 0 <= startHour < endHour < 24
    ensures var r := GetStartTimeInTimezone(now, startHour, endHour, true);
      && InWindow(r, startHour, endHour)
      && r >= now - now % SECOND
      && (InWindow(now, startHour, endHour) ==> r == now - now % SECOND)
      && (!InWindow(now, startHour, endHour) ==> r > now && r % HOUR == 0 && HourOf(r) == startHour)
  {
    if IsWeekend(now) || HourOf(now) >= endHour {
      NextStartInWindow(now, startHour, endHour);
    } else if HourOf(now) < startHour {
      LaterTodayInWindow(now, startHour, endHour);
    } else {
      CutToSecond(now);
    }
  }

  /** Cutting to whole seconds stays in the same day and hour. */
  lemma CutToSecond(now: Time)
    ensures var c := now - now % SECOND;
      c <= now && DayNumber(c) == DayNumber(now) && HourOf(c) == HourOf(now)
  {
    var d := now / DAY;
    var m := now % DAY;
    var q := m / SECOND;
    var r := m % SECOND;
    assert now == d * DAY + q * SECOND + r;
    assert now % SECOND == r;
    var c := now - r;
    assert c == d * DAY + q * SECOND && 0 <= q * SECOND < DAY;
    assert c / DAY == d && c % DAY == q * SECOND;
    var h := q / 3600;
    var e := q % 3600;
    assert q * SECOND == h * HOUR + e * SECOND && 0 <= e * SECOND + r < HOUR;
    assert (q * SECOND) / HOUR == h;
    assert m == h * HOUR + (e * SECOND + r);
    assert m / HOUR == h;
  }

  lemma NextStartInWindow(now: Time, startHour: int, endHour: int)
    requires 0 <= startHour < endHour < 24
    ensures var r := NextWeekdayStart(now, startHour, true);
      InWindow(r, startHour, endHour) && r > now && r % HOUR == 0 && HourOf(r) == startHour
  {
    NextWeekdayStartShape(now, startHour, true);
  }

  lemma LaterTodayInWindow(now: Time, startHour: int, endHour: int)
    requires 0 <= startHour < endHour < 24
    requires !IsWeekend(now) && HourOf(now) < startHour
    ensures var r := AtHour(DayNumber(now), startHour);
      InWindow(r, startHour, endHour) && r > now && r % HOUR == 0 && HourOf(r) == startHour
  {
    AtHourParts(DayNumber(now), startHour);
    TimeParts(now);
  }

  // ---------------------------------------------------------------------
  // adjust_to_working_hours

  function AdjustToWorkingHours(candidate: Time, endHour: int, startHour: int, skipWeekends: bool): Time
    requires 0 <= startHour < 24 && 0 <= endHour < 24
  {
    if skipWeekends && IsWeekend(candidate) then NextWeekdayStart(candidate, startHour, skipWeekends)
    else if candidate >= AtHour(DayNumber(candidate), endHour) then NextWeekdayStart(candidate, startHour, skipWeekends)
    else candidate
  }

  /** The candidate is kept exactly when it is not a skipped weekend day and
      is before the end hour (early-morning times included); otherwise it
      moves strictly later, to a start of the window. */
  lemma AdjustKeepsIff(c: Time, endHour: int, startHour: int, skipWeekends: bool)
    requires 0 <= startHour < 24 && 0 <= endHour < 24
    ensures var r := AdjustToWorkingHours(c, endHour, startHour, skipWeekends);
      && r >= c
      && (r == c <==> !(skipWeekends && IsWeekend(c)) && HourOf(c) < endHour)
      && (r != c ==> r == NextWeekdayStart(c, startHour, skipWeekends))
  {
    NextWeekdayStartShape(c, startHour, skipWeekends);
    AtHourParts(DayNumber(c), endHour);
    TimeParts(c);
  }

  /** With weekends skipped and a non-empty window, the result is a Monday to
      Friday time before the end hour, and adjusting it again changes nothing. */
  lemma AdjustLandsBeforeEnd(c: Time, endHour: int, startHour: int)
    requires 0 <= startHour < endHour < 24
    ensures var r := AdjustToWorkingHours(c, endHour, startHour, true);
      && !IsWeekend(r) && HourOf(r) < endHour
      && AdjustToWorkingHours(r, endHour, startHour, true) == r
  {
    var r := AdjustToWorkingHours(c, endHour, startHour, true);
    AdjustKeepsIff(c, endHour, startHour, true);
    NextWeekdayStartShape(c, startHour, true);
    AdjustKeepsIff(r, endHour, startHour, true);
  }

  /** A time in the window, pushed later by less than what is left of its
      day after the end hour, is adjusted to a time in the window again. */
  lemma AdjustStaysInWindow(p: Time, delta: int, endHour: int, startHour: int)
    requires 0 <= startHour < endHour < 24
    requires InWindow(p, startHour, endHour)
    requires 0 <= delta <= (24 - endHour) * HOUR
    ensures InWindow(AdjustToWorkingHours(p + delta, endHour, startHour, true), startHour, endHour)
  {
    var c := p + delta;
    TimeParts(p);
    TimeParts(c);
    AtHourParts(DayNumber(p), endHour);
    AtHourParts(DayNumber(p) + 1, 0);
    assert DayNumber(c) == DayNumber(p);
    AdjustKeepsIff(c, endHour, startHour, true);
    NextWeekdayStartShape(c, startHour, true);
  }
}
