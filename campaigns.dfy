/** The campaign lifecycle rules of the campaigns router
    (services/api/routers/campaigns.py): the on-demand completion check
    with its optimistic lock, the daily capacity of the seven-day schedule,
    the validation of a new campaign, the status guards of the generate,
    launch and retry routes, and the draft reset of the update route. */
module Campaigns {
  import opened Wrappers
  import opened Text
  import opened Scheduling
  import opened QueueStore
  import opened CampaignStore
  import opened Launch
  import opened Http

  // ---------------------------------------------------------------------
  // Completion

  /** How many rows of the campaign are in `status` (a `count="exact"`
      query). */
  function CountStatus(rows: map<int, QueueRow>, campaignId: string, status: Status): nat {
    |set id | id in rows && Matches(rows[id], campaignId, status)|
  }

  /** A queued or processing row of the campaign scheduled after `now`; a
      null time never compares greater. */
  predicate HasFutureRow(rows: map<int, QueueRow>, campaignId: string, now: Time) {
    exists id :: id in rows && rows[id].campaignId == campaignId && rows[id].status in {Queued, Processing}
      && rows[id].scheduledFor.Some? && rows[id].scheduledFor.value > now
  }

  /** The four conditions of `is_completed`. */
  predicate IsCompleted(rows: map<int, QueueRow>, campaignId: string, now: Time) {
    && CountStatus(rows, campaignId, Queued) == 0
    && CountStatus(rows, campaignId, Processing) == 0
    && CountStatus(rows, campaignId, Sent) + CountStatus(rows, campaignId, Failed) > 0
    && !HasFutureRow(rows, campaignId, now)
  }

  /** Only a campaign that is scheduled or sending is checked. */
  predicate Checkable(status: string) {
    status == SCHEDULED || status == SENDING
  }

  /** check_and_update_completed_campaign. `storeUp` false stands for a
      store call that raises; `racing` is a status another request stores
      between the read and the conditional update. */
  method CheckAndUpdateCompletedCampaign(camps: CampaignTable, rows: map<int, QueueRow>, campaignId: string,
                                         now: Time, storeUp: bool, racing: Option<string>)
    returns (updated: bool)
    modifies camps
    ensures updated <==>
      && storeUp && campaignId in old(camps.campaigns)
      && Checkable(old(camps.campaigns)[campaignId].status)
      && IsCompleted(rows, campaignId, now)
      && (racing.None? || racing.value == old(camps.campaigns)[campaignId].status)
    ensures updated ==>
      camps.campaigns == old(camps.campaigns)[campaignId := old(camps.campaigns)[campaignId].(status := COMPLETED)]
    ensures !updated && (racing.None? || !storeUp || campaignId !in old(camps.campaigns)
                         || !Checkable(old(camps.campaigns)[campaignId].status)
                         || !IsCompleted(rows, campaignId, now)) ==>
      camps.campaigns == old(camps.campaigns)
    ensures !updated && !(racing.None? || !storeUp || campaignId !in old(camps.campaigns)
                          || !Checkable(old(camps.campaigns)[campaignId].status)
                          || !IsCompleted(rows, campaignId, now)) ==>
      camps.campaigns == old(camps.campaigns)[campaignId := old(camps.campaigns)[campaignId].(status := racing.value)]
  {
    if !storeUp || campaignId !in camps.campaigns {
      return false;
    }
    var status := camps.campaigns[campaignId].status;
    if !Checkable(status) {
      return false;
    }
    var queued := CountStatus(rows, campaignId, Queued);
    var processing := CountStatus(rows, campaignId, Processing);
    var sent := CountStatus(rows, campaignId, Sent);
    var failed := CountStatus(rows, campaignId, Failed);
    var future := HasFutureRow(rows, campaignId, now);
    if queued == 0 && processing == 0 && sent + failed > 0 && !future {
      if racing.Some? {
        camps.campaigns := camps.campaigns[campaignId := camps.campaigns[campaignId].(status := racing.value)];
      }
      updated := CompleteIfStill(camps, campaignId, status);
      return updated;
    }
    return false;
  }

  /** The optimistic lock: `update(...).eq("id", id).eq("status", expected)`
      changes the row only while its status is still `expected`, and says
      whether it did. */
  method CompleteIfStill(camps: CampaignTable, campaignId: string, expected: string) returns (changed: bool)
    modifies camps
    ensures changed <==> campaignId in old(camps.campaigns) && old(camps.campaigns)[campaignId].status == expected
    ensures changed ==>
      camps.campaigns == old(camps.campaigns)[campaignId := old(camps.campaigns)[campaignId].(status := COMPLETED)]
    ensures !changed ==> camps.campaigns == old(camps.campaigns)
  {
    if campaignId in camps.campaigns && camps.campaigns[campaignId].status == expected {
      camps.campaigns := camps.campaigns[campaignId := camps.campaigns[campaignId].(status := COMPLETED)];
      return true;
    }
    return false;
  }

  lemma CountZeroNone(rows: map<int, QueueRow>, campaignId: string, status: Status)
    ensures CountStatus(rows, campaignId, status) == 0 <==>
      forall id :: id in rows ==> !Matches(rows[id], campaignId, status)
  {
    var s := set id | id in rows && Matches(rows[id], campaignId, status);
    if exists id :: id in rows && Matches(rows[id], campaignId, status) {
      var id :| id in rows && Matches(rows[id], campaignId, status);
      assert id in s;
    }
  }

  /** The future-row condition adds nothing: with no queued and no
      processing row there is no row that could be scheduled later. */
  lemma FutureCheckIsImplied(rows: map<int, QueueRow>, campaignId: string, now: Time)
    requires CountStatus(rows, campaignId, Queued) == 0 && CountStatus(rows, campaignId, Processing) == 0
    ensures !HasFutureRow(rows, campaignId, now)
  {
    CountZeroNone(rows, campaignId, Queued);
    CountZeroNone(rows, campaignId, Processing);
  }

  /** A campaign is complete exactly when none of its rows is queued or
      processing and at least one is sent or failed; staged rows do not
      keep it open. */
  lemma CompletedIff(rows: map<int, QueueRow>, campaignId: string, now: Time)
    ensures IsCompleted(rows, campaignId, now) <==>
      && (forall id :: id in rows && rows[id].campaignId == campaignId ==> rows[id].status !in {Queued, Processing})
      && (exists id :: id in rows && rows[id].campaignId == campaignId && rows[id].status in {Sent, Failed})
  {
    CountZeroNone(rows, campaignId, Queued);
    CountZeroNone(rows, campaignId, Processing);
    CountZeroNone(rows, campaignId, Sent);
    CountZeroNone(rows, campaignId, Failed);
    if CountStatus(rows, campaignId, Queued) == 0 && CountStatus(rows, campaignId, Processing) == 0 {
      FutureCheckIsImplied(rows, campaignId, now);
    }
    if exists id :: id in rows && rows[id].campaignId == campaignId && rows[id].status in {Sent, Failed} {
      var id :| id in rows && rows[id].campaignId == campaignId && rows[id].status in {Sent, Failed};
      assert Matches(rows[id], campaignId, Sent) || Matches(rows[id], campaignId, Failed);
    }
  }

  // ---------------------------------------------------------------------
  // Daily capacity

  const DAYS_TO_SHOW: nat := 7
  const WORKING_HOURS: int := WORKING_HOUR_END - WORKING_HOUR_START

  /** `int(hours * 60 / INTERVAL_MINUTES * len(BASE_DOMAINS))`, with the
      interval in milliseconds. */
  function CapacityFor(hours: nat): int {
    hours * HOUR * |BASE_DOMAINS| / INTERVAL_MS
  }

  const MAX_DAILY_CAPACITY: int := CapacityFor(WORKING_HOURS as nat)

  /** Each domain sends one email per 3.5 minutes, so an hour of the
      28-domain pool carries 480 emails and a full day 3840. */
  lemma CapacityPerHour(hours: nat)
    ensures CapacityFor(hours) == 480 * hours
  {
    BaseDomainsDistinct();
    assert hours * HOUR * |BASE_DOMAINS| == (480 * hours) * INTERVAL_MS;
  }

  /** The capacity of the day `offset` days from today at the current
      hour, and the working hours it is computed from. */
  function DayCapacity(offset: nat, hour: int): (int, Option<int>) {
    if offset != 0 then (MAX_DAILY_CAPACITY, None)
    else if hour < WORKING_HOUR_START then (MAX_DAILY_CAPACITY, Some(WORKING_HOURS))
    else if hour >= WORKING_HOUR_END then (0, Some(0))
    else (CapacityFor((WORKING_HOUR_END - hour) as nat), Some(WORKING_HOUR_END - hour))
  }

  function Remaining(capacity: int, used: int): int {
    if capacity - used > 0 then capacity - used else 0
  }

  /** A day never offers more than a full day, today before the start
      hour offers the full day, today from the end hour nothing, and in
      between the capacity of the hours left. */
  lemma CapacityRules(offset: nat, hour: int)
    requires 0 <= hour < 24
    ensures MAX_DAILY_CAPACITY == 3840
    ensures 0 <= DayCapacity(offset, hour).0 <= MAX_DAILY_CAPACITY
    ensures offset != 0 || hour < WORKING_HOUR_START ==> DayCapacity(offset, hour).0 == MAX_DAILY_CAPACITY
    ensures offset == 0 && hour >= WORKING_HOUR_END ==> DayCapacity(offset, hour).0 == 0
    ensures offset == 0 && WORKING_HOUR_START <= hour < WORKING_HOUR_END ==>
      DayCapacity(offset, hour).0 == 480 * (WORKING_HOUR_END - hour)
  {
    CapacityPerHour(WORKING_HOURS as nat);
    if offset == 0 && WORKING_HOUR_START <= hour < WORKING_HOUR_END {
      CapacityPerHour((WORKING_HOUR_END - hour) as nat);
    }
  }

  /** Today's capacity shrinks as the day goes on. */
  lemma CapacityShrinks(h1: int, h2: int)
    requires 0 <= h1 <= h2 < 24
    ensures DayCapacity(0, h2).0 <= DayCapacity(0, h1).0
  {
    CapacityRules(0, h1);
    CapacityRules(0, h2);
  }

  /** What is left is never negative and never more than the capacity,
      and it is exactly the unused part while some is unused. */
  lemma RemainingBounds(capacity: int, used: nat)
    requires capacity >= 0
    ensures 0 <= Remaining(capacity, used) <= capacity
    ensures used <= capacity ==> Remaining(capacity, used) == capacity - used
    ensures used >= capacity ==> Remaining(capacity, used) == 0
  {
  }

  // ---------------------------------------------------------------------
  // The seven-day schedule

  const DAY_NAMES: seq<string> := ["Sun", "Mon", "Tue", "Wed", "Thu", "Fri", "Sat"]

  /** The day's name as the router writes it: `day_names[weekday()]`. */
  function DayOfWeekLabel(t: Time): string {
    DAY_NAMES[Weekday(t)]
  }

  /** The English name of the weekday, for comparison. */
  const WEEKDAY_NAMES: seq<string> := ["Mon", "Tue", "Wed", "Thu", "Fri", "Sat", "Sun"]

  /** Python's `weekday()` counts from Monday while the list starts at
      Sunday, so every day carries the name of the day before it: a Monday
      is labelled "Sun". */
  lemma LabelNamesThePreviousDay(t: Time)
    ensures DayOfWeekLabel(t) == WEEKDAY_NAMES[Weekday(t - DAY)]
    ensures Weekday(t) == 0 ==> DayOfWeekLabel(t) == "Sun"
  {
    assert DayNumber(t - DAY) == DayNumber(t) - 1;
  }

  /** The label the list was evidently meant to give: Sunday-first names
      indexed by `(weekday() + 1) % 7`. */
  function IntendedDayOfWeekLabel(t: Time): string {
    DAY_NAMES[(Weekday(t) + 1) % 7]
  }

  /** The corrected label names the day itself. */
  lemma IntendedLabelNamesTheDay(t: Time)
    ensures IntendedDayOfWeekLabel(t) == WEEKDAY_NAMES[Weekday(t)]
    ensures IntendedDayOfWeekLabel(t) != DayOfWeekLabel(t)
  {
  }

  /** One entry of the schedule. The date string is not part of the
      model. */
  datatype DaySummary = DaySummary(
    dayLabel: string,
    dayOfWeek: string,
    queued: nat,
    sent: nat,
    capacity: int,
    remaining: int,
    remainingHours: Option<int>,
    isToday: bool)

  /** Rows in `status` whose time (scheduled or sent) lies in `[lo, hi)`,
      over all campaigns. */
  function CountBetween(rows: map<int, QueueRow>, status: Status, sentTime: bool, lo: Time, hi: Time): nat {
    |set id | id in rows && rows[id].status == status
      && (if sentTime then rows[id].sentAt else rows[id].scheduledFor).Some?
      && lo <= (if sentTime then rows[id].sentAt else rows[id].scheduledFor).value < hi|
  }

  /** The entry of the day `offset` days from `now`; `monthDay` is the
      day of the month, which the calendar supplies. The day runs from
      00:00:00 to the exclusive bound 23:59:59. The weekday name is the
      router's `day_names[weekday()]`. */
  function DayEntry(rows: map<int, QueueRow>, now: Time, offset: nat, monthDay: int): DaySummary {
    var dayStart := AtHour(DayNumber(now) + offset, 0);
    var dayEnd := dayStart + DAY - SECOND;
    var queued := CountBetween(rows, Queued, false, dayStart, dayEnd);
    var sent := if offset == 0 then CountBetween(rows, Sent, true, dayStart, dayEnd) else 0;
    var cap := DayCapacity(offset, HourOf(now));
    var dayOfWeek := DayOfWeekLabel(dayStart);
    var dayLabel := if offset == 0 then "Today" else if offset == 1 then "Tomorrow"
                 else dayOfWeek + " " + IntToString(monthDay);
    var used := if offset == 0 then sent + queued else queued;
    DaySummary(dayLabel, dayOfWeek, queued, sent, cap.0, Remaining(cap.0, used), cap.1, offset == 0)
  }

  /** _build_week_schedule: one entry per day, today first. */
  method BuildWeekSchedule(rows: map<int, QueueRow>, now: Time, monthDays: seq<int>) returns (week: seq<DaySummary>)
    requires |monthDays| == DAYS_TO_SHOW
    ensures |week| == DAYS_TO_SHOW
    ensures forall k :: 0 <= k < |week| ==> week[k] == DayEntry(rows, now, k, monthDays[k])
    ensures forall k :: 0 <= k < |week| ==> week[k].dayOfWeek == DayOfWeekLabel(AtHour(DayNumber(now) + k, 0))
  {
    week := [];
    var offset := 0;
    while offset < DAYS_TO_SHOW
      invariant 0 <= offset <= DAYS_TO_SHOW && |week| == offset
      invariant forall k :: 0 <= k < offset ==> week[k] == DayEntry(rows, now, k, monthDays[k])
    {
      week := week + [DayEntry(rows, now, offset, monthDays[offset])];
      offset := offset + 1;
    }
    WeekNamesItsDays(rows, now, monthDays, week);
  }

  /** The entry's name is the router's label of its own day. */
  lemma EntryDayOfWeek(rows: map<int, QueueRow>, now: Time, offset: nat, monthDay: int)
    ensures DayEntry(rows, now, offset, monthDay).dayOfWeek == DayOfWeekLabel(AtHour(DayNumber(now) + offset, 0))
  {
  }

  /** Each entry of a week built from `now` carries the label of its own day. */
  lemma WeekNamesItsDays(rows: map<int, QueueRow>, now: Time, monthDays: seq<int>, week: seq<DaySummary>)
    requires |week| <= |monthDays|
    requires forall k :: 0 <= k < |week| ==> week[k] == DayEntry(rows, now, k, monthDays[k])
    ensures forall k :: 0 <= k < |week| ==> week[k].dayOfWeek == DayOfWeekLabel(AtHour(DayNumber(now) + k, 0))
  {
    forall k | 0 <= k < |week|
      ensures week[k].dayOfWeek == DayOfWeekLabel(AtHour(DayNumber(now) + k, 0))
    {
      EntryDayOfWeek(rows, now, k, monthDays[k]);
    }
  }

  /** Every entry's remaining capacity lies between 0 and its capacity,
      which is at most a full day; only the first entry is today, and only
      today counts sent emails. */
  lemma WeekEntryBounds(rows: map<int, QueueRow>, now: Time, offset: nat, monthDay: int)
    ensures var e := DayEntry(rows, now, offset, monthDay);
      && 0 <= e.remaining <= e.capacity <= MAX_DAILY_CAPACITY
      && (e.isToday <==> offset == 0)
      && (offset != 0 ==> e.sent == 0 && e.capacity == MAX_DAILY_CAPACITY && e.remainingHours.None?)
      && e.remaining == Remaining(e.capacity, if offset == 0 then e.sent + e.queued else e.queued)
  {
    TimeParts(now);
    CapacityRules(offset, HourOf(now));
  }

  /** The labels of an entry: "Today", "Tomorrow", then the weekday name
      and the day of the month. As written, the name is that of the day
      before the entry's day. */
  lemma WeekEntryLabels(rows: map<int, QueueRow>, now: Time, offset: nat, monthDay: int)
    ensures var e := DayEntry(rows, now, offset, monthDay);
      && e.dayOfWeek == DayOfWeekLabel(AtHour(DayNumber(now) + offset, 0))
      && e.dayOfWeek == WEEKDAY_NAMES[(Weekday(now) + offset + 6) % 7]
      && (offset == 0 ==> e.dayLabel == "Today")
      && (offset == 1 ==> e.dayLabel == "Tomorrow")
      && (offset >= 2 ==> e.dayLabel == e.dayOfWeek + " " + IntToString(monthDay))
  {
    EntryDayOfWeek(rows, now, offset, monthDay);
    WeekdayAhead(now, offset);
  }

  /** The weekday `offset` days after `now`'s day. */
  lemma WeekdayAhead(now: Time, offset: nat)
    ensures Weekday(AtHour(DayNumber(now) + offset, 0)) == (Weekday(now) + offset) % 7
  {
    assert DayNumber(AtHour(DayNumber(now) + offset, 0)) == DayNumber(now) + offset;
  }

  // ---------------------------------------------------------------------
  // Creating a campaign

  const MAX_CAMPAIGN_NAME_LENGTH: nat := 25
  const SENDERS: seq<string> := ["todd_vitzthum", "jeff_richmond"]

  const NAME_TOO_LONG: HttpError := HttpError(400, "Campaign name must be 25 characters or less")

  /** The checks of create_campaign, in order. */
  function ValidateCreate(name: string, sender: string): (r: Option<HttpError>)
    ensures r.None? <==> |name| <= MAX_CAMPAIGN_NAME_LENGTH && sender in SENDERS
    ensures |name| > MAX_CAMPAIGN_NAME_LENGTH ==> r == Some(NAME_TOO_LONG)
    ensures |name| <= MAX_CAMPAIGN_NAME_LENGTH && sender !in SENDERS ==>
      r == Some(HttpError(400, "Valid sender is required"))
  {
    if |name| > MAX_CAMPAIGN_NAME_LENGTH then Some(NAME_TOO_LONG)
    else if sender !in SENDERS then Some(HttpError(400, "Valid sender is required"))
    else None
  }

  /** create_campaign: the store assigns `newId`; `storeOk` false stands
      for an insert that returns no row. */
  method CreateCampaign(camps: CampaignTable, newId: string, name: string, sender: string, subjectContent: string,
                        storeOk: bool)
    returns (r: Result<Campaign, HttpError>)
    requires newId !in camps.campaigns
    modifies camps
    ensures ValidateCreate(name, sender).Some? ==>
      r == Err(ValidateCreate(name, sender).value) && camps.campaigns == old(camps.campaigns)
    ensures ValidateCreate(name, sender).None? && !storeOk ==>
      r == Err(HttpError(500, "Failed to create campaign")) && camps.campaigns == old(camps.campaigns)
    ensures ValidateCreate(name, sender).None? && storeOk ==>
      && r == Ok(Campaign(name, Some(sender), DRAFT, 0, subjectContent))
      && camps.campaigns == old(camps.campaigns)[newId := r.value]
  {
    var invalid := ValidateCreate(name, sender);
    if invalid.Some? {
      return Err(invalid.value);
    }
    if !storeOk {
      return Err(HttpError(500, "Failed to create campaign"));
    }
    var c := Campaign(name, Some(sender), DRAFT, 0, subjectContent);
    camps.campaigns := camps.campaigns[newId := c];
    return Ok(c);
  }

  // ---------------------------------------------------------------------
  // Route guards

  /** generate_emails: the campaign must exist and be draft or staged. */
  function GenerateGuard(c: Option<Campaign>): (r: Option<HttpError>)
    ensures c.None? ==> r == Some(CAMPAIGN_NOT_FOUND)
    ensures c.Some? ==> (r.None? <==> c.value.status in {DRAFT, STAGED})
    ensures c.Some? && r.Some? ==> r.value == HttpError(400, "Campaign must be draft or staged")
  {
    if c.None? then Some(CAMPAIGN_NOT_FOUND)
    else if c.value.status != DRAFT && c.value.status != STAGED then Some(HttpError(400, "Campaign must be draft or staged"))
    else None
  }

  /** launch_campaign: the campaign must exist and be staged or draft. */
  function LaunchGuard(c: Option<Campaign>): (r: Option<HttpError>)
    ensures c.None? ==> r == Some(CAMPAIGN_NOT_FOUND)
    ensures c.Some? ==> (r.None? <==> c.value.status in {DRAFT, STAGED})
    ensures c.Some? && r.Some? ==> r.value == HttpError(400, "Campaign must be in staged or draft status to launch")
  {
    if c.None? then Some(CAMPAIGN_NOT_FOUND)
    else if c.value.status != STAGED && c.value.status != DRAFT then
      Some(HttpError(400, "Campaign must be in staged or draft status to launch"))
    else None
  }

  /** retry_failed: only existence is checked, whatever the status. */
  function RetryGuard(c: Option<Campaign>): (r: Option<HttpError>)
    ensures r.None? <==> c.Some?
    ensures r.Some? ==> r.value == CAMPAIGN_NOT_FOUND
  {
    if c.None? then Some(CAMPAIGN_NOT_FOUND) else None
  }

  /** The two guards admit the same campaigns; a launched campaign
      (scheduled, sending, completed or paused) can be neither relaunched
      nor regenerated, but its failed rows can still be retried. */
  lemma GuardsAgree(c: Campaign)
    ensures GenerateGuard(Some(c)).None? <==> LaunchGuard(Some(c)).None?
    ensures c.status in {SCHEDULED, SENDING, COMPLETED, PAUSED} ==>
      LaunchGuard(Some(c)).Some? && LaunchGuard(Some(c)).value.status == 400
      && GenerateGuard(Some(c)).Some? && RetryGuard(Some(c)).None?
  {
  }

  // ---------------------------------------------------------------------
  // Updating a campaign

  /** The fields of an update request that the model keeps; None is a
      field the request leaves out. */
  datatype CampaignUpdate = CampaignUpdate(name: Option<string>, status: Option<string>, subjectContent: Option<string>)

  /** The campaign with the request's fields written over it; setting the
      status to draft also resets the recipient count. */
  function Applied(c: Campaign, u: CampaignUpdate): (r: Campaign)
    ensures r.sender == c.sender
    ensures r.name == (if u.name.Some? then u.name.value else c.name)
    ensures r.status == (if u.status.Some? then u.status.value else c.status)
    ensures r.subjectContent == (if u.subjectContent.Some? then u.subjectContent.value else c.subjectContent)
    ensures r.totalRecipients == (if u.status == Some(DRAFT) then 0 else c.totalRecipients)
  {
    var c1 := if u.name.Some? then c.(name := u.name.value) else c;
    var c2 := if u.subjectContent.Some? then c1.(subjectContent := u.subjectContent.value) else c1;
    if u.status.Some? then
      var c3 := c2.(status := u.status.value);
      if u.status.value == DRAFT then c3.(totalRecipients := 0) else c3
    else c2
  }

  /** update_campaign. The name check skips an empty name; the staged rows
      are deleted before the campaign is looked up, so an unknown id still
      loses its staged rows before the 404. */
  method UpdateCampaign(camps: CampaignTable, q: EmailQueue, campaignId: string, u: CampaignUpdate)
    returns (r: Result<Campaign, HttpError>)
    requires q.Valid()
    modifies camps, q
    ensures q.Valid()
    ensures u.name.Some? && |u.name.value| > MAX_CAMPAIGN_NAME_LENGTH ==>
      && r == Err(NAME_TOO_LONG)
      && camps.campaigns == old(camps.campaigns) && q.rows == old(q.rows) && q.order == old(q.order)
    ensures !(u.name.Some? && |u.name.value| > MAX_CAMPAIGN_NAME_LENGTH) ==>
      && q.rows == (if u.status == Some(DRAFT) then RowsWithout(old(q.rows), campaignId, Staged) else old(q.rows))
      && (campaignId !in old(camps.campaigns) ==>
            r == Err(CAMPAIGN_NOT_FOUND) && camps.campaigns == old(camps.campaigns))
      && (campaignId in old(camps.campaigns) ==>
            && r == Ok(Applied(old(camps.campaigns)[campaignId], u))
            && camps.campaigns == old(camps.campaigns)[campaignId := r.value])
  {
    if u.name.Some? && u.name.value != [] && |u.name.value| > MAX_CAMPAIGN_NAME_LENGTH {
      return Err(NAME_TOO_LONG);
    }
    if u.status == Some(DRAFT) {
      q.DeleteWhere(campaignId, Staged);
    }
    if campaignId !in camps.campaigns {
      return Err(CAMPAIGN_NOT_FOUND);
    }
    var c := Applied(camps.campaigns[campaignId], u);
    camps.campaigns := camps.campaigns[campaignId := c];
    return Ok(c);
  }

  /** After a draft reset no staged row of the campaign is left, every
      other row is untouched, and the campaign counts no recipients. */
  lemma DraftResetClears(rows: map<int, QueueRow>, c: Campaign, campaignId: string, u: CampaignUpdate)
    requires u.status == Some(DRAFT)
    ensures forall id :: id in RowsWithout(rows, campaignId, Staged) ==> !Matches(RowsWithout(rows, campaignId, Staged)[id], campaignId, Staged)
    ensures forall id :: id in rows && !Matches(rows[id], campaignId, Staged) ==>
      id in RowsWithout(rows, campaignId, Staged) && RowsWithout(rows, campaignId, Staged)[id] == rows[id]
    ensures Applied(c, u).status == DRAFT && Applied(c, u).totalRecipients == 0
  {
  }
}
