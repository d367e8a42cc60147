/** process_retry_failed_task (services/api/tasks/retry_failed.py): the
    scheduling loop of a launch applied to the campaign's `failed` rows,
    clearing each row's error message. The campaign row is never written. */
module RetryFailed {
  import opened Wrappers
  import opened Scheduling
  import opened QueueStore
  import opened CampaignStore
  import opened Launch

  /** The campaign's failed rows in `created_at` order. */
  function FailedSelection(rows: map<int, QueueRow>, order: seq<int>, campaignId: string): (r: seq<int>)
    ensures forall id :: id in r <==>
      id in order && id in rows && rows[id].campaignId == campaignId && rows[id].status == Failed
    ensures |r| <= |order|
  {
    FilterIds(order, rows, (_: int, x: QueueRow) => x.campaignId == campaignId && x.status == Failed)
  }

  datatype RetryOutcome = NoCampaign | NothingFailed | Retried(count: nat) | Stopped(count: nat)

  method ProcessRetryFailedTask(q: EmailQueue, camps: CampaignTable, campaignId: string,
                                existing: seq<ScheduleEntry>, now: Time, jitters: seq<int>)
    returns (outcome: RetryOutcome)
    requires q.Valid() && |jitters| >= |q.order|
    requires ListsCoordinating(existing, q.rows) && SortedNewestFirst(existing)
    modifies q
    ensures q.Valid() && q.order == old(q.order)
    ensures campaignId !in camps.campaigns ==> outcome == NoCampaign && q.rows == old(q.rows)
    ensures campaignId in camps.campaigns ==>
      var c := camps.campaigns[campaignId];
      var sel := FailedSelection(old(q.rows), old(q.order), campaignId);
      var plan := TaskPlan(old(q.rows), sel, c, existing, now, jitters);
      && q.rows == ApplySlots(old(q.rows), sel, plan.slots, true)
      && (sel == [] ==> outcome == NothingFailed)
      && (sel != [] && plan.aborted ==> outcome == Stopped(|plan.slots|))
      && (sel != [] && !plan.aborted ==> outcome == Retried(|sel|))
  {
    if campaignId !in camps.campaigns {
      return NoCampaign;
    }
    var campaign := camps.campaigns[campaignId];
    var failed := FetchAllPages(FailedSelection(q.rows, q.order, campaignId));
    if failed == [] {
      return NothingFailed;
    }
    var configs := SenderConfigs(campaign);
    var listing := FetchAllPages(existing);
    var last := DomainLastScheduled(listing);
    var start := StartTime(now);
    var total := ScheduleRows(q, failed, configs, last, start, jitters, true);
    if total < |failed| {
      return Stopped(total);
    }
    return Retried(total);
  }

  /** A retry that runs to the end reschedules every failed row of the
      campaign, with no limit on how often a row was retried: each becomes
      `queued` with a domain, a sender address and a time, and its error is
      cleared. */
  lemma RetryReschedulesEveryFailedRow(rows: map<int, QueueRow>, order: seq<int>, campaignId: string, c: Campaign,
                                       existing: seq<ScheduleEntry>, now: Time, jitters: seq<int>)
    requires Distinct(order) && (forall id :: id in rows <==> id in order)
    requires |jitters| >= |order|
    ensures var sel := FailedSelection(rows, order, campaignId);
      var plan := TaskPlan(rows, sel, c, existing, now, jitters);
      var after := ApplySlots(rows, sel, plan.slots, true);
      && after.Keys == rows.Keys
      && (!plan.aborted ==> forall id :: id in rows && rows[id].campaignId == campaignId && rows[id].status == Failed ==>
            && after[id].status == Queued && after[id].errorMessage == None
            && after[id].domainIndex.Some? && after[id].fromEmail.Some? && after[id].scheduledFor.Some?
            && after[id].campaignId == campaignId && after[id].toEmail == rows[id].toEmail)
  {
    var sel := FailedSelection(rows, order, campaignId);
    var plan := TaskPlan(rows, sel, c, existing, now, jitters);
    FilterIdsDistinct(order, rows, (_: int, x: QueueRow) => x.campaignId == campaignId && x.status == Failed);
    ApplySlotsEffect(rows, sel, plan.slots, true);
    if !plan.aborted {
      ApplyAllSlotsQueues(rows, sel, plan.slots, true);
    }
  }

  /** A retry changes no row other than the campaign's failed rows. */
  lemma RetryLeavesOtherRows(rows: map<int, QueueRow>, order: seq<int>, campaignId: string, c: Campaign,
                             existing: seq<ScheduleEntry>, now: Time, jitters: seq<int>)
    requires Distinct(order) && (forall id :: id in rows <==> id in order)
    requires |jitters| >= |order|
    ensures var sel := FailedSelection(rows, order, campaignId);
      var plan := TaskPlan(rows, sel, c, existing, now, jitters);
      var after := ApplySlots(rows, sel, plan.slots, true);
      forall id :: id in rows && !(rows[id].campaignId == campaignId && rows[id].status == Failed) ==>
        id in after && after[id] == rows[id]
  {
    var sel := FailedSelection(rows, order, campaignId);
    var plan := TaskPlan(rows, sel, c, existing, now, jitters);
    FilterIdsDistinct(order, rows, (_: int, x: QueueRow) => x.campaignId == campaignId && x.status == Failed);
    ApplySlotsEffect(rows, sel, plan.slots, true);
    assert forall x :: x in sel[..|plan.slots|] ==> x in sel;
  }
}
