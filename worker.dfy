/** The dispatch worker (services/campaign-runner/main.py): the hour check,
    one batch of `process_email_batch` and one cycle of `main_loop`.
    Content generation, the campaign pause and the provider call are
    outcomes given per email as inputs; the store is the `EmailQueue`. */
module Worker {
  import opened Scheduling
  import opened QueueStore

  const BATCH_SIZE: nat := 20
  const POLL_INTERVAL_SECONDS: nat := 60
  const CIRCUIT_BREAKER_THRESHOLD: int := 10

  const MISSING_FIELDS: string := "Missing core fields"
  const EMPTY_BODY: string := "Body is empty after generation"
  const PROVIDER_REJECTED: string := "SparkPost API Error"
  const GENERATION_ERROR: string := "Generation Error: "
  const SENDING_ERROR: string := "Sending Error: "

  /** is_working_hours: the hour of local time only; the day is not read. */
  predicate IsWorkingHours(disabled: bool, t: Time) {
    disabled || 9 <= HourOf(t) < 17
  }

  /** The check passes on Saturdays and Sundays alike: shifting a time by
      whole days never changes the answer, and a weekend hour in range
      passes. */
  lemma WorkingHoursIgnoreTheDay(disabled: bool, t: Time, days: int)
    ensures IsWorkingHours(disabled, t + days * DAY) == IsWorkingHours(disabled, t)
    ensures IsWeekend(t) && 9 <= HourOf(t) < 17 ==> IsWorkingHours(false, t)
  {
    var u := t + days * DAY;
    assert u % DAY == t % DAY by {
      assert u == (t / DAY + days) * DAY + t % DAY;
    }
  }

  /** The content generation of an email with an empty body: a body saved
      to the row, or an error (campaign missing, model failure, save failure). */
  datatype Generation = Generated(body: string) | GenerationError(message: string)

  /** The provider call: accepted (2xx), rejected (False) or raised. */
  datatype Delivery = Accepted | Rejected | DeliveryError(message: string)

  /** Everything outside the worker that one email meets, in call order:
      whether the lock update reached the store, the generation, whether a
      pause succeeds, the provider call, and whether the final mark reached
      the store. */
  datatype Outcome = Outcome(lockStoreUp: bool, generation: Generation, pauseSucceeds: bool,
                             delivery: Delivery, storeUp: bool)

  /** The batch's counters, per-campaign consecutive generation errors and
      the campaigns paused in this batch. `invalid` counts the rows failed
      by validation; the source logs it only as part of `failed_count`. */
  datatype Tally = Tally(processed: nat, sent: nat, failed: nat, invalid: nat,
                         errors: map<string, int>, paused: set<string>)

  datatype BatchState = BatchState(rows: map<int, QueueRow>, tally: Tally)

  const EMPTY_TALLY: Tally := Tally(0, 0, 0, 0, map[], {})

  /** `campaign_errors` is a defaultdict(int). */
  function ErrorCount(errors: map<string, int>, c: string): int {
    if c in errors then errors[c] else 0
  }

  function WithBody(rows: map<int, QueueRow>, id: int, body: string): map<int, QueueRow> {
    if id in rows then rows[id := rows[id].(body := body)] else rows
  }

  function Fail(s: BatchState, id: int, message: string, storeUp: bool): BatchState {
    BatchState(AfterMarkFailed(s.rows, id, message, storeUp), s.tally.(failed := s.tally.failed + 1))
  }

  /** The sending part of the loop body. */
  function Deliver(s: BatchState, id: int, body: string, o: Outcome, now: Time): BatchState {
    if body == [] then Fail(s, id, EMPTY_BODY, o.storeUp)
    else match o.delivery
      case Accepted => BatchState(AfterMarkSent(s.rows, id, now, o.storeUp), s.tally.(sent := s.tally.sent + 1))
      case Rejected => Fail(s, id, PROVIDER_REJECTED, o.storeUp)
      case DeliveryError(m) => Fail(s, id, SENDING_ERROR + m, o.storeUp)
  }

  /** The loop body after the lock was taken. */
  function Locked(s: BatchState, id: int, e: QueueRow, o: Outcome, now: Time): BatchState {
    if e.body != [] then Deliver(s, id, e.body, o, now)
    else match o.generation
      case GenerationError(m) =>
        var n := ErrorCount(s.tally.errors, e.campaignId) + 1;
        var paused := if n >= CIRCUIT_BREAKER_THRESHOLD && o.pauseSucceeds then s.tally.paused + {e.campaignId}
                      else s.tally.paused;
        Fail(BatchState(s.rows, s.tally.(errors := s.tally.errors[e.campaignId := n], paused := paused)),
             id, GENERATION_ERROR + m, o.storeUp)
      case Generated(b) =>
        Deliver(BatchState(WithBody(s.rows, id, b), s.tally.(errors := s.tally.errors[e.campaignId := 0])),
                id, b, o, now)
  }

  /** One iteration of the loop over the fetched emails; `e` is the row as
      fetched. */
  function Step(s: BatchState, id: int, e: QueueRow, o: Outcome, now: Time): BatchState {
    if e.campaignId in s.tally.paused then s
    else if e.campaignId == [] || e.toEmail == [] then
      var f := Fail(s, id, MISSING_FIELDS, o.storeUp);
      f.(tally := f.tally.(invalid := f.tally.invalid + 1))
    else if !LockTaken(s.rows, id, o.lockStoreUp) then s
    else Locked(BatchState(AfterMarkProcessing(s.rows, id, o.lockStoreUp), s.tally.(processed := s.tally.processed + 1)),
                id, e, o, now)
  }

  /** The state after the first `n` fetched emails. */
  function Run(s0: BatchState, ids: seq<int>, fetched: map<int, QueueRow>, outcomes: seq<Outcome>, now: Time, n: nat): BatchState
    requires n <= |ids| && |ids| <= |outcomes| && forall id :: id in ids ==> id in fetched
  {
    if n == 0 then s0
    else Step(Run(s0, ids, fetched, outcomes, now, n - 1), ids[n - 1], fetched[ids[n - 1]], outcomes[n - 1], now)
  }

  // ---------------------------------------------------------------------
  // The imperative batch

  /** process_email_batch. `fetchOk` is false when the client or the fetch
      raised; the method then returns at once. */
  method ProcessEmailBatch(q: EmailQueue, now: Time, fetchOk: bool, outcomes: seq<Outcome>) returns (tally: Tally)
    requires q.Valid() && |outcomes| >= BATCH_SIZE
    modifies q
    ensures q.Valid() && q.order == old(q.order)
    ensures var batch := old(q.QueuedEmails(now, BATCH_SIZE));
      if !fetchOk || batch == [] then q.rows == old(q.rows) && tally == EMPTY_TALLY
      else BatchState(q.rows, tally) == Run(BatchState(old(q.rows), EMPTY_TALLY), batch, old(q.rows), outcomes, now, |batch|)
  {
    tally := EMPTY_TALLY;
    if !fetchOk {
      return;
    }
    var emails := q.QueuedEmails(now, BATCH_SIZE);
    if emails == [] {
      return;
    }
    var fetched := q.rows;
    var i := 0;
    while i < |emails|
      invariant 0 <= i <= |emails| && q.Valid() && q.order == old(q.order)
      invariant BatchState(q.rows, tally) == Run(BatchState(fetched, EMPTY_TALLY), emails, fetched, outcomes, now, i)
    {
      tally := HandleEmail(q, tally, emails[i], fetched[emails[i]], outcomes[i], now);
      i := i + 1;
    }
  }

  /** The loop body, with the `continue`s as returns. */
  method HandleEmail(q: EmailQueue, t: Tally, id: int, e: QueueRow, o: Outcome, now: Time) returns (tally: Tally)
    requires q.Valid()
    modifies q
    ensures q.Valid() && q.order == old(q.order)
    ensures BatchState(q.rows, tally) == Step(BatchState(old(q.rows), t), id, e, o, now)
  {
    tally := t;
    if e.campaignId in tally.paused {
      return;
    }
    if e.campaignId == [] || e.toEmail == [] {
      var _ := q.MarkFailed(id, MISSING_FIELDS, o.storeUp);
      tally := tally.(failed := tally.failed + 1, invalid := tally.invalid + 1);
      return;
    }
    var locked := q.MarkProcessing(id, o.lockStoreUp);
    if !locked {
      return;
    }
    tally := tally.(processed := tally.processed + 1);
    var body := e.body;
    if body == [] {
      match o.generation {
        case GenerationError(m) =>
          var n := ErrorCount(tally.errors, e.campaignId) + 1;
          tally := tally.(errors := tally.errors[e.campaignId := n]);
          if n >= CIRCUIT_BREAKER_THRESHOLD && o.pauseSucceeds {
            tally := tally.(paused := tally.paused + {e.campaignId});
          }
          var _ := q.MarkFailed(id, GENERATION_ERROR + m, o.storeUp);
          tally := tally.(failed := tally.failed + 1);
          return;
        case Generated(b) =>
          q.UpdateRow(id, q.rows[id].(body := b));
          body := b;
          tally := tally.(errors := tally.errors[e.campaignId := 0]);
      }
    }
    tally := Send(q, tally, id, body, o, now);
  }

  method Send(q: EmailQueue, t: Tally, id: int, body: string, o: Outcome, now: Time) returns (tally: Tally)
    requires q.Valid()
    modifies q
    ensures q.Valid() && q.order == old(q.order)
    ensures BatchState(q.rows, tally) == Deliver(BatchState(old(q.rows), t), id, body, o, now)
  {
    tally := t;
    if body == [] {
      var _ := q.MarkFailed(id, EMPTY_BODY, o.storeUp);
      tally := tally.(failed := tally.failed + 1);
      return;
    }
    match o.delivery {
      case Accepted =>
        var _ := q.MarkSent(id, now, o.storeUp);
        tally := tally.(sent := tally.sent + 1);
      case Rejected =>
        var _ := q.MarkFailed(id, PROVIDER_REJECTED, o.storeUp);
        tally := tally.(failed := tally.failed + 1);
      case DeliveryError(m) =>
        var _ := q.MarkFailed(id, SENDING_ERROR + m, o.storeUp);
        tally := tally.(failed := tally.failed + 1);
    }
  }

  /** One cycle of main_loop: a batch only in working hours, then always
      the same sleep. */
  method Cycle(q: EmailQueue, disabled: bool, now: Time, fetchOk: bool, outcomes: seq<Outcome>)
    returns (ranBatch: bool, sleepSeconds: nat)
    requires q.Valid() && |outcomes| >= BATCH_SIZE
    modifies q
    ensures q.Valid() && q.order == old(q.order)
    ensures ranBatch == IsWorkingHours(disabled, now) && sleepSeconds == POLL_INTERVAL_SECONDS
    ensures !ranBatch ==> q.rows == old(q.rows)
    ensures ranBatch ==> var batch := old(q.QueuedEmails(now, BATCH_SIZE));
      if !fetchOk || batch == [] then q.rows == old(q.rows)
      else q.rows == Run(BatchState(old(q.rows), EMPTY_TALLY), batch, old(q.rows), outcomes, now, |batch|).rows
  {
    ranBatch := IsWorkingHours(disabled, now);
    if ranBatch {
      var _ := ProcessEmailBatch(q, now, fetchOk, outcomes);
    }
    sleepSeconds := POLL_INTERVAL_SECONDS;
  }

  // ---------------------------------------------------------------------
  // What a batch guarantees

  /** Every email that counts as processed ends in exactly one of the sent
      and failed counters, as does every row failed by validation. */
  predicate Balanced(t: Tally) {
    t.sent + t.failed == t.processed + t.invalid
  }

  lemma StepBalanced(s: BatchState, id: int, e: QueueRow, o: Outcome, now: Time)
    requires Balanced(s.tally)
    ensures Balanced(Step(s, id, e, o, now).tally)
  {
  }

  lemma {:induction false} RunBalanced(ids: seq<int>, fetched: map<int, QueueRow>, outcomes: seq<Outcome>, now: Time,
                                       rows: map<int, QueueRow>, n: nat)
    requires n <= |ids| && |ids| <= |outcomes| && forall id :: id in ids ==> id in fetched
    ensures var s := Run(BatchState(rows, EMPTY_TALLY), ids, fetched, outcomes, now, n);
      s.tally.sent + s.tally.failed == s.tally.processed + s.tally.invalid
  {
    if n > 0 {
      RunBalanced(ids, fetched, outcomes, now, rows, n - 1);
      var s := Run(BatchState(rows, EMPTY_TALLY), ids, fetched, outcomes, now, n - 1);
      StepBalanced(s, ids[n - 1], fetched[ids[n - 1]], outcomes[n - 1], now);
    }
  }

  /** Each iteration touches only the row it handles. */
  lemma StepTouchesOnlyItsRow(s: BatchState, id: int, e: QueueRow, o: Outcome, now: Time)
    ensures var r := Step(s, id, e, o, now).rows;
      r.Keys == s.rows.Keys && forall other :: other in s.rows && other != id ==> r[other] == s.rows[other]
  {
    if e.campaignId !in s.tally.paused && e.campaignId != [] && e.toEmail != [] && LockTaken(s.rows, id, o.lockStoreUp) {
      var locked := BatchState(AfterMarkProcessing(s.rows, id, o.lockStoreUp), s.tally.(processed := s.tally.processed + 1));
      assert Step(s, id, e, o, now) == Locked(locked, id, e, o, now);
      assert locked.rows == s.rows[id := s.rows[id].(status := Processing)];
      LockedTouchesOnlyItsRow(locked, id, e, o, now);
    }
  }

  lemma LockedTouchesOnlyItsRow(s: BatchState, id: int, e: QueueRow, o: Outcome, now: Time)
    ensures var r := Locked(s, id, e, o, now).rows;
      r.Keys == s.rows.Keys && forall other :: other in s.rows && other != id ==> r[other] == s.rows[other]
  {
    if e.body == [] && o.generation.Generated? {
      var b := o.generation.body;
      DeliverTouchesOnlyItsRow(BatchState(WithBody(s.rows, id, b), s.tally.(errors := s.tally.errors[e.campaignId := 0])), id, b, o, now);
    } else if e.body != [] {
      DeliverTouchesOnlyItsRow(s, id, e.body, o, now);
    }
  }

  lemma DeliverTouchesOnlyItsRow(s: BatchState, id: int, body: string, o: Outcome, now: Time)
    ensures var r := Deliver(s, id, body, o, now).rows;
      r.Keys == s.rows.Keys && forall other :: other in s.rows && other != id ==> r[other] == s.rows[other]
  {
  }

  /** A row failed by validation is marked failed straight from `queued`,
      without the lock, and is not counted as processed; a row whose lock
      is not taken is skipped with nothing changed. */
  lemma StepBeforeTheLock(s: BatchState, id: int, e: QueueRow, o: Outcome, now: Time)
    requires e.campaignId !in s.tally.paused
    ensures (e.campaignId == [] || e.toEmail == []) ==>
      var r := Step(s, id, e, o, now);
      && r.rows == AfterMarkFailed(s.rows, id, MISSING_FIELDS, o.storeUp)
      && r.tally == s.tally.(failed := s.tally.failed + 1, invalid := s.tally.invalid + 1)
    ensures (e.campaignId != [] && e.toEmail != [] && !LockTaken(s.rows, id, o.lockStoreUp)) ==>
      Step(s, id, e, o, now) == s
  {
  }

  /** A locked row whose final mark reaches the store ends `sent` or
      `failed`, counted once as processed and once in exactly one of the
      sent and failed counters. */
  lemma LockedRowEnds(s: BatchState, id: int, e: QueueRow, o: Outcome, now: Time)
    requires e.campaignId !in s.tally.paused && e.campaignId != [] && e.toEmail != []
    requires LockTaken(s.rows, id, o.lockStoreUp) && o.storeUp
    ensures var r := Step(s, id, e, o, now);
      && id in r.rows && (r.rows[id].status == Sent || r.rows[id].status == Failed)
      && r.tally.processed == s.tally.processed + 1
      && (r.rows[id].status == Sent ==> r.tally.sent == s.tally.sent + 1 && r.tally.failed == s.tally.failed)
      && (r.rows[id].status == Failed ==> r.tally.failed == s.tally.failed + 1 && r.tally.sent == s.tally.sent)
  {
    var locked := BatchState(AfterMarkProcessing(s.rows, id, o.lockStoreUp), s.tally.(processed := s.tally.processed + 1));
    assert id in locked.rows;
  }

  /** The circuit breaker. A generation success resets the campaign's
      count to 0, a generation failure adds one and, at the threshold,
      pauses the campaign when the pause succeeds. Nothing else - a send
      failure included - changes a count or the paused set. */
  lemma CircuitBreaker(s: BatchState, id: int, e: QueueRow, o: Outcome, now: Time)
    ensures var r := Step(s, id, e, o, now);
      var c := e.campaignId;
      var lockedEmpty := c !in s.tally.paused && c != [] && e.toEmail != []
                         && LockTaken(s.rows, id, o.lockStoreUp) && e.body == [];
      && (lockedEmpty && o.generation.Generated? ==>
            r.tally.errors == s.tally.errors[c := 0] && r.tally.paused == s.tally.paused)
      && (lockedEmpty && o.generation.GenerationError? ==>
            && r.tally.errors == s.tally.errors[c := ErrorCount(s.tally.errors, c) + 1]
            && r.tally.paused == (if ErrorCount(s.tally.errors, c) + 1 >= CIRCUIT_BREAKER_THRESHOLD && o.pauseSucceeds
                                  then s.tally.paused + {c} else s.tally.paused))
      && (!lockedEmpty ==> r.tally.errors == s.tally.errors && r.tally.paused == s.tally.paused)
  {
  }

  /** A non-empty body goes straight to sending: the row's body is kept
      and a generation outcome plays no part. */
  lemma BodyPresentSkipsGeneration(s: BatchState, id: int, e: QueueRow, o: Outcome, g: Generation, now: Time)
    requires e.body != []
    ensures Step(s, id, e, o, now) == Step(s, id, e, o.(generation := g), now)
    ensures var r := Step(s, id, e, o, now);
      id in s.rows ==> id in r.rows && r.rows[id].body == s.rows[id].body
  {
  }

  /** The paused set only grows during a batch. */
  lemma {:induction false} PausedOnlyGrows(rows: map<int, QueueRow>, ids: seq<int>, fetched: map<int, QueueRow>,
                                           outcomes: seq<Outcome>, now: Time, m: nat, n: nat)
    requires m <= n <= |ids| && |ids| <= |outcomes| && forall id :: id in ids ==> id in fetched
    ensures Run(BatchState(rows, EMPTY_TALLY), ids, fetched, outcomes, now, m).tally.paused
         <= Run(BatchState(rows, EMPTY_TALLY), ids, fetched, outcomes, now, n).tally.paused
  {
    if m < n {
      PausedOnlyGrows(rows, ids, fetched, outcomes, now, m, n - 1);
    }
  }

  /** Once a campaign is paused, its later emails in the batch are skipped
      untouched. */
  lemma LaterEmailsOfPausedCampaignSkipped(rows: map<int, QueueRow>, ids: seq<int>, fetched: map<int, QueueRow>,
                                           outcomes: seq<Outcome>, now: Time, k: nat, j: nat)
    requires k < j < |ids| && |ids| <= |outcomes| && forall id :: id in ids ==> id in fetched
    requires ids[j] in fetched && fetched[ids[j]].campaignId in Run(BatchState(rows, EMPTY_TALLY), ids, fetched, outcomes, now, k + 1).tally.paused
    ensures Run(BatchState(rows, EMPTY_TALLY), ids, fetched, outcomes, now, j + 1)
         == Run(BatchState(rows, EMPTY_TALLY), ids, fetched, outcomes, now, j)
  {
    PausedOnlyGrows(rows, ids, fetched, outcomes, now, k + 1, j);
  }
}
