# ozl-emails: scheduling and delivery bookkeeping, in Dafny

This project models the core of the ozl-emails campaign service and proves properties of it:

- **Send-time scheduler.** The working-hours and weekend arithmetic, the pool of 28 sending domains, and the per-domain spacing loop of the launch task and the retry-failed task. Every email gets a domain, by a pre-set index or round-robin. It gets a `scheduled_for` at least one interval after the domain's previous send.
- **Queue store and dispatch worker.** The due-row query, the compare-and-set lock `mark_processing`, `mark_sent` and `mark_failed`, and one batch of the worker with its counters and its per-campaign circuit breaker.
- **Suppression ledger and webhook.** What a bounce, an unsubscribe or a spam complaint writes to the contact and recipient tables. How the provider webhook classifies each event and counts it.
- **Text construction.** Queue-row building in the generate task, `{{variable}}` substitution, the plain-text and HTML bodies of both renderers, prompt assembly in both prompt modules, and the provider payloads of both senders with the campaign tag.
- **Campaign rules and API validators.** The completion check, the daily capacity of the week schedule, the create, generate, launch and retry guards, and the draft reset. Also the snake_case/camelCase mapping of the emails routes, the replace semantics of adding recipients, and HTTP Basic credential parsing (section 2 of RFC 7617, base64 per section 4 of RFC 4648).

Each source file is one module, in the source's own form:

- The tasks, the worker batch, the store operations and the ledger updates are classes and methods with loop invariants.
- Each method is proved against a function that specifies it.
- The text builders and the validators are functions with lemmas.

Two helper modules are shared: `Wrappers` (`Option`, `Result`) and `Text` (Python's string operations).

Conventions of the model:

- Time is an integer count of local milliseconds since a Monday 00:00, at a fixed offset. `Weekday` is Python's `weekday()`, with Monday as 0.
- The interval is 210 000 ms (3.5 minutes). The jitter is an input below 30 000 ms.
- Tables are in-memory maps or sequences of rows. The queue keeps its rows in `created_at` order.
- The following are inputs to the model: the current time, the jitter, the outcome of every store call that can fail, the provider's answer, the outcome of each AI call, and the unsubscribe token (an HMAC).

## Model

| member | source | states |
|---|---|---|
| Scheduling.BaseDomainsDistinct | services/api/shared/scheduling.py:9-40 | the sending pool holds 28 domains, pairwise different |
| Scheduling.GenerateDomainConfig | services/api/shared/scheduling.py:43-62 | one entry per pool domain, in pool order; Todd's local part and display name exactly when the sender is "todd_vitzthum", Jeff's for any other sender |
| Scheduling.FromAddress | services/api/tasks/launch.py:181 | the `Display <local@domain>` sender of a domain entry; Launch.ApplySlotsEffect shows it is what each scheduled row gets as `from_email` |
| Scheduling.PyIndex | services/api/tasks/launch.py:141 | Python list indexing: a value exactly for indices in [-len, len), taken from the list; anything else is the IndexError case |
| Scheduling.NextWeekdayStartLoop | services/api/shared/scheduling.py:94-108 | the day-by-day weekend loop ends at the start hour of the first following day that is not skipped |
| Scheduling.NextWeekdayStart | services/api/shared/scheduling.py:80-108 | the next day's start hour, skipping weekend days; NextWeekdayStartLoop proves the loop computes it and NextWeekdayStartShape that it is the next weekday at most three days on |
| Scheduling.NextWeekdayStartShape | services/api/shared/scheduling.py:80-108 | the result is on the whole start hour, strictly after the input, one day later or (weekends skipped) at most three days later, never on a weekend, every skipped day is a Saturday or Sunday, and from Friday to Sunday it is a Monday |
| Scheduling.StartTimeInWindow | services/api/shared/scheduling.py:111-150 | the start time always lies Monday to Friday between the start and end hours; inside the window it is now cut to whole seconds, otherwise a later whole start hour |
| Scheduling.GetStartTimeInTimezone | services/api/shared/scheduling.py:111-150 | the first send time of a launch; StartTimeInWindow, NextStartInWindow and LaterTodayInWindow state where it falls for each case of now |
| Scheduling.CutToSecond | services/api/shared/scheduling.py:141-150 | dropping the sub-second part keeps the day and the hour and never moves later |
| Scheduling.NextStartInWindow | services/api/shared/scheduling.py:126-140 | on a weekend or after the end hour the start time is a later start of the window |
| Scheduling.LaterTodayInWindow | services/api/shared/scheduling.py:130-138 | before the start hour on a weekday the start time is that day's start hour |
| Scheduling.AdjustKeepsIff | services/api/shared/scheduling.py:153-182 | a candidate is kept exactly when it is not a skipped weekend day and is before the end hour of its day; otherwise it moves strictly later, to the next weekday start |
| Scheduling.AdjustToWorkingHours | services/api/shared/scheduling.py:153-182 | a candidate time moved into the working window; AdjustKeepsIff states when it is kept, AdjustLandsBeforeEnd and AdjustStaysInWindow where it lands |
| Scheduling.AdjustLandsBeforeEnd | services/api/shared/scheduling.py:153-182 | with weekends skipped the result is Monday to Friday before the end hour, and adjusting it again is the identity |
| Scheduling.AdjustStaysInWindow | services/api/shared/scheduling.py:153-182 | a time in the window pushed later by less than the rest of its day after the end hour is adjusted back into the window |
| Launch.Page | services/api/tasks/launch.py:59 | `range(offset, offset + size - 1)`: at most `size` rows, the listing's slice from `offset` |
| Launch.FetchAllPages | services/api/tasks/launch.py:50-72 | the paging loop reads every row of the listing once, in listing order |
| Launch.StagedSelection | services/api/tasks/launch.py:47-59 | exactly the campaign's staged rows, restricted to `emailIds` only when `all` is false and the id list is non-empty |
| Launch.FirstPerDomainIsLatest | services/api/tasks/launch.py:85-108 | on a newest-first listing the first time kept per domain index is the latest listed for it, and is one of the listed times |
| Launch.DomainLastScheduled | services/api/tasks/launch.py:100-108 | the loop keeps the first listed time per domain index and skips entries without one |
| Launch.Plan | services/api/tasks/launch.py:133-185 | at most one slot per email, and the run is cut short exactly when some email got no slot |
| Launch.PlanDomains | services/api/tasks/launch.py:136-141 | the k-th email gets its pre-set index or round-robin index k (the counter advances for pre-set rows too) and the pool entry Python indexing gives; a cut-short run stops at an index outside the pool |
| Launch.ChooseDomain | services/api/tasks/launch.py:136-141 | a pre-set domain index, else the round-robin counter modulo the pool; PlanDomains proves each slot takes this choice |
| Launch.PlanAfterLatest | services/api/tasks/launch.py:145-154 | every slot on an index with a latest time is at least one interval after it |
| Launch.PlanSpacing | services/api/tasks/launch.py:145-175 | two slots of one run on the same domain index are at least one interval apart, in order |
| Launch.PlanBeforeEnd | services/api/tasks/launch.py:144-172 | every slot is Monday to Friday and before the end hour |
| Launch.PlanInWindow | services/api/tasks/launch.py:144-172 | when the start time and every latest time lie in the window, so does every slot |
| Launch.PlanFreshDomainAtStart | services/api/tasks/launch.py:164-172 | the first email on an index unused by this run and by other rows goes out at the adjusted start time plus its jitter |
| Launch.NextScheduledFor | services/api/tasks/launch.py:144-172 | the three branches that compute `scheduled_for` |
| Launch.NextTime | services/api/tasks/launch.py:144-172 | the next time on a domain from this run's previous time, the table's latest or the start; PlanAfterLatest, PlanSpacing and PlanFreshDomainAtStart state its guarantees |
| Launch.ApplySlotsEffect | services/api/tasks/launch.py:177-183 | each scheduled row receives its own slot's update, and no other row changes |
| Launch.ApplyAllSlotsQueues | services/api/tasks/launch.py:178-183 | after a full run every selected row is `queued` with a domain index, a sender address and a time, keeping its recipient and campaign |
| Launch.PresetsOf | services/api/tasks/launch.py:137 | the pre-set `domain_index` of each selected row, in order |
| Launch.SenderConfigs | services/api/tasks/launch.py:43 | the pool of the campaign's sender, Jeff's when none is set |
| Launch.ScheduleRows | services/api/tasks/launch.py:126-185 | the scheduling loop updates the rows exactly as the plan says and reports how many it scheduled |
| Launch.ProcessLaunchTask | services/api/tasks/launch.py:25-198 | a missing campaign changes nothing; no staged row changes nothing; otherwise the rows follow the plan and the campaign becomes `scheduled` only when every row was scheduled |
| Launch.LaunchStaged | services/api/tasks/launch.py:78-193 | the part after rows were found: plan, row updates and the campaign status |
| Launch.TaskPlanSpacing | services/api/tasks/launch.py:126-175 | two emails of one launch on the same domain index are at least one interval apart |
| Launch.TaskPlan | services/api/tasks/launch.py:78-175 | the slots of a whole launch; TaskPlanSpacing, TaskPlanAfterTable, TaskPlanBeforeEnd and TaskPlanInWindow state its guarantees |
| Launch.TaskPlanAfterTable | services/api/tasks/launch.py:83-175 | when the listing holds every queued or processing row, each new slot is at least one interval after every such row on its domain |
| Launch.TaskPlanAfterOthers | services/api/tasks/launch.py:78-154 | every email of a launch is at least one interval after each listed send of another row on its domain index |
| Launch.TaskPlanBeforeEnd | services/api/tasks/launch.py:118-172 | no email of a launch is on a weekend or after the end hour |
| Launch.TaskPlanInWindow | services/api/tasks/launch.py:99-172 | when every listed send lies in the window, every email of a launch does too |
| Launch.RelaunchSelectsNothing | services/api/tasks/launch.py:55-59 | after a complete launch a second launch of the same campaign selects no row |
| RetryFailed.FailedSelection | services/api/tasks/retry_failed.py:43-56 | exactly the campaign's failed rows |
| RetryFailed.ProcessRetryFailedTask | services/api/tasks/retry_failed.py:24-162 | the launch scheduling applied to the failed rows with the error cleared; the campaign row is not written |
| RetryFailed.RetryReschedulesEveryFailedRow | services/api/tasks/retry_failed.py:110-157 | a retry that runs to the end makes every failed row of the campaign `queued` with a slot and no error, whatever its retry history |
| RetryFailed.RetryLeavesOtherRows | services/api/tasks/retry_failed.py:149-155 | no row other than the campaign's failed rows changes |
| QueueStore.EmailQueue.QueuedEmails | services/campaign-runner/db.py:19-46 | at most `limit` due rows (queued with a time not after now), in `created_at` order; fewer only when no other row is due; a due row is never passed over for a later one (oldest first) |
| QueueStore.EmailQueue.MarkProcessing | services/campaign-runner/db.py:49-71 | the lock is taken, and the row set to `processing`, exactly when the row exists and is still `queued`; an exception gives false and no change |
| QueueStore.EmailQueue.MarkSent | services/campaign-runner/db.py:74-96 | `sent` with its time whatever the prior status; true iff a row was updated |
| QueueStore.EmailQueue.MarkFailed | services/campaign-runner/db.py:99-122 | `failed` with its message whatever the prior status; true iff a row was updated |
| QueueStore.LockIsExclusive | services/campaign-runner/db.py:62-69 | once taken, a second `mark_processing` of the row answers false and changes nothing; only that row's status changed |
| QueueStore.NothingDueNothingPicked | services/campaign-runner/db.py:36-46 | when no row is due the query is empty |
| QueueStore.MarksAreUnconditional | services/campaign-runner/db.py:84-119 | `mark_sent` and `mark_failed` overwrite any status and touch no other row |
| Worker.WorkingHoursIgnoreTheDay | services/campaign-runner/main.py:59-79 | the hour check reads only the hour: shifting by whole days never changes it, and weekend hours pass |
| Worker.IsWorkingHours | services/campaign-runner/main.py:59-79 | the runner's working-hours test; WorkingHoursIgnoreTheDay states it reads only the hour |
| Worker.ProcessEmailBatch | services/campaign-runner/main.py:82-251 | a failed fetch or an empty batch changes nothing; otherwise the table and counters are those of the emails handled in order |
| Worker.HandleEmail | services/campaign-runner/main.py:111-246 | one loop iteration, its `continue`s included |
| Worker.Send | services/campaign-runner/main.py:207-246 | an empty body fails; the provider's answer marks the row sent or failed with its message |
| Worker.Cycle | services/campaign-runner/main.py:271-285 | a batch runs exactly in working hours, and the sleep is always the poll interval; after a batch the queue is what processing the fetched due rows in order leaves, and unchanged when the fetch failed or found nothing |
| Worker.RunBalanced | services/campaign-runner/main.py:103-246 | sent plus failed equals processed plus the rows failed by validation, after any number of emails |
| Worker.Run | services/campaign-runner/main.py:103-246 | the batch loop as a function; ProcessEmailBatch equals it, and RunBalanced, PausedOnlyGrows and LaterEmailsOfPausedCampaignSkipped state its guarantees |
| Worker.StepTouchesOnlyItsRow | services/campaign-runner/main.py:111-246 | each iteration changes only the row it handles |
| Worker.Step | services/campaign-runner/main.py:111-246 | one email of the batch; StepTouchesOnlyItsRow, StepBeforeTheLock, LockedRowEnds and CircuitBreaker state its effect |
| Worker.StepBeforeTheLock | services/campaign-runner/main.py:124-137 | a row missing its campaign or recipient is marked failed without the lock and not counted as processed; a row whose lock is not taken is skipped with nothing changed |
| Worker.LockedRowEnds | services/campaign-runner/main.py:131-246 | a locked row whose final mark reaches the store ends `sent` or `failed`, counted once as processed and once in the matching counter |
| Worker.CircuitBreaker | services/campaign-runner/main.py:183-198 | a generation success resets the campaign's count to 0, a failure adds one and at 10 pauses the campaign when the pause succeeds; nothing else changes counts or the paused set |
| Worker.BodyPresentSkipsGeneration | services/campaign-runner/main.py:142 | a row with a body is sent as is: the generation outcome plays no part |
| Worker.PausedOnlyGrows | services/campaign-runner/main.py:109-198 | the set of paused campaigns only grows during a batch |
| Worker.LaterEmailsOfPausedCampaignSkipped | services/campaign-runner/main.py:120-122 | once a campaign is paused, its later emails in the batch are skipped untouched |
| Suppression.MatchingIds | services/api/shared/webhook_processor.py:11 | the ids of exactly the contacts with the email |
| Suppression.LookupContact | services/api/shared/webhook_processor.py:5-18 | an id exactly when the lookup succeeds and exactly one contact has the email with a non-empty id; that contact's id |
| Suppression.Ledger.Record | services/api/shared/webhook_processor.py:25-124 | the three handlers: the new tables are those of the event applied to the old ones |
| Suppression.RecordedNeedsContact | services/api/shared/webhook_processor.py:35-61 | without a contact nothing changes; a failing recipients update does not stop the contacts update |
| Suppression.Recorded | services/api/shared/webhook_processor.py:25-124 | a suppression handler's new ledger; RecordedNeedsContact, FlagsOnlyRise, LastReasonWins and RecordTwiceIsOnce state its effect |
| Suppression.FlagsOnlyRise | services/api/shared/webhook_processor.py:53-122 | suppression flags are never cleared, a bounce never touches the unsubscribe flag and an unsubscribe or complaint never the bounce flag; no contact is added, removed or re-keyed |
| Suppression.LastReasonWins | services/api/shared/webhook_processor.py:55-120 | after any series of events the reason and date are the last event's, and each flag is set exactly when it was or some event of its family arrived |
| Suppression.RecordTwiceIsOnce | services/api/shared/webhook_processor.py:25-124 | repeating an event gives the tables of one event at the later time |
| Webhooks.ParseCampaignId | services/api/routers/webhooks.py:86-91 | a "name - uuid" tag gives its last segment, which holds no separator; any other value is kept |
| Webhooks.SparkpostWebhook | services/api/routers/webhooks.py:21-140 | an unreadable body is an error response with no change; otherwise the counts and ledger are those of the events walked in order |
| Webhooks.EveryEventCountedOnce | services/api/routers/webhooks.py:42-127 | every event adds exactly one to processed or to errors |
| Webhooks.InvalidIff | services/api/routers/webhooks.py:45-97 | an event is an error exactly when it lacks msys, an event key or a type, or is an email event without a recipient or a campaign id |
| Webhooks.Classify | services/api/routers/webhooks.py:45-120 | what the loop does with one event; InvalidIff states when it is an error and DispatchOnlySuppressions which events reach a handler |
| Webhooks.DispatchOnlySuppressions | services/api/routers/webhooks.py:99-115 | only bounce, unsubscribe and spam_complaint reach a handler, with the parsed campaign id and the recipient; every other valid type is processed with no effect |
| Webhooks.StepEffects | services/api/routers/webhooks.py:99-120 | a passing event leaves the ledger unchanged; a raising handler counts an error; a dispatched one applies the handler |
| Sender.KeepNameChars | services/api/shared/email_sender.py:49 | the name without the characters outside letters, digits, white space, `-` and `_`; a name made only of those is kept whole |
| Sender.SanitizeName | services/api/shared/email_sender.py:49-52 | the kept characters cut to at most 25, a prefix of them |
| Sender.Send | services/api/shared/email_sender.py:24-115 | without a key nothing is sent and the answer is false; otherwise the payload is sent and the answer is true exactly on a 2xx status, false on an exception |
| Sender.PayloadShape | services/api/shared/email_sender.py:31-64 | a body with `<` and `>` goes as HTML, any other non-empty one as text, never both; click tracking off; the reply-to only from the API sender, and the runner's payload (services/campaign-runner/email_sender.py:42-63) otherwise the same, untagged |
| Sender.TagRoundTrip | services/api/shared/email_sender.py:47-56 | the webhook's parsing of the tag gives back the campaign id, when the id holds no " - " and the cleaned name does not end in " -" |
| Sender.TagRoundTripNeedsTheGuard | services/api/shared/email_sender.py:47-56 | a name ending in " -" loses the id: the name "a -" with id "c1" parses back as "- c1" |
| Campaigns.CheckAndUpdateCompletedCampaign | services/api/routers/campaigns.py:77-148 | true exactly when the store answers, the campaign exists, is scheduled or sending, is complete, and no other request changed its status in between; only then does it become completed |
| Campaigns.CompleteIfStill | services/api/routers/campaigns.py:131-134 | the optimistic lock: the status changes only while it is still the one read |
| Campaigns.FutureCheckIsImplied | services/api/routers/campaigns.py:117-126 | with no queued and no processing row there is never a future row, so that condition adds nothing |
| Campaigns.CompletedIff | services/api/routers/campaigns.py:106-127 | complete exactly when no row is queued or processing and some row is sent or failed; staged rows do not keep a campaign open |
| Campaigns.IsCompleted | services/api/routers/campaigns.py:106-127 | no row of the campaign is queued or processing; CompletedIff states both directions |
| Campaigns.CapacityPerHour | services/api/routers/campaigns.py:306-310 | 28 domains at one email each per 3.5 minutes carry 480 emails an hour |
| Campaigns.CapacityRules | services/api/routers/campaigns.py:358-372 | a full day carries 3840; today before the start hour the full day, from the end hour nothing, in between 480 per hour left; never more than a full day |
| Campaigns.CapacityShrinks | services/api/routers/campaigns.py:362-372 | today's capacity never grows as the hour advances |
| Campaigns.RemainingBounds | services/api/routers/campaigns.py:395 | what remains is between 0 and the capacity, and is the unused part while some is unused |
| Campaigns.LabelNamesThePreviousDay | services/api/routers/campaigns.py:323-376 | the label as written is the name of the day before; a Monday is labelled "Sun" |
| Campaigns.DayOfWeekLabel | services/api/routers/campaigns.py:323-376 | `day_names[weekday()]` as written; LabelNamesThePreviousDay states that it names the day before |
| Campaigns.IntendedLabelNamesTheDay | services/api/routers/campaigns.py:323-376 | the corrected label is the day's own name, and differs from the written one on every day |
| Campaigns.BuildWeekSchedule | services/api/routers/campaigns.py:298-403 | seven entries, today first, entry k describing the day k days ahead and named with the router's weekday label of that day |
| Campaigns.WeekEntryLabels | services/api/routers/campaigns.py:323-384 | entry k carries the weekday name of the day k days ahead as `day_names[weekday()]` computes it; "Today", "Tomorrow", then that name and the month day |
| Campaigns.WeekEntryBounds | services/api/routers/campaigns.py:328-398 | each entry's remaining lies between 0 and its capacity, at most a full day; only the first is today; later days count no sent emails and have the full capacity |
| Campaigns.DayEntry | services/api/routers/campaigns.py:328-398 | one day of the schedule; WeekEntryBounds and WeekEntryLabels state its counts and labels |
| Campaigns.ValidateCreate | services/api/routers/campaigns.py:219-227 | accepted exactly when the name has at most 25 characters and the sender is one of the two; the name error comes first |
| Campaigns.CreateCampaign | services/api/routers/campaigns.py:216-241 | an invalid request or a failed insert changes nothing; otherwise one draft campaign with the request's fields is added |
| Campaigns.GenerateGuard | services/api/routers/campaigns.py:575-584 | 404 for a missing campaign; passes exactly for draft or staged |
| Campaigns.LaunchGuard | services/api/routers/campaigns.py:607-616 | 404 for a missing campaign; passes exactly for staged or draft |
| Campaigns.RetryGuard | services/api/routers/campaigns.py:638-640 | passes exactly when the campaign exists, whatever its status |
| Campaigns.GuardsAgree | services/api/routers/campaigns.py:580-616 | generate and launch admit the same campaigns; a launched campaign is refused by both but can still be retried |
| Campaigns.Applied | services/api/routers/campaigns.py:471-487 | each field the request sets is written, the others kept; a reset to draft also zeroes the recipient count |
| Campaigns.UpdateCampaign | services/api/routers/campaigns.py:451-492 | a too-long name changes nothing; otherwise a reset to draft deletes the campaign's staged rows, even for an unknown id, before the 404 or the update |
| Campaigns.DraftResetClears | services/api/routers/campaigns.py:468-487 | after a draft reset no staged row of the campaign is left, other rows are untouched, and the count is zero |
| Generate.TargetEmail | services/api/tasks/generate.py:74-79 | a chosen email is never empty |
| Generate.TargetEmailChoice | services/api/tasks/generate.py:74-82 | the selected email when truthy; otherwise the first comma-separated entry that is not blank once stripped, and none exactly when every entry is blank |
| Generate.NonBlankFirst | services/api/tasks/generate.py:76-79 | the first entry kept by the strip-and-filter is the stripped first non-blank entry, and nothing is kept exactly when all are blank |
| Generate.SkippedIff | services/api/tasks/generate.py:66-82 | a recipient is skipped exactly when it has no contact (an empty list included) or no usable email; a list of contacts uses its first |
| Generate.ContactOf | services/api/tasks/generate.py:66-71 | the first record of a list, or the single record; SkippedIff states a recipient without one is skipped |
| Generate.RowShape | services/api/tasks/generate.py:84-119 | each row is staged with an empty body, no sender, domain or time, no delay and not edited, goes to the chosen email, and its subject is the campaign's template with the row's metadata substituted |
| Generate.BuildRow | services/api/tasks/generate.py:64-119 | the staged row of one recipient, or none; RowShape, MetadataFields and SkippedIff state its fields and when it is missing |
| Generate.MetadataFields | services/api/tasks/generate.py:85-98 | the metadata holds the chosen email, the five contact fields under capitalised keys and the two name parts |
| Generate.MetadataDetails | services/api/tasks/generate.py:85-102 | no lower-case duplicate key is left, and every other detail of the contact is kept |
| Generate.NameSplit | services/api/tasks/generate.py:95-98 | a stripped name splits at its first space and the parts rejoin to it; without a space it is all first name; a blank name gives two empty parts |
| Generate.RowsCountUsable | services/api/tasks/generate.py:64-119 | at most one row per recipient; one each when all are usable, none when none are |
| Generate.InsertedCount | services/api/tasks/generate.py:121-125 | never more rows than were built |
| Generate.InsertAll | services/api/tasks/generate.py:125 | one chunk's rows are added in order under fresh ids; existing rows stay |
| Generate.InsertInChunks | services/api/tasks/generate.py:121-126 | the chunks before the one that raises are stored in order, and no existing row changes |
| Generate.ProcessGenerateTask | services/api/tasks/generate.py:17-146 | a missing campaign or no recipients changes nothing; otherwise the campaign's staged rows are replaced by the built rows, and the campaign becomes staged with their count, or draft when an insert raised |
| Variables.AsValues | services/api/tasks/generate.py:105 | the metadata as data: the same keys, each with its string |
| Variables.WordRun | services/api/shared/email.py:30 | the longest run of word characters from a position |
| Variables.PlaceholderLength | services/api/shared/email.py:30 | a placeholder match is at least five characters and within the text |
| Variables.ReplaceVariables | services/api/shared/email.py:7-30 | no data or empty data leaves the content as it is; otherwise the single left-to-right substitution |
| Variables.NoPlaceholderUnchanged | services/api/shared/email.py:30 | text in which no placeholder starts comes back unchanged |
| Variables.CopyPrefix | services/api/shared/email.py:30 | a prefix without placeholders is copied and the scan goes on after it |
| Variables.PlaceholderThenRest | services/api/shared/email.py:20-30 | a placeholder is replaced once and the scan resumes after its closing braces, so an inserted value is never scanned again |
| Variables.LookupOrder | services/api/shared/email.py:22-28 | exact, lower-case, upper-case lookups: the first truthy value wins, otherwise the upper-case lookup decides, and the placeholder stays exactly when that is None |
| Renderer.PercentBytes | services/campaign-runner/email_renderer.py:80 | three characters per byte, only `%` and hex digits |
| Renderer.QuoteChar | services/campaign-runner/email_renderer.py:80 | every character is written as itself, `+`, or percent-escapes, never empty |
| Renderer.QuotePlus | services/campaign-runner/email_renderer.py:80 | the encoded text holds only unreserved characters, `+` and `%`, and is never shorter |
| Renderer.Token | services/campaign-runner/email_renderer.py:61-64 | the token holds at most 16 characters of the digest |
| Renderer.UnsubscribeUrlShape | services/campaign-runner/email_renderer.py:52-81 | the link is the base, the path and a query of exactly two fields, the encoded email and the token; the token depends on the email only through its lower-case form and holds at most 16 characters |
| Renderer.UnsubscribeUrl | services/campaign-runner/email_renderer.py:52-81 | the unsubscribe link; UnsubscribeUrlShape states its parts |
| Renderer.SectionTextChoice | services/campaign-runner/email_renderer.py:114-155 | a personalised section shows its generated text, or a fallback naming the section (`AI Generated` for a button, `Missing Content` for text); a static one has its variables filled in |
| Renderer.TagEnd | services/campaign-runner/email_renderer.py:321 | a tag opened at the head closes at the first `>` after at least one other character |
| Renderer.StripTags | services/campaign-runner/email_renderer.py:321 | tag removal never lengthens the text and adds no character |
| Renderer.StripTagsNoTag | services/campaign-runner/email_renderer.py:321 | text without `<` is kept as it is |
| Renderer.StripTagsDropsTag | services/campaign-runner/email_renderer.py:321 | a tag at the head goes whole, whatever it holds |
| Renderer.StripTagsKeepsOpen | services/campaign-runner/email_renderer.py:321 | a `<` that no later `>` closes, or `<>`, stays as text |
| Renderer.StripAll | services/campaign-runner/email_renderer.py:319-322 | each paragraph with its tags removed, in order |
| Renderer.SectionTextLines | services/campaign-runner/email_renderer.py:292-324 | one section's lines |
| Renderer.PopTrailingBlanks | services/campaign-runner/email_renderer.py:332-333 | the loop drops exactly the trailing empty lines |
| Renderer.GenerateEmailText | services/campaign-runner/email_renderer.py:272-335 | the lines of every section in order, then a blank line, `----` and the unsubscribe line for the recipient's `Email`, joined by the separator |
| Renderer.TextEnding | services/campaign-runner/email_renderer.py:326-333 | the body always ends with a blank line, `----` and the unsubscribe line, so popping trailing empty lines changes nothing |
| Renderer.TextEndsWithFooter | services/campaign-runner/email_renderer.py:326-335 | the text ends with the separator, `----`, the separator and the unsubscribe line |
| Renderer.SectionLinesShape | services/campaign-runner/email_renderer.py:292-324 | a button gives exactly one line; a text section one tag-free line per paragraph and a blank line |
| Renderer.RunnerEmailText | services/campaign-runner/email_renderer.py:272-335 | the runner's text body: the fixed base URL, lines joined by "\n" |
| Renderer.ApiEmailText | services/api/shared/email_renderer.py:201-259 | the API's text body: the configured frontend URL, lines joined by "\r\n" |
| Renderer.SectionHtmlOf | services/campaign-runner/email_renderer.py:106-171 | one section's HTML, paragraph by paragraph |
| Renderer.GenerateEmailHtml | services/campaign-runner/email_renderer.py:84-269 | the page's title, heading, content and link are those of the sections and subject |
| Renderer.RunnerEmailHtml | services/campaign-runner/email_renderer.py:78-102 | the runner's page, linked to the fixed base URL |
| Renderer.ApiEmailHtml | services/api/shared/email_renderer.py:25-106 | the API's page, linked to the configured frontend URL |
| Renderer.NoContentIff | services/campaign-runner/email_renderer.py:240 | the "No content available" placeholder appears exactly when there are no sections |
| Renderer.ParagraphHasNoNewline | services/campaign-runner/email_renderer.py:159-169 | every line break of a paragraph becomes `<br>`: the paragraph's lines joined by `<br>`, no newline left |
| Renderer.PageHeading | services/campaign-runner/email_renderer.py:101-232 | the title is the subject with variables filled in, the heading that or "Email Preview" when empty, and the link is the recipient's |
| Prompts.InsertIndex | services/campaign-runner/prompts.py:40 | one more position, the new one added to the others |
| Prompts.SortIndices | services/campaign-runner/prompts.py:40 | one position per section |
| Prompts.InsertIndexSorted | services/campaign-runner/prompts.py:40 | inserting a later position into a stably sorted list keeps it sorted |
| Prompts.SortIndicesSpec | services/campaign-runner/prompts.py:40 | the sort is a stable ordering by `order` (0 when missing) holding every position exactly once |
| Prompts.SortedDistinct | services/campaign-runner/prompts.py:40 | a strictly ordered list of positions repeats none |
| Prompts.BuildPrompt | services/campaign-runner/prompts.py:24-110 | the outline and field lines are built line by line into the prompt text |
| Prompts.PromptText | services/campaign-runner/prompts.py:24-110 | the prompt text; BuildPrompt builds it, and OutlineOrder and FieldLinesSpec state its parts |
| Prompts.OutlineOrder | services/campaign-runner/prompts.py:40-71 | the outline lists every section once, in stable `order` order, numbered from 1 |
| Prompts.OutlineLineKind | services/campaign-runner/prompts.py:43-69 | each line starts with its number; personalised decides before button, and anything else is a static preview |
| Prompts.FieldsToUseChoice | services/campaign-runner/prompts.py:51-52 | the selected fields joined by a comma, or "any available" when none |
| Prompts.PreviewBounds | services/campaign-runner/prompts.py:65-68 | a preview holds at most 153 characters: whole up to 150, else the first 150 and `...` |
| Prompts.PreviewPlainText | services/campaign-runner/prompts.py:65-68 | a short text without tags is previewed as written |
| Prompts.RelevantFields | services/campaign-runner/prompts.py:75-78 | exactly the fields whose key does not mention "email" in any letter case |
| Prompts.FieldLinesSpec | services/campaign-runner/prompts.py:75-83 | each listed field is one of the recipient's, none mentions an email, the others are all listed; a falsy value prints as "(not provided)" |
| Prompts.RelevantFieldsOrder | services/campaign-runner/prompts.py:75-82 | the listed fields keep the recipient's order |
| Prompts.PersonalizedSections | services/campaign-runner/prompts.py:126-129 | exactly the sections whose mode is "personalized" |
| Prompts.MapReply | services/campaign-runner/prompts.py:156-158 | the loop builds the id-to-content map of the reply |
| Prompts.ResultMapKeys | services/campaign-runner/prompts.py:156-158 | the map's keys are exactly the reply's section ids |
| Prompts.ResultMapLastWins | services/campaign-runner/prompts.py:156-158 | the content under an id is that of the reply's last section with that id |
| Prompts.RunnerGenerateContent | services/campaign-runner/prompts.py:113-165 | no call without a personalised section; otherwise one call, whose error is raised again, an empty reply an error, else the reply as a map |
| Prompts.TryModel | services/api/shared/prompts.py:118-147 | one model call: its error, the empty-reply error, the validation error, or the reply as a map |
| Prompts.ApiGenerateContent | services/api/shared/prompts.py:97-163 | no call without a personalised section; otherwise the two-model fallback on the prompt |
| Prompts.TryModels | services/api/shared/prompts.py:117-163 | the loop over the models gives the fallback outcome |
| Prompts.FallbackRule | services/api/shared/prompts.py:112-163 | one or two models are asked, the first first; the second exactly when the first is rate limited; an empty reply ends the generation after one call |
| Prompts.EmptyIsNotRateLimit | services/api/shared/prompts.py:137-158 | the empty-reply error never counts as a rate limit |
| Prompts.NotRateLimitWithout | services/api/shared/prompts.py:150-156 | an error text without `4`, `l` or `q` in either case is no rate limit |
| Emails.Get | services/api/routers/emails.py:14-27 | `dict.get`: the stored value when the key is present, the default otherwise |
| Emails.Transform | services/api/routers/emails.py:11-28 | the fourteen camelCase keys, whatever columns the row has |
| Emails.TransformReads | services/api/routers/emails.py:11-28 | each key but `id` carries its column as stored; a missing column shows as None, except `isEdited` (False) and `metadata` (empty); `id` is the text of the stored id |
| Emails.DbKey | services/api/routers/emails.py:86-98 | a mapped key is renamed, any other key kept |
| Emails.BuildDbUpdates | services/api/routers/emails.py:85-99 | the loop builds the column updates |
| Emails.DbUpdatesKeys | services/api/routers/emails.py:97-99 | the columns written are exactly the renamed keys |
| Emails.DbUpdatesLastWins | services/api/routers/emails.py:97-99 | each column gets the value of the last item written to it |
| Emails.CamelKeysRenamed | services/api/routers/emails.py:86-99 | none of the eight mapped camelCase keys reaches the table |
| Emails.FieldMappingInjective | services/api/routers/emails.py:86-95 | no two mapped keys write the same column |
| Emails.UpdateKeysMatchTransform | services/api/routers/emails.py:14-95 | every key of the dashboard's email is written back to the column it is read from, except `createdAt` |
| Emails.FindMatch | services/api/routers/emails.py:58-106 | the first row with both the id and the campaign, none exactly when no row has both; an integer id matches its decimal text, as the store's cast gives |
| Emails.EmailTable.UpdateEmail | services/api/routers/emails.py:75-106 | every matching row takes the new columns, others untouched; the answer is the first updated row transformed, or 404 |
| Emails.UpdateNotFound | services/api/routers/emails.py:101-104 | without a row of that id in that campaign nothing changes and the answer is 404 |
| Emails.UpdateFrame | services/api/routers/emails.py:101 | a matching row keeps the columns not named and takes each one named; other rows are unchanged |
| Emails.UpdateRoundTrip | services/api/routers/emails.py:84-106 | the answered email shows each edited field with the value sent, when no later item wrote the same column |
| Emails.GetEmailMatchesBoth | services/api/routers/emails.py:58-70 | found exactly when a row has both the id and the campaign, and then it is that row transformed; otherwise 404 |
| Emails.GetEmail | services/api/routers/emails.py:58-70 | the email of a row matching both ids, else 404; GetEmailMatchesBoth states both directions, ShownIdFindsRow that a row is found by the id it is shown under |
| Emails.IdMatchesShownId | services/api/routers/emails.py:65 | an integer or text id matches the path id exactly when its `str()` is that text, as the store's cast of the path id to the column type gives |
| Emails.ShownIdFindsRow | services/api/routers/emails.py:58-70 | when ids are keys, get_email with the id a row is shown under answers that row's transform, for integer and text ids alike |
| Emails.WithoutMatches | services/api/routers/emails.py:118 | the rows left are exactly those not matching both the id and the campaign, integer ids matched by their decimal text |
| Emails.EmailTable.DeleteEmail | services/api/routers/emails.py:111-120 | the matching rows are removed and the answer is success either way |
| Emails.DeleteThenNotFound | services/api/routers/emails.py:111-120 | after a delete the email is not found, and every other row is kept |
| Emails.ListedPositions | services/api/routers/emails.py:43-45 | the increasing table positions of exactly the rows of the campaign (and of the status when a non-empty one is given) |
| Emails.Filtered | services/api/routers/emails.py:43-45 | only rows of the campaign, and of the status when a non-empty one is given, none added |
| Emails.Range | services/api/routers/emails.py:47 | `range(offset, offset + limit - 1)`: at most `limit` rows from `offset` |
| Emails.TransformAll | services/api/routers/emails.py:53 | each listed row transformed, in order |
| Emails.ListEmailsBounds | services/api/routers/emails.py:33-53 | at most `limit` emails, each the transform of a row passing the filters |
| Emails.ListEmails | services/api/routers/emails.py:33-53 | a page of the filtered rows, newest first; ListEmailsBounds, ListEmailsPageOrder, ListEmailsComplete and ListEmailsPages state its guarantees |
| Emails.ListedIdsFindTheirEmails | services/api/routers/emails.py:33-70 | every email of a listed page is found again by get_email with the id it shows |
| Emails.ListEmailsPageOrder | services/api/routers/emails.py:43-53 | each email of a page is the transform of a listed row, and the page's rows are in strictly descending table order (newest first) |
| Emails.ListEmailsComplete | services/api/routers/emails.py:43-53 | from offset 0 with a limit at least the table size, every row passing the filters is listed |
| Emails.ListEmailsPages | services/api/routers/emails.py:47 | consecutive pages join into one longer page |
| Emails.ListEmailsNewestFirst | services/api/routers/emails.py:47 | the first email listed is the newest row passing the filters |
| Recipients.SelectedFor | services/api/routers/recipients.py:53 | the selected address exactly when the map names the contact |
| Recipients.RequestedRows | services/api/routers/recipients.py:46-54 | one row per contact id, in request order, with its selected address |
| Recipients.BuildRows | services/api/routers/recipients.py:46-54 | the loop builds the requested rows, with `selected_emails or {}` |
| Recipients.RequestedRowsShape | services/api/routers/recipients.py:49-54 | every contact gets a row, duplicates included; a row has a selected address exactly when the map names its contact |
| Recipients.Select | services/api/routers/recipients.py:18-57 | only rows of (or, for the delete, not of) the campaign, never more than the table holds |
| Recipients.SelectMembers | services/api/routers/recipients.py:18-57 | every selected row is from the table, and every table row on the selected side is selected |
| Recipients.ListRecipients | services/api/routers/recipients.py:18-27 | exactly the campaign's rows |
| Recipients.ReplaceSemantics | services/api/routers/recipients.py:56-60 | afterwards the campaign lists exactly the requested rows in request order, and every other campaign lists what it did |
| Recipients.AddRecipients | services/api/routers/recipients.py:31-67 | 404 with nothing changed for a missing campaign; otherwise the rows are replaced, the total set to their number, and that number answered |
| Recipients.CountMatchesRows | services/api/routers/recipients.py:62-67 | the count answered and stored is the number of the campaign's rows afterwards |
| Auth.B64Value | services/api/middleware/auth.py:33 | a character decodes to a sextet only when it is the alphabet's character for that sextet |
| Auth.BytesOfSextets | services/api/middleware/auth.py:33 | the sextets of three bytes reassemble into the same three bytes |
| Auth.B64Encode | services/api/middleware/auth.py:33 | the encoding's length is a multiple of four |
| Auth.B64Decode | services/api/middleware/auth.py:33 | decoding yields bytes, or fails |
| Auth.B64RoundTrip | services/api/middleware/auth.py:33 | decoding the base64 encoding of any byte string gives back the bytes |
| Auth.Utf8RoundTrip | services/api/middleware/auth.py:33 | decoding the UTF-8 encoding of any text gives back the text |
| Auth.SplitCredentials | services/api/middleware/auth.py:34 | the first part holds no colon, and the parts joined by a colon are the decoded text |
| Auth.AfterBasicPrefix | services/api/middleware/auth.py:28-32 | after `Basic ` the encoded part is everything from the seventh character on |
| Auth.SplitAtEmailColon | services/api/middleware/auth.py:34 | a colon-free email and any password come back as they were joined |
| Auth.CredentialsRoundTrip | services/api/middleware/auth.py:28-36 | the header a client builds from an email and password is read back as them |
| Auth.VerifyAdminAccepts | services/api/middleware/auth.py:25-51 | the right header and password let the admin in with id, email and role; a wrong password or an unknown email is "Invalid credentials" |
| Auth.VerifyAdmin | services/api/middleware/auth.py:25-51 | the admin of a Basic header, or 401; VerifyAdminAccepts, VerifyAdminOutcomes and CredentialsRoundTrip state its outcomes |
| Auth.VerifyAdminOutcomes | services/api/middleware/auth.py:25-51 | a missing or empty header is "Missing authorization header", a non-Basic or undecodable one "Invalid authorization format", and a success names an admin whose stored password is the one sent |
| Auth.MalformedHeaders | services/api/middleware/auth.py:31-36 | a header whose payload is not base64, or whose text has no colon, is "Invalid authorization format" |

## Left out

- Supabase and HTTP I/O are not modelled. Tables are in-memory maps or sequences. The store calls the model gives a failure input are the runner's queue updates, the suppression handlers' updates, the generate task's chunk inserts, and the routes' lookups and inserts. The provider's answer is an input too.
- Launch.ProcessLaunchTask: the task stops early only on the IndexError of a pre-set domain index. A store call that raises is not modelled: the coordination listing (services/api/tasks/launch.py:85), a row update (178-183) or the campaign update (189-192), each caught at 197 with the earlier row updates kept.
- RetryFailed.ProcessRetryFailedTask: the same holds for its coordination listing and its row updates (services/api/tasks/retry_failed.py:150-157), caught at 161.
- Generate.ProcessGenerateTask: only a failing chunk insert is an input. A failure of the staged-row delete (services/api/tasks/generate.py:58) or of the final campaign update (133) is not modelled. In the source, either is caught at 137-145, which sets the campaign back to draft.
- Launch.ProcessLaunchTask and RetryFailed.ProcessRetryFailedTask take the coordination listing as an input. They require it to list every queued or processing row of the table and to be sorted newest first. That is what the paged query at services/api/tasks/launch.py:83-97 gathers.
- The time-zone database and DST are not modelled, because local time is a fixed offset. `create_date_in_timezone`'s fold handling has no counterpart.
- The stored timestamps are integers. Comparing naive local ISO strings against UTC timestamps is not modelled.
- The interval of 3.5 minutes is exact: 210 000 ms. The capacity products use exact integers, and bit-equal float results are not promised.
- `random.random()` jitter is an input bounded by the 30-second maximum.
- The HMAC-SHA256 unsubscribe token is an uninterpreted input, because cryptography is outside the model. Only the URL shape around it is modelled.
- `\w`, `\s` and case mapping cover ASCII only. Python's Unicode classes are not modelled.
- The renderers' `<strong>` rewrite is an identity on the text it is given. The large HTML boilerplate literals are fixed prefix and suffix strings around the section HTML.
- The Gemini and Groq calls and their JSON schema validation are abstract outcomes: success with content, a rate-limit error, or another error. This applies to both prompt modules.
- Subject generation in the campaigns router is left out because it is only an AI call.
- Content generation, the campaign pause and the provider send inside the worker are abstract outcomes. Their calls in the runner do not match the functions they name.
- The worker's `get_campaign` name lookup and its check of the email id are not modelled.
- Asyncio sleeps, the endless main loop, `asyncio.gather` over completion checks, `KeyboardInterrupt` and background tasks are not modelled. One batch and one cycle are modelled sequentially.
- Auth.B64Decode: accepts only strict base64 (whole groups of the alphabet, padding at the end). Python's leniency about other characters is not modelled.
- Auth.VerifyAdmin: the admin table is a map keyed by email. The error `.single()` raises when several rows share an email is not modelled.
- Recipients.AddRecipients: a store failure between the delete and the insert is not modelled. The count update is taken to succeed.
- Recipients.ListRecipients: the joined contact columns are not part of the rows.
- Emails.ListEmails: requires a non-negative limit and offset. What the database answers for a range with negative bounds is not modelled.
- `created_at` order is taken to be insertion order wherever the source sorts by it.
- Emails.IdMatches: the store casts the path id to the integer column, so text such as "05" or " 5" also finds row 5, and text that is not a number makes the call fail. The model matches an integer id only against its decimal form, and treats other text as matching no integer row.
- Emails.PyStr: the `str()` of a non-empty object is a fixed placeholder, not Python's full representation. Only the `id` column goes through it.
- Generate.ContactOf: a contact given as an empty object is falsy in Python, but the model treats every single record as present.
- Campaigns.UpdateCampaign: a campaign row holds only the name, sender, status, recipient count and subject. The update's templateSlug, sections, emailFormat and subjectPrompt fields (services/api/routers/campaigns.py:470-481) are not modelled, and neither is `updated_at`.
- Campaigns.BuildWeekSchedule: the entries' date strings and month days are not modelled. Only the weekday label, the capacity and the remaining count are.
- The configuration modules, the app wiring, the database client and the user-event-email service are not modelled, because they only read settings, connect or log.

## Findings

| source | as written | input that shows it | evidently intended | confidence | as-written member | corrected member |
|---|---|---|---|---|---|---|
| services/api/routers/campaigns.py:323-376 | the week schedule labels a day with `day_names[day_date.weekday()]`, where `day_names` starts with Sunday but `weekday()` counts Monday as 0 | any Monday (t = 0): labelled "Sun" | the day's own name, "Mon" for a Monday | not executed | Campaigns.LabelNamesThePreviousDay | Campaigns.IntendedLabelNamesTheDay |
