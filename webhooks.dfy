/** The provider webhook (services/api/routers/webhooks.py): each event of
    the payload is classified, the campaign id is recovered from the
    provider tag, the suppression handlers are called, and every event is
    counted once as processed or as an error. */
module Webhooks {
  import opened Wrappers
  import opened Text
  import opened Scheduling
  import opened Suppression

  /** The fields of an event the router reads; a missing key is None. */
  datatype EventData = EventData(
    eventType: Option<string>,
    rcptTo: Option<string>,
    rawRcptTo: Option<string>,
    smsDst: Option<string>,
    campaignId: Option<string>)

  /** The `msys` object and which of the three event keys it holds. */
  datatype Msys = Msys(messageEvent: Option<EventData>, trackEvent: Option<EventData>,
                       unsubscribeEvent: Option<EventData>)

  /** One element of the payload: with or without an `msys` key. */
  datatype Wrapper = Wrapper(msys: Option<Msys>)

  /** The request body: a list, any other JSON value (one event), or a body
      that could not be read. */
  datatype Payload = EventList(events: seq<Wrapper>) | SingleEvent(event: Wrapper) | Unreadable(reason: string)

  datatype Response = Processed(eventsProcessed: nat, errors: nat) | ErrorResponse(message: string)

  /** What the router does with one event. */
  datatype Verdict = Invalid | Pass | Dispatch(kind: Suppression, campaignId: string, recipient: string)

  const SEPARATOR: string := " - "

  const EMAIL_EVENTS: seq<string> := ["bounce", "unsubscribe", "spam_complaint", "delivery", "click", "open", "initial_open"]

  function Last(parts: seq<string>): string
    requires parts != []
  {
    parts[|parts| - 1]
  }

  /** A tag of the form "name - uuid" gives its last " - " segment; any
      other value is kept. */
  function ParseCampaignId(c: Option<string>): (r: Option<string>)
    ensures Truthy(c) && Contains(c.value, SEPARATOR) ==> r == Some(Last(Split(c.value, SEPARATOR)))
    ensures !(Truthy(c) && Contains(c.value, SEPARATOR)) ==> r == c
    ensures Truthy(c) ==> r.Some? && !Contains(r.value, SEPARATOR)
  {
    if Truthy(c) && Contains(c.value, SEPARATOR) then
      SplitPartsFree(c.value, SEPARATOR);
      Some(Last(Split(c.value, SEPARATOR)))
    else c
  }

  /** The event object under the first of the three keys present. */
  function EventOf(m: Msys): Option<EventData> {
    if m.messageEvent.Some? then m.messageEvent
    else if m.trackEvent.Some? then m.trackEvent
    else m.unsubscribeEvent
  }

  function RecipientOf(d: EventData): Option<string>
    requires d.eventType.Some?
  {
    if d.eventType.value in EMAIL_EVENTS then Or(d.rcptTo, d.rawRcptTo)
    else if d.eventType.value == "sms_status" then d.smsDst
    else None
  }

  function Classify(w: Wrapper): Verdict {
    if w.msys.None? || EventOf(w.msys.value).None? then Invalid
    else
      var d := EventOf(w.msys.value).value;
      if !Truthy(d.eventType) then Invalid
      else
        var t := d.eventType.value;
        var recipient := RecipientOf(d);
        var campaignId := ParseCampaignId(d.campaignId);
        if t in EMAIL_EVENTS && !Truthy(recipient) then Invalid
        else if t in EMAIL_EVENTS && !Truthy(campaignId) then Invalid
        else if t == "bounce" then Dispatch(Bounce, campaignId.value, recipient.value)
        else if t == "unsubscribe" then Dispatch(Unsubscribe, campaignId.value, recipient.value)
        else if t == "spam_complaint" then Dispatch(SpamComplaint, campaignId.value, recipient.value)
        else Pass
  }

  /** The counters and the ledger while the events are walked. */
  datatype Progress = Progress(ledger: LedgerState, processed: nat, errors: nat)

  /** One event: an invalid one and one whose handler raised (the admin
      client could not be created) are errors; every other one is
      processed, `delivery` and the types without a handler with no effect. */
  function EventStep(p: Progress, w: Wrapper, env: StoreEnv, now: Time): Progress {
    match Classify(w)
    case Invalid => p.(errors := p.errors + 1)
    case Pass => p.(processed := p.processed + 1)
    case Dispatch(k, c, r) =>
      if !env.adminUp then p.(errors := p.errors + 1)
      else Progress(Recorded(p.ledger, k, c, r, now, env), p.processed + 1, p.errors)
  }

  function Walk(p: Progress, events: seq<Wrapper>, envs: seq<StoreEnv>, now: Time, n: nat): Progress
    requires n <= |events| <= |envs|
  {
    if n == 0 then p else EventStep(Walk(p, events, envs, now, n - 1), events[n - 1], envs[n - 1], now)
  }

  function EventsOf(payload: Payload): seq<Wrapper>
    requires !payload.Unreadable?
  {
    if payload.EventList? then payload.events else [payload.event]
  }

  /** sparkpost_webhook. */
  method SparkpostWebhook(ledger: Ledger, payload: Payload, envs: seq<StoreEnv>, now: Time) returns (response: Response)
    requires !payload.Unreadable? ==> |EventsOf(payload)| <= |envs|
    modifies ledger
    ensures payload.Unreadable? ==>
      response == ErrorResponse("Failed to process webhook: " + payload.reason) && ledger.State() == old(ledger.State())
    ensures !payload.Unreadable? ==>
      var p := Walk(Progress(old(ledger.State()), 0, 0), EventsOf(payload), envs, now, |EventsOf(payload)|);
      response == Processed(p.processed, p.errors) && ledger.State() == p.ledger
  {
    if payload.Unreadable? {
      return ErrorResponse("Failed to process webhook: " + payload.reason);
    }
    var events := if payload.EventList? then payload.events else [payload.event];
    ghost var start := ledger.State();
    var processed := 0;
    var errors := 0;
    var i := 0;
    while i < |events|
      invariant 0 <= i <= |events|
      invariant Progress(ledger.State(), processed, errors) == Walk(Progress(start, 0, 0), events, envs, now, i)
    {
      var verdict := Classify(events[i]);
      match verdict {
        case Invalid =>
          errors := errors + 1;
        case Pass =>
          processed := processed + 1;
        case Dispatch(k, c, r) =>
          if !envs[i].adminUp {
            errors := errors + 1;
          } else {
            ledger.Record(k, c, r, now, envs[i]);
            processed := processed + 1;
          }
      }
      i := i + 1;
    }
    return Processed(processed, errors);
  }

  // ---------------------------------------------------------------------
  // What the router guarantees

  /** Every event is counted exactly once. */
  lemma {:induction false} EveryEventCountedOnce(p: Progress, events: seq<Wrapper>, envs: seq<StoreEnv>, now: Time, n: nat)
    requires n <= |events| <= |envs|
    ensures var q := Walk(p, events, envs, now, n);
      q.processed + q.errors == p.processed + p.errors + n
      && q.processed >= p.processed && q.errors >= p.errors
  {
    if n > 0 {
      EveryEventCountedOnce(p, events, envs, now, n - 1);
    }
  }

  /** An event is an error exactly when it has no `msys`, none of the three
      event keys, no type, or is an email event without a recipient or
      without a campaign id. */
  lemma InvalidIff(w: Wrapper)
    ensures Classify(w) == Invalid <==>
      || w.msys.None?
      || EventOf(w.msys.value).None?
      || !Truthy(EventOf(w.msys.value).value.eventType)
      || (var d := EventOf(w.msys.value).value;
          d.eventType.value in EMAIL_EVENTS
          && (!Truthy(Or(d.rcptTo, d.rawRcptTo)) || !Truthy(ParseCampaignId(d.campaignId))))
  {
  }

  /** Only bounce, unsubscribe and spam_complaint reach a handler; the
      handler receives the parsed campaign id and the recipient. A
      `delivery`, `click` or `open` that passes the checks is processed with
      no effect, as is every other type. */
  lemma DispatchOnlySuppressions(w: Wrapper)
    ensures Classify(w).Dispatch? ==>
      var d := EventOf(w.msys.value).value;
      && d.eventType == Some(ReasonOf(Classify(w).kind))
      && Some(Classify(w).campaignId) == ParseCampaignId(d.campaignId)
      && Some(Classify(w).recipient) == Or(d.rcptTo, d.rawRcptTo)
    ensures Classify(w) != Invalid && w.msys.Some? && EventOf(w.msys.value).Some?
            && EventOf(w.msys.value).value.eventType.Some?
            && EventOf(w.msys.value).value.eventType.value !in ["bounce", "unsubscribe", "spam_complaint"]
            ==> Classify(w) == Pass
  {
  }

  /** A passing event leaves the ledger as it was; a handler error counts
      as an error and the walk goes on with the next event. */
  lemma StepEffects(p: Progress, w: Wrapper, env: StoreEnv, now: Time)
    ensures Classify(w) == Pass ==> EventStep(p, w, env, now) == p.(processed := p.processed + 1)
    ensures Classify(w).Dispatch? && !env.adminUp ==> EventStep(p, w, env, now) == p.(errors := p.errors + 1)
    ensures Classify(w).Dispatch? && env.adminUp ==>
      EventStep(p, w, env, now).ledger == Recorded(p.ledger, Classify(w).kind, Classify(w).campaignId, Classify(w).recipient, now, env)
  {
  }
}
