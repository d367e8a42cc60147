/** The suppression ledger (services/api/shared/webhook_processor.py):
    what a bounce, an unsubscribe or a spam complaint writes to the
    `contacts` and `campaign_recipients` tables. Each store call may fail;
    a failure is an input flag, and the code logs it and carries on. */
module Suppression {
  import opened Wrappers
  import opened Scheduling

  datatype Contact = Contact(
    id: string,
    email: string,
    globallyBounced: bool,
    globallyUnsubscribed: bool,
    reason: Option<string>,
    suppressedAt: Option<Time>)

  datatype Recipient = Recipient(
    campaignId: string,
    contactId: string,
    status: string,
    bouncedAt: Option<Time>,
    unsubscribedAt: Option<Time>)

  datatype Suppression = Bounce | Unsubscribe | SpamComplaint

  /** Which store calls of one handler succeed: the admin client, the
      contact lookup, the recipients update and the contacts update. */
  datatype StoreEnv = StoreEnv(adminUp: bool, lookupUp: bool, recipientsUp: bool, contactsUp: bool)

  datatype LedgerState = LedgerState(contacts: seq<Contact>, recipients: seq<Recipient>)

  function ReasonOf(k: Suppression): string {
    match k
    case Bounce => "bounce"
    case Unsubscribe => "unsubscribe"
    case SpamComplaint => "spam_complaint"
  }

  function RecipientStatusOf(k: Suppression): string {
    match k
    case Bounce => "bounced"
    case Unsubscribe => "unsubscribed"
    case SpamComplaint => "spam_complaint"
  }

  /** The ids of the contacts with this email, in table order. */
  function MatchingIds(contacts: seq<Contact>, email: string): (r: seq<string>)
    ensures |r| <= |contacts|
    ensures forall x :: x in r <==> exists i :: 0 <= i < |contacts| && contacts[i].email == email && contacts[i].id == x
  {
    if contacts == [] then []
    else
      var rest := MatchingIds(contacts[1..], email);
      assert forall i :: 0 < i < |contacts| ==> contacts[i] == contacts[1..][i - 1];
      if contacts[0].email == email then [contacts[0].id] + rest else rest
  }

  /** get_contact_id_by_email: `.single()` answers only when exactly one
      contact has the email; no row, several rows and a store error all
      give None, and so does an empty id. */
  function LookupContact(contacts: seq<Contact>, email: string, lookupUp: bool): (r: Option<string>)
    ensures r.Some? <==> lookupUp && |MatchingIds(contacts, email)| == 1 && MatchingIds(contacts, email)[0] != ""
    ensures r.Some? ==> r.value != "" && exists i :: 0 <= i < |contacts| && contacts[i].email == email && contacts[i].id == r.value
  {
    var ids := MatchingIds(contacts, email);
    if lookupUp && |ids| == 1 && ids[0] != "" then
      assert ids[0] in ids;
      Some(ids[0])
    else None
  }

  /** The contacts update of one handler, on one row. Only the flag of the
      event's family is set, and only ever to true. */
  function SuppressContact(c: Contact, k: Suppression, now: Time): Contact {
    match k
    case Bounce => c.(globallyBounced := true, reason := Some(ReasonOf(k)), suppressedAt := Some(now))
    case _ => c.(globallyUnsubscribed := true, reason := Some(ReasonOf(k)), suppressedAt := Some(now))
  }

  /** The campaign_recipients update of one handler, on one row; a spam
      complaint writes no timestamp. */
  function MarkRecipient(r: Recipient, k: Suppression, now: Time): Recipient {
    match k
    case Bounce => r.(status := RecipientStatusOf(k), bouncedAt := Some(now))
    case Unsubscribe => r.(status := RecipientStatusOf(k), unsubscribedAt := Some(now))
    case SpamComplaint => r.(status := RecipientStatusOf(k))
  }

  /** `update(...).eq('email', email)` on contacts. */
  function UpdateContacts(contacts: seq<Contact>, email: string, k: Suppression, now: Time): (r: seq<Contact>)
    ensures |r| == |contacts|
    ensures forall i :: 0 <= i < |contacts| ==>
      r[i] == if contacts[i].email == email then SuppressContact(contacts[i], k, now) else contacts[i]
  {
    seq(|contacts|, i requires 0 <= i < |contacts| =>
      if contacts[i].email == email then SuppressContact(contacts[i], k, now) else contacts[i])
  }

  /** `update(...).eq('campaign_id', c).eq('contact_id', id)` on recipients. */
  function UpdateRecipients(recipients: seq<Recipient>, campaignId: string, contactId: string,
                            k: Suppression, now: Time): (r: seq<Recipient>)
    ensures |r| == |recipients|
    ensures forall i :: 0 <= i < |recipients| ==>
      r[i] == if recipients[i].campaignId == campaignId && recipients[i].contactId == contactId
              then MarkRecipient(recipients[i], k, now) else recipients[i]
  {
    seq(|recipients|, i requires 0 <= i < |recipients| =>
      if recipients[i].campaignId == campaignId && recipients[i].contactId == contactId
      then MarkRecipient(recipients[i], k, now) else recipients[i])
  }

  /** The whole handler: nothing without a contact; otherwise the two
      updates, each applied only when its store call succeeds. */
  function Recorded(s: LedgerState, k: Suppression, campaignId: string, email: string, now: Time, env: StoreEnv): LedgerState {
    var id := LookupContact(s.contacts, email, env.lookupUp);
    if id.None? then s
    else LedgerState(
      if env.contactsUp then UpdateContacts(s.contacts, email, k, now) else s.contacts,
      if env.recipientsUp then UpdateRecipients(s.recipients, campaignId, id.value, k, now) else s.recipients)
  }

  class Ledger {
    var contacts: seq<Contact>
    var recipients: seq<Recipient>

    constructor (contacts0: seq<Contact>, recipients0: seq<Recipient>)
      ensures contacts == contacts0 && recipients == recipients0
    {
      contacts := contacts0;
      recipients := recipients0;
    }

    function State(): LedgerState
      reads this
    {
      LedgerState(contacts, recipients)
    }

    /** record_bounce, record_unsubscribe and record_spam_complaint, which
        differ only in the values they write. */
    method Record(k: Suppression, campaignId: string, email: string, now: Time, env: StoreEnv)
      modifies this
      ensures State() == Recorded(old(State()), k, campaignId, email, now, env)
    {
      var contactId := LookupContact(contacts, email, env.lookupUp);
      if contactId.None? {
        return;
      }
      if env.recipientsUp {
        recipients := UpdateRecipients(recipients, campaignId, contactId.value, k, now);
      }
      if env.contactsUp {
        contacts := UpdateContacts(contacts, email, k, now);
      }
    }
  }

  // ---------------------------------------------------------------------
  // What the ledger guarantees

  /** Without a matching contact a handler changes nothing; a failed
      recipients update does not stop the contacts update. */
  lemma RecordedNeedsContact(s: LedgerState, k: Suppression, campaignId: string, email: string, now: Time, env: StoreEnv)
    ensures LookupContact(s.contacts, email, env.lookupUp).None? ==> Recorded(s, k, campaignId, email, now, env) == s
    ensures LookupContact(s.contacts, email, env.lookupUp).Some? && env.contactsUp ==>
      Recorded(s, k, campaignId, email, now, env).contacts == UpdateContacts(s.contacts, email, k, now)
    ensures Recorded(s, k, campaignId, email, now, env.(recipientsUp := false)).contacts
         == Recorded(s, k, campaignId, email, now, env).contacts
  {
  }

  /** Flags only rise, and each event touches only its own family's flag:
      a bounce never changes `globallyUnsubscribed`, an unsubscribe or a
      spam complaint never changes `globallyBounced`. No contact is added,
      removed or re-keyed. */
  lemma FlagsOnlyRise(s: LedgerState, k: Suppression, campaignId: string, email: string, now: Time, env: StoreEnv)
    ensures var r := Recorded(s, k, campaignId, email, now, env);
      && |r.contacts| == |s.contacts|
      && forall i :: 0 <= i < |s.contacts| ==>
        && r.contacts[i].id == s.contacts[i].id && r.contacts[i].email == s.contacts[i].email
        && (s.contacts[i].globallyBounced ==> r.contacts[i].globallyBounced)
        && (s.contacts[i].globallyUnsubscribed ==> r.contacts[i].globallyUnsubscribed)
        && (k == Bounce ==> r.contacts[i].globallyUnsubscribed == s.contacts[i].globallyUnsubscribed)
        && (k != Bounce ==> r.contacts[i].globallyBounced == s.contacts[i].globallyBounced)
  {
  }

  /** The contact row after a series of events. */
  function ApplyAll(c: Contact, events: seq<(Suppression, Time)>): Contact
    decreases |events|
  {
    if events == [] then c
    else ApplyAll(SuppressContact(c, events[0].0, events[0].1), events[1..])
  }

  /** The reason is last-write-wins, while each flag records whether any
      event of its family ever arrived. */
  lemma {:induction false} LastReasonWins(c: Contact, events: seq<(Suppression, Time)>)
    requires events != []
    decreases |events|
    ensures var r := ApplyAll(c, events);
      && r.reason == Some(ReasonOf(events[|events| - 1].0))
      && r.suppressedAt == Some(events[|events| - 1].1)
      && (r.globallyBounced <==> c.globallyBounced || exists i :: 0 <= i < |events| && events[i].0 == Bounce)
      && (r.globallyUnsubscribed <==> c.globallyUnsubscribed || exists i :: 0 <= i < |events| && events[i].0 != Bounce)
      && r.id == c.id && r.email == c.email
  {
    var next := SuppressContact(c, events[0].0, events[0].1);
    if |events| > 1 {
      LastReasonWins(next, events[1..]);
      assert forall i :: 1 <= i < |events| ==> events[i] == events[1..][i - 1];
      assert forall i :: 0 <= i < |events| - 1 ==> events[1..][i] == events[i + 1];
    }
  }

  /** The lookup depends only on the ids and emails of the contacts. */
  lemma {:induction false} MatchingIdsKeep(a: seq<Contact>, b: seq<Contact>, email: string)
    requires |a| == |b| && forall i :: 0 <= i < |a| ==> a[i].id == b[i].id && a[i].email == b[i].email
    ensures MatchingIds(a, email) == MatchingIds(b, email)
  {
    if a != [] {
      MatchingIdsKeep(a[1..], b[1..], email);
    }
  }

  lemma UpdateContactsTwice(contacts: seq<Contact>, email: string, k: Suppression, t1: Time, t2: Time)
    ensures UpdateContacts(UpdateContacts(contacts, email, k, t1), email, k, t2) == UpdateContacts(contacts, email, k, t2)
  {
  }

  lemma UpdateRecipientsTwice(recipients: seq<Recipient>, campaignId: string, contactId: string,
                              k: Suppression, t1: Time, t2: Time)
    ensures UpdateRecipients(UpdateRecipients(recipients, campaignId, contactId, k, t1), campaignId, contactId, k, t2)
         == UpdateRecipients(recipients, campaignId, contactId, k, t2)
  {
  }

  /** Applying the same event twice leaves the flags, the reason and the
      statuses as applying it once; only the timestamps move to the later
      event. */
  lemma RecordTwiceIsOnce(s: LedgerState, k: Suppression, campaignId: string, email: string, t1: Time, t2: Time, env: StoreEnv)
    ensures Recorded(Recorded(s, k, campaignId, email, t1, env), k, campaignId, email, t2, env)
         == Recorded(s, k, campaignId, email, t2, env)
  {
    var once := Recorded(s, k, campaignId, email, t1, env);
    MatchingIdsKeep(s.contacts, once.contacts, email);
    var id := LookupContact(s.contacts, email, env.lookupUp);
    if id.Some? {
      UpdateContactsTwice(s.contacts, email, k, t1, t2);
      UpdateRecipientsTwice(s.recipients, campaignId, id.value, k, t1, t2);
    }
  }
}
