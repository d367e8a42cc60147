/** process_generate_task (services/api/tasks/generate.py): one staged
    queue row per usable recipient, with the recipient's metadata and the
    subject template filled in, inserted in chunks of 100 after the
    campaign's old staged rows are deleted. */
module Generate {
  import opened Wrappers
  import opened Text
  import opened Variables
  import opened QueueStore
  import opened CampaignStore
  import opened Launch

  const CHUNK_SIZE: nat := 100

  /** The joined `contacts` record of a recipient row. */
  datatype ContactData = ContactData(
    email: Option<string>,
    name: Option<string>,
    company: Option<string>,
    role: Option<string>,
    location: Option<string>,
    details: Option<map<string, string>>)

  /** The `contacts` field as the join returns it: absent, one record, or
      a list of records. */
  datatype ContactField = NoContact | Single(contact: ContactData) | Listed(contacts: seq<ContactData>)

  datatype RecipientRow = RecipientRow(selectedEmail: Option<string>, contact: ContactField)

  datatype GenerateOutcome = MissingCampaign | NoRecipients | StagedRows(count: nat) | ResetToDraft(inserted: nat)

  /** The contact to use: a list gives its first element, an empty list or
      no record gives none. */
  function ContactOf(f: ContactField): Option<ContactData> {
    match f
    case NoContact => None
    case Single(c) => Some(c)
    case Listed(cs) => if |cs| > 0 then Some(cs[0]) else None
  }

  function OrEmpty(v: Option<string>): string {
    if v.Some? then v.value else ""
  }

  /** The stripped, non-blank entries of a comma-separated list, in order. */
  function NonBlank(parts: seq<string>): (r: seq<string>)
    ensures forall x :: x in r ==> x != []
  {
    if parts == [] then []
    else
      var rest := NonBlank(parts[1..]);
      if Strip(parts[0]) != [] then [Strip(parts[0])] + rest else rest
  }

  /** The first candidate is the first entry that is not blank once
      stripped; there is none exactly when every entry is blank. */
  lemma {:induction false} NonBlankFirst(parts: seq<string>)
    ensures NonBlank(parts) == [] <==> forall j :: 0 <= j < |parts| ==> Strip(parts[j]) == []
    ensures NonBlank(parts) != [] ==>
      exists j :: 0 <= j < |parts| && NonBlank(parts)[0] == Strip(parts[j]) && forall k :: 0 <= k < j ==> Strip(parts[k]) == []
  {
    if parts != [] {
      var rest := parts[1..];
      NonBlankFirst(rest);
      if Strip(parts[0]) == [] {
        assert NonBlank(parts) == NonBlank(rest);
        AllBlankShift(parts);
        if NonBlank(rest) != [] {
          var j :| 0 <= j < |rest| && NonBlank(rest)[0] == Strip(rest[j])
            && forall k :: 0 <= k < j ==> Strip(rest[k]) == [];
          BlankPrefixShift(parts, j);
        }
      } else {
        assert NonBlank(parts)[0] == Strip(parts[0]);
      }
    }
  }

  /** Behind a blank first entry, every entry is blank exactly when every
      later one is. */
  lemma AllBlankShift(parts: seq<string>)
    requires parts != [] && Strip(parts[0]) == []
    ensures (forall j :: 0 <= j < |parts| ==> Strip(parts[j]) == [])
        <==> (forall j :: 0 <= j < |parts[1..]| ==> Strip(parts[1..][j]) == [])
  {
    assert forall j :: 1 <= j < |parts| ==> parts[j] == parts[1..][j - 1];
  }

  /** Behind a blank first entry, a blank prefix of the later entries is
      one entry longer counted from the start. */
  lemma BlankPrefixShift(parts: seq<string>, j: int)
    requires parts != [] && Strip(parts[0]) == [] && 0 <= j < |parts| - 1
    requires forall k :: 0 <= k < j ==> Strip(parts[1..][k]) == []
    ensures parts[j + 1] == parts[1..][j]
    ensures forall k :: 0 <= k < j + 1 ==> Strip(parts[k]) == []
  {
    forall k | 0 <= k < j + 1 ensures Strip(parts[k]) == [] {
      if k > 0 {
        assert parts[k] == parts[1..][k - 1];
      }
    }
  }

  function EmailCandidates(email: Option<string>): seq<string> {
    NonBlank(Split(OrEmpty(email), ","))
  }

  /** `selected_email` when truthy, else the first non-blank entry of the
      contact's comma-separated email. */
  function TargetEmail(selected: Option<string>, c: ContactData): (r: Option<string>)
    ensures r.Some? ==> r.value != []
  {
    if Truthy(selected) then selected
    else
      var candidates := EmailCandidates(c.email);
      if candidates != [] then
        assert candidates[0] in candidates;
        Some(candidates[0])
      else None
  }

  /** The target is `selected_email` when truthy; otherwise it is the
      first entry of the comma-split contact email that is not blank once
      stripped, and there is none exactly when every entry is blank. */
  lemma TargetEmailChoice(selected: Option<string>, c: ContactData, parts: seq<string>)
    requires parts == Split(OrEmpty(c.email), ",")
    ensures Truthy(selected) ==> TargetEmail(selected, c) == selected
    ensures !Truthy(selected) ==>
      (TargetEmail(selected, c).None? <==> forall j :: 0 <= j < |parts| ==> Strip(parts[j]) == [])
    ensures !Truthy(selected) && TargetEmail(selected, c).Some? ==>
      exists j :: 0 <= j < |parts| && TargetEmail(selected, c).value == Strip(parts[j])
        && forall k :: 0 <= k < j ==> Strip(parts[k]) == []
  {
    NonBlankFirst(parts);
    assert EmailCandidates(c.email) == NonBlank(parts);
  }

  /** `full_name.strip().split(" ", 1)`, blank names giving two empty
      parts. */
  function NameParts(name: Option<string>): (string, string) {
    var stripped := Strip(OrEmpty(name));
    if stripped == [] then ("", "")
    else
      var i := FindFrom(stripped, " ", 0);
      if i == -1 then (stripped, "") else (stripped[..i], stripped[i + 1..])
  }

  const LOWERCASE_KEYS: set<string> := {"name", "email", "company", "role", "location"}

  /** The metadata row: `details` first, the five contact fields over it,
      the two name parts, and the lower-case duplicates removed. */
  function Metadata(c: ContactData, target: string): map<string, string> {
    MetadataWith(c, target, NameParts(c.name))
  }

  function MetadataWith(c: ContactData, target: string, parts: (string, string)): map<string, string> {
    var details := if c.details.Some? then c.details.value else map[];
    var fields := details + map["Name" := OrEmpty(c.name), "Email" := target, "Company" := OrEmpty(c.company),
                                "Role" := OrEmpty(c.role), "Location" := OrEmpty(c.location)];
    fields["FirstName" := parts.0]["LastName" := parts.1] - LOWERCASE_KEYS
  }

  /** The row of one recipient, or none when it has no contact or no usable
      email. */
  function BuildRow(campaignId: string, subjectTemplate: string, rec: RecipientRow): Option<QueueRow> {
    var c := ContactOf(rec.contact);
    if c.None? then None
    else
      var target := TargetEmail(rec.selectedEmail, c.value);
      if target.None? then None
      else
        var meta := Metadata(c.value, target.value);
        Some(QueueRow(campaignId, target.value, ReplaceVariables(subjectTemplate, Some(AsValues(meta))), "", Staged,
                      meta, false, None, None, None, 0, None, None))
  }

  function BuildRows(campaignId: string, subjectTemplate: string, recipients: seq<RecipientRow>): (r: seq<QueueRow>)
    ensures |r| <= |recipients|
  {
    if recipients == [] then []
    else
      var init := BuildRows(campaignId, subjectTemplate, recipients[..|recipients| - 1]);
      var row := BuildRow(campaignId, subjectTemplate, recipients[|recipients| - 1]);
      if row.Some? then init + [row.value] else init
  }

  /** How many rows are in the store after the chunk `failedChunk` (if
      any) raised. */
  function InsertedCount(n: nat, failedChunk: Option<nat>): (r: nat)
    ensures r <= n
  {
    if failedChunk.Some? && failedChunk.value * CHUNK_SIZE < n then failedChunk.value * CHUNK_SIZE else n
  }

  /** Inserts the rows of one chunk in order. */
  method InsertAll(q: EmailQueue, chunk: seq<QueueRow>) returns (ids: seq<int>)
    requires q.Valid()
    modifies q
    ensures q.Valid() && q.order == old(q.order) + ids && |ids| == |chunk|
    ensures q.nextId >= old(q.nextId)
    ensures forall j :: 0 <= j < |ids| ==> ids[j] >= old(q.nextId) && ids[j] in q.rows && q.rows[ids[j]] == chunk[j]
    ensures forall id :: id in old(q.rows) ==> id in q.rows && q.rows[id] == old(q.rows)[id]
  {
    ids := [];
    var i := 0;
    while i < |chunk|
      invariant 0 <= i <= |chunk| && |ids| == i
      invariant q.Valid() && q.order == old(q.order) + ids
      invariant q.nextId >= old(q.nextId)
      invariant forall j :: 0 <= j < i ==> ids[j] >= old(q.nextId) && ids[j] in q.rows && q.rows[ids[j]] == chunk[j]
      invariant forall id :: id in old(q.rows) ==> id in q.rows && q.rows[id] == old(q.rows)[id]
    {
      var id := q.Insert(chunk[i]);
      ids := ids + [id];
      i := i + 1;
    }
  }

  /** The insert loop: `range(0, len(rows), 100)`; the chunk `failedChunk`
      raises and stops the loop. */
  method InsertInChunks(q: EmailQueue, rows: seq<QueueRow>, failedChunk: Option<nat>) returns (ids: seq<int>)
    requires q.Valid()
    modifies q
    ensures q.Valid() && q.order == old(q.order) + ids
    ensures |ids| == InsertedCount(|rows|, failedChunk)
    ensures q.nextId >= old(q.nextId)
    ensures forall j :: 0 <= j < |ids| ==> ids[j] >= old(q.nextId) && ids[j] in q.rows && q.rows[ids[j]] == rows[j]
    ensures forall id :: id in old(q.rows) ==> id in q.rows && q.rows[id] == old(q.rows)[id]
  {
    ids := [];
    var i := 0;
    var k := 0;
    var start := 0;
    while i < |rows|
      invariant 0 <= i <= |rows| && |ids| == i
      invariant start == k * CHUNK_SIZE
      invariant i <= start && (i < |rows| ==> i == start)
      invariant failedChunk.Some? ==> k <= failedChunk.value && start <= failedChunk.value * CHUNK_SIZE
      invariant q.Valid() && q.order == old(q.order) + ids
      invariant q.nextId >= old(q.nextId)
      invariant forall j :: 0 <= j < |ids| ==> ids[j] >= old(q.nextId) && ids[j] in q.rows && q.rows[ids[j]] == rows[j]
      invariant forall id :: id in old(q.rows) ==> id in q.rows && q.rows[id] == old(q.rows)[id]
      decreases |rows| - i
    {
      if failedChunk == Some(k) {
        break;
      }
      if failedChunk.Some? {
        ChunkStartMono(k + 1, failedChunk.value);
      }
      var end := if i + CHUNK_SIZE <= |rows| then i + CHUNK_SIZE else |rows|;
      ghost var prevOrder := q.order;
      var chunkIds := InsertAll(q, rows[i..end]);
      ChunkAppended(old(q.nextId), rows, i, end, ids, chunkIds, q.rows);
      assert q.order == prevOrder + chunkIds;
      assert prevOrder == old(q.order) + ids;
      AppendAssoc(old(q.order), ids, chunkIds);
      ids := ids + chunkIds;
      i := end;
      k := k + 1;
      start := start + CHUNK_SIZE;
    }
  }

  lemma AppendAssoc(a: seq<int>, b: seq<int>, c: seq<int>)
    ensures (a + b) + c == a + (b + c)
  {
  }

  lemma ChunkStartMono(a: nat, b: nat)
    requires a <= b
    ensures a * CHUNK_SIZE <= b * CHUNK_SIZE
  {
  }

  /** One chunk's ids appended to the ids so far keep the loop's facts. */
  lemma ChunkAppended(start: int, rows: seq<QueueRow>, i: nat, end: nat,
                      ids: seq<int>, chunkIds: seq<int>, now: map<int, QueueRow>)
    requires |ids| == i <= end <= |rows| && |chunkIds| == end - i
    requires forall j :: 0 <= j < |chunkIds| ==> chunkIds[j] >= start && chunkIds[j] in now && now[chunkIds[j]] == rows[i..end][j]
    requires forall j :: 0 <= j < |ids| ==> ids[j] >= start && ids[j] in now && now[ids[j]] == rows[j]
    ensures forall j :: 0 <= j < |ids + chunkIds| ==>
      (ids + chunkIds)[j] >= start && (ids + chunkIds)[j] in now && now[(ids + chunkIds)[j]] == rows[j]
  {
    forall j | 0 <= j < |ids + chunkIds|
      ensures (ids + chunkIds)[j] >= start && (ids + chunkIds)[j] in now && now[(ids + chunkIds)[j]] == rows[j]
    {
      if j >= |ids| {
        assert (ids + chunkIds)[j] == chunkIds[j - i];
        assert rows[i..end][j - i] == rows[j];
      }
    }
  }

  method ProcessGenerateTask(q: EmailQueue, camps: CampaignTable, campaignId: string,
                             recipients: seq<RecipientRow>, failedChunk: Option<nat>)
    returns (outcome: GenerateOutcome, ids: seq<int>)
    requires q.Valid()
    modifies q, camps
    ensures q.Valid()
    ensures campaignId !in old(camps.campaigns) || recipients == [] ==>
      outcome == (if campaignId !in old(camps.campaigns) then MissingCampaign else NoRecipients)
      && q.rows == old(q.rows) && q.order == old(q.order) && camps.campaigns == old(camps.campaigns)
    ensures campaignId in old(camps.campaigns) && recipients != [] ==>
      var c := old(camps.campaigns)[campaignId];
      var built := BuildRows(campaignId, c.subjectContent, recipients);
      var n := InsertedCount(|built|, failedChunk);
      && |ids| == n
      && q.order == FilterIds(old(q.order), old(q.rows), (_: int, x: QueueRow) => !Matches(x, campaignId, Staged)) + ids
      && (forall j :: 0 <= j < n ==> ids[j] !in old(q.rows) && ids[j] in q.rows && q.rows[ids[j]] == built[j])
      && (forall id :: id in RowsWithout(old(q.rows), campaignId, Staged) ==> id in q.rows && q.rows[id] == old(q.rows)[id])
      && (n == |built| ==>
            outcome == StagedRows(n)
            && camps.campaigns == old(camps.campaigns)[campaignId := c.(status := STAGED, totalRecipients := n)])
      && (n < |built| ==>
            outcome == ResetToDraft(n)
            && camps.campaigns == old(camps.campaigns)[campaignId := c.(status := DRAFT)])
  {
    if campaignId !in camps.campaigns {
      return MissingCampaign, [];
    }
    var campaign := camps.campaigns[campaignId];
    var fetched := FetchAllPages(recipients);
    if fetched == [] {
      return NoRecipients, [];
    }
    q.DeleteWhere(campaignId, Staged);
    ghost var kept := q.rows;
    var built: seq<QueueRow> := [];
    var i := 0;
    while i < |fetched|
      invariant 0 <= i <= |fetched|
      invariant built == BuildRows(campaignId, campaign.subjectContent, fetched[..i])
    {
      assert fetched[..i + 1][..i] == fetched[..i];
      var row := BuildRow(campaignId, campaign.subjectContent, fetched[i]);
      if row.Some? {
        built := built + [row.value];
      }
      i := i + 1;
    }
    assert fetched[..i] == recipients;
    ids := InsertInChunks(q, built, failedChunk);
    if |ids| < |built| {
      camps.campaigns := camps.campaigns[campaignId := campaign.(status := DRAFT)];
      return ResetToDraft(|ids|), ids;
    }
    camps.campaigns := camps.campaigns[campaignId := campaign.(status := STAGED, totalRecipients := |built|)];
    return StagedRows(|built|), ids;
  }

  // ---------------------------------------------------------------------
  // What generation guarantees

  /** A recipient is skipped exactly when it has no contact or no usable
      email; a list of contacts uses its first element. */
  lemma SkippedIff(campaignId: string, subjectTemplate: string, rec: RecipientRow)
    ensures BuildRow(campaignId, subjectTemplate, rec).None? <==>
      || (rec.contact.NoContact? || (rec.contact.Listed? && rec.contact.contacts == []))
      || (!Truthy(rec.selectedEmail) && EmailCandidates(ContactOf(rec.contact).value.email) == [])
    ensures rec.contact.Listed? && rec.contact.contacts != [] ==> ContactOf(rec.contact) == Some(rec.contact.contacts[0])
  {
  }

  /** Every row is staged, with an empty body, no sender, domain or time,
      no delay and not edited; its subject is the campaign's template with
      the row's metadata substituted, and it goes to the chosen email. */
  lemma RowShape(campaignId: string, subjectTemplate: string, rec: RecipientRow)
    requires BuildRow(campaignId, subjectTemplate, rec).Some?
    ensures var r := BuildRow(campaignId, subjectTemplate, rec).value;
      var c := ContactOf(rec.contact).value;
      && r.status == Staged && r.body == [] && r.campaignId == campaignId
      && r.fromEmail.None? && r.domainIndex.None? && r.scheduledFor.None? && r.delaySeconds == 0 && !r.isEdited
      && Some(r.toEmail) == TargetEmail(rec.selectedEmail, c)
      && r.metadata == Metadata(c, r.toEmail)
      && r.subject == ReplaceVariables(subjectTemplate, Some(AsValues(r.metadata)))
  {
  }

  /** The metadata holds the chosen email under "Email", the contact
      fields under their capitalised keys and the two parts of the
      stripped name. */
  lemma MetadataFields(c: ContactData, target: string)
    ensures var m := Metadata(c, target);
      && "Email" in m && m["Email"] == target && "Name" in m && m["Name"] == OrEmpty(c.name)
      && "Company" in m && m["Company"] == OrEmpty(c.company)
      && "Role" in m && m["Role"] == OrEmpty(c.role) && "Location" in m && m["Location"] == OrEmpty(c.location)
      && "FirstName" in m && m["FirstName"] == NameParts(c.name).0
      && "LastName" in m && m["LastName"] == NameParts(c.name).1
  {
    MetadataWithFields(c, target, NameParts(c.name));
  }

  lemma MetadataWithFields(c: ContactData, target: string, parts: (string, string))
    ensures var m := MetadataWith(c, target, parts);
      && "Email" in m && m["Email"] == target && "Name" in m && m["Name"] == OrEmpty(c.name)
      && "Company" in m && m["Company"] == OrEmpty(c.company)
      && "Role" in m && m["Role"] == OrEmpty(c.role) && "Location" in m && m["Location"] == OrEmpty(c.location)
      && "FirstName" in m && m["FirstName"] == parts.0 && "LastName" in m && m["LastName"] == parts.1
  {
  }

  /** The metadata never holds a lower-case duplicate of a contact field,
      and every other detail of the contact is kept unchanged. */
  lemma MetadataDetails(c: ContactData, target: string)
    ensures forall k :: k in LOWERCASE_KEYS ==> k !in Metadata(c, target)
    ensures forall k :: (c.details.Some? && k in c.details.value && k !in LOWERCASE_KEYS
                         && k !in {"Name", "Email", "Company", "Role", "Location", "FirstName", "LastName"})
                        ==> k in Metadata(c, target) && Metadata(c, target)[k] == c.details.value[k]
  {
  }

  /** A name with a space splits at its first space and the two parts put
      back together give the stripped name; a name without one is all
      first name; a blank name gives two empty parts. */
  lemma NameSplit(name: Option<string>)
    ensures var stripped := Strip(OrEmpty(name)); var p := NameParts(name);
      && (stripped == [] ==> p == ("", ""))
      && (Contains(stripped, " ") ==> p.0 + " " + p.1 == stripped && !Contains(p.0, " "))
      && (!Contains(stripped, " ") ==> p == (stripped, ""))
  {
    var stripped := Strip(OrEmpty(name));
    if stripped != [] && Contains(stripped, " ") {
      FirstSpaceSplit(stripped);
    }
  }

  /** The text before the first space has none, and the text is it, the
      space and the rest. */
  lemma FirstSpaceSplit(s: string)
    requires Contains(s, " ")
    ensures var i := FindFrom(s, " ", 0);
      && 0 <= i < |s| && s == s[..i] + " " + s[i + 1..] && !Contains(s[..i], " ")
  {
    var i := FindFrom(s, " ", 0);
    FirstPartFree(s, " ");
    SliceAround(s, i, 1);
  }

  /** Only usable recipients become rows, so the campaign's
      `total_recipients` can be smaller than the recipients fetched, and
      equals them when every recipient is usable. */
  lemma {:induction false} RowsCountUsable(campaignId: string, subjectTemplate: string, recipients: seq<RecipientRow>)
    ensures |BuildRows(campaignId, subjectTemplate, recipients)| <= |recipients|
    ensures (forall k :: 0 <= k < |recipients| ==> BuildRow(campaignId, subjectTemplate, recipients[k]).Some?) ==>
      |BuildRows(campaignId, subjectTemplate, recipients)| == |recipients|
    ensures (forall k :: 0 <= k < |recipients| ==> BuildRow(campaignId, subjectTemplate, recipients[k]).None?) ==>
      BuildRows(campaignId, subjectTemplate, recipients) == []
  {
    if recipients != [] {
      var init := recipients[..|recipients| - 1];
      assert forall k :: 0 <= k < |init| ==> init[k] == recipients[k];
      RowsCountUsable(campaignId, subjectTemplate, init);
    }
  }
}
