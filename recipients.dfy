/** Adding recipients to a campaign (services/api/routers/recipients.py):
    the request's contacts replace the campaign's recipient rows, and the
    campaign's recipient count is set to their number. */
module Recipients {
  import opened Wrappers
  import opened Http
  import opened CampaignStore

  /** A `campaign_recipients` row as this route writes it. */
  datatype RecipientRow = RecipientRow(campaignId: string, contactId: string, selectedEmail: Option<string>)

  /** `selected_emails.get(contact_id)`. */
  function SelectedFor(selected: map<string, string>, contactId: string): (r: Option<string>)
    ensures r.Some? <==> contactId in selected
    ensures r.Some? ==> r.value == selected[contactId]
  {
    if contactId in selected then Some(selected[contactId]) else None
  }

  /** The rows the request asks for: one per contact id, in request order. */
  function RequestedRows(campaignId: string, contactIds: seq<string>, selected: map<string, string>): (r: seq<RecipientRow>)
    ensures |r| == |contactIds|
    ensures forall i :: 0 <= i < |r| ==> r[i] == RecipientRow(campaignId, contactIds[i], SelectedFor(selected, contactIds[i]))
  {
    seq(|contactIds|, i requires 0 <= i < |contactIds| =>
      RecipientRow(campaignId, contactIds[i], SelectedFor(selected, contactIds[i])))
  }

  /** The loop of add_recipients that builds `recipients`, with
      `selected_emails or {}`. */
  method BuildRows(campaignId: string, contactIds: seq<string>, selectedEmails: Option<map<string, string>>)
    returns (rows: seq<RecipientRow>)
    ensures rows == RequestedRows(campaignId, contactIds, selectedEmails.GetOr(map[]))
  {
    var selected := selectedEmails.GetOr(map[]);
    rows := [];
    var i := 0;
    while i < |contactIds|
      invariant 0 <= i <= |contactIds|
      invariant rows == RequestedRows(campaignId, contactIds[..i], selected)
    {
      rows := rows + [RecipientRow(campaignId, contactIds[i], SelectedFor(selected, contactIds[i]))];
      i := i + 1;
    }
    assert contactIds[..i] == contactIds;
  }

  /** Every contact gets a row, duplicates included; a row carries the
      selected address exactly when the map names its contact. */
  lemma RequestedRowsShape(campaignId: string, contactIds: seq<string>, selected: map<string, string>, i: int)
    requires 0 <= i < |contactIds|
    ensures var r := RequestedRows(campaignId, contactIds, selected);
      && |r| == |contactIds|
      && r[i].campaignId == campaignId && r[i].contactId == contactIds[i]
      && (r[i].selectedEmail.Some? <==> contactIds[i] in selected)
      && (contactIds[i] in selected ==> r[i].selectedEmail == Some(selected[contactIds[i]]))
  {
  }

  /** The rows of `rows` whose campaign is (`keep`) or is not (`!keep`)
      `campaignId`, in table order. */
  function Select(rows: seq<RecipientRow>, campaignId: string, keep: bool): (r: seq<RecipientRow>)
    decreases |rows|
    ensures |r| <= |rows|
    ensures forall k :: 0 <= k < |r| ==> (r[k].campaignId == campaignId) == keep
  {
    if rows == [] then []
    else
      var rest := Select(rows[1..], campaignId, keep);
      if (rows[0].campaignId == campaignId) == keep then [rows[0]] + rest else rest
  }

  /** Every selected row comes from the table, and every row of the table
      on the selected side is selected. */
  lemma {:induction false} SelectMembers(rows: seq<RecipientRow>, campaignId: string, keep: bool)
    decreases |rows|
    ensures forall k :: 0 <= k < |Select(rows, campaignId, keep)| ==> Select(rows, campaignId, keep)[k] in rows
    ensures forall k :: 0 <= k < |rows| && (rows[k].campaignId == campaignId) == keep ==> rows[k] in Select(rows, campaignId, keep)
  {
    if rows != [] {
      SelectMembers(rows[1..], campaignId, keep);
      assert forall k :: 1 <= k < |rows| ==> rows[k] == rows[1..][k - 1];
    }
  }

  lemma {:induction false} SelectConcat(a: seq<RecipientRow>, b: seq<RecipientRow>, campaignId: string, keep: bool)
    decreases |a|
    ensures Select(a + b, campaignId, keep) == Select(a, campaignId, keep) + Select(b, campaignId, keep)
  {
    if a == [] {
      assert a + b == b;
    } else {
      assert (a + b)[1..] == a[1..] + b;
      SelectConcat(a[1..], b, campaignId, keep);
    }
  }

  /** Rows that all belong to one campaign are all kept for it and none
      for any other. */
  lemma {:induction false} SelectUniform(rows: seq<RecipientRow>, owner: string, campaignId: string)
    requires forall k :: 0 <= k < |rows| ==> rows[k].campaignId == owner
    decreases |rows|
    ensures Select(rows, campaignId, true) == (if owner == campaignId then rows else [])
  {
    if rows != [] {
      SelectUniform(rows[1..], owner, campaignId);
      assert [rows[0]] + rows[1..] == rows;
    }
  }

  /** After the campaign's rows are deleted, another campaign's rows are
      as they were and the campaign has none. */
  lemma {:induction false} SelectAfterDelete(rows: seq<RecipientRow>, deleted: string, campaignId: string)
    decreases |rows|
    ensures Select(Select(rows, deleted, false), campaignId, true)
            == (if campaignId == deleted then [] else Select(rows, campaignId, true))
  {
    if rows != [] {
      SelectAfterDelete(rows[1..], deleted, campaignId);
      if rows[0].campaignId != deleted {
        assert ([rows[0]] + Select(rows[1..], deleted, false))[1..] == Select(rows[1..], deleted, false);
      }
    }
  }

  /** list_recipients: the campaign's rows in table order; the joined
      contact is not part of the model. */
  function ListRecipients(rows: seq<RecipientRow>, campaignId: string): (r: seq<RecipientRow>)
    ensures forall k :: 0 <= k < |r| ==> r[k].campaignId == campaignId && r[k] in rows
    ensures forall k :: 0 <= k < |rows| && rows[k].campaignId == campaignId ==> rows[k] in r
  {
    SelectMembers(rows, campaignId, true);
    Select(rows, campaignId, true)
  }

  /** The recipient rows after add_recipients: the other campaigns' rows,
      then the requested ones. */
  function Replaced(rows: seq<RecipientRow>, campaignId: string, contactIds: seq<string>, selected: map<string, string>): seq<RecipientRow> {
    Select(rows, campaignId, false) + RequestedRows(campaignId, contactIds, selected)
  }

  /** Replace semantics: afterwards the campaign's recipients are exactly
      the requested rows, in request order, and every other campaign's
      recipients are unchanged. */
  lemma ReplaceSemantics(rows: seq<RecipientRow>, campaignId: string, contactIds: seq<string>, selected: map<string, string>, other: string)
    ensures ListRecipients(Replaced(rows, campaignId, contactIds, selected), campaignId)
            == RequestedRows(campaignId, contactIds, selected)
    ensures other != campaignId ==>
      ListRecipients(Replaced(rows, campaignId, contactIds, selected), other) == ListRecipients(rows, other)
  {
    var kept := Select(rows, campaignId, false);
    var requested := RequestedRows(campaignId, contactIds, selected);
    SelectConcat(kept, requested, campaignId, true);
    SelectConcat(kept, requested, other, true);
    SelectAfterDelete(rows, campaignId, campaignId);
    SelectAfterDelete(rows, campaignId, other);
    SelectUniform(requested, campaignId, campaignId);
    SelectUniform(requested, campaignId, other);
  }

  /** The `campaign_recipients` table. */
  class RecipientTable {
    var rows: seq<RecipientRow>

    constructor (initial: seq<RecipientRow>)
      ensures rows == initial
    {
      rows := initial;
    }
  }

  /** add_recipients: 404 with nothing changed when the campaign does not
      exist; otherwise the campaign's rows are replaced by the requested
      ones and its total is their number, which is also the answer. */
  method AddRecipients(campaigns: CampaignTable, table: RecipientTable, campaignId: string,
                       contactIds: seq<string>, selectedEmails: Option<map<string, string>>)
    returns (r: Result<nat, HttpError>)
    modifies campaigns, table
    ensures campaignId !in old(campaigns.campaigns) ==>
      r == Err(CAMPAIGN_NOT_FOUND) && campaigns.campaigns == old(campaigns.campaigns) && table.rows == old(table.rows)
    ensures campaignId in old(campaigns.campaigns) ==>
      && r == Ok(|contactIds|)
      && table.rows == Replaced(old(table.rows), campaignId, contactIds, selectedEmails.GetOr(map[]))
      && campaigns.campaigns == old(campaigns.campaigns)[campaignId :=
           old(campaigns.campaigns)[campaignId].(totalRecipients := |contactIds|)]
  {
    if campaignId !in campaigns.campaigns {
      return Err(CAMPAIGN_NOT_FOUND);
    }
    var recipients := BuildRows(campaignId, contactIds, selectedEmails);
    table.rows := Select(table.rows, campaignId, false);
    table.rows := table.rows + recipients;
    var c := campaigns.campaigns[campaignId];
    campaigns.campaigns := campaigns.campaigns[campaignId := c.(totalRecipients := |recipients|)];
    r := Ok(|recipients|);
  }

  /** The count answered and stored is the number of the campaign's rows
      afterwards. */
  lemma CountMatchesRows(rows: seq<RecipientRow>, campaignId: string, contactIds: seq<string>, selected: map<string, string>)
    ensures |ListRecipients(Replaced(rows, campaignId, contactIds, selected), campaignId)| == |contactIds|
  {
    ReplaceSemantics(rows, campaignId, contactIds, selected, campaignId);
  }
}
