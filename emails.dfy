/** The admin API's view of the email queue (services/api/routers/emails.py):
    listing a campaign's emails, reading one, and editing one, with the
    translation between the table's snake_case columns and the camelCase
    keys the dashboard sends and receives. A row is a map from column to
    JSON value; the table keeps rows in the order they were inserted. */
module Emails {
  import opened Wrappers
  import opened Text
  import opened Http

  datatype Json = JNull | JBool(b: bool) | JInt(i: int) | JStr(s: string) | JObj(fields: map<string, Json>)

  type Row = map<string, Json>

  const EMAIL_NOT_FOUND: HttpError := HttpError(404, "Email not found")

  /** `row.get(key, default)`. */
  function Get(row: Row, key: string, default: Json): (v: Json)
    ensures key in row ==> v == row[key]
    ensures key !in row ==> v == default
  {
    if key in row then row[key] else default
  }

  /** Python's `str()` of a column value. */
  function PyStr(v: Json): string {
    match v
    case JNull => "None"
    case JBool(b) => if b then "True" else "False"
    case JInt(i) => IntToString(i)
    case JStr(s) => s
    case JObj(m) => if m == map[] then "{}" else "{...}"
  }

  // ---------------------------------------------------------------------
  // transform_email_to_camelcase

  /** The column each camelCase key of the dashboard's email is read from. */
  const TRANSFORM_COLUMNS: map<string, string> := map[
    "id" := "id", "campaignId" := "campaign_id", "toEmail" := "to_email",
    "fromEmail" := "from_email", "subject" := "subject", "body" := "body",
    "status" := "status", "scheduledFor" := "scheduled_for",
    "domainIndex" := "domain_index", "isEdited" := "is_edited",
    "metadata" := "metadata", "createdAt" := "created_at",
    "errorMessage" := "error_message", "sentAt" := "sent_at"]

  /** The value the dashboard sees under `key` when the column is absent:
      False for `isEdited`, an empty object for `metadata`, "" for `id`,
      None otherwise. */
  function MissingValue(key: string): Json {
    if key == "isEdited" then JBool(false)
    else if key == "metadata" then JObj(map[])
    else if key == "id" then JStr("")
    else JNull
  }

  /** One entry of transform_email_to_camelcase: the column's value, its
      default when absent, and `str()` of it for `id`. */
  function ReadField(row: Row, key: string): Json
    requires key in TRANSFORM_COLUMNS
  {
    var v := Get(row, TRANSFORM_COLUMNS[key], MissingValue(key));
    if key == "id" then JStr(PyStr(v)) else v
  }

  /** transform_email_to_camelcase: the fourteen camelCase keys, whatever
      columns the row has. */
  function Transform(row: Row): (r: map<string, Json>)
    ensures r.Keys == TRANSFORM_COLUMNS.Keys
  {
    map key | key in TRANSFORM_COLUMNS :: ReadField(row, key)
  }

  /** Every key but `id` carries its column's value as stored, and a
      missing column shows as None, except `isEdited` (False) and
      `metadata` (an empty object); `id` is the text form of the stored id,
      or "" without one. */
  lemma TransformReads(row: Row, key: string)
    requires key in TRANSFORM_COLUMNS
    ensures key != "id" && TRANSFORM_COLUMNS[key] in row ==> Transform(row)[key] == row[TRANSFORM_COLUMNS[key]]
    ensures TRANSFORM_COLUMNS[key] !in row ==> Transform(row)[key] == MissingValue(key)
    ensures key == "id" && "id" in row ==> Transform(row)[key] == JStr(PyStr(row["id"]))
  {
  }

  // ---------------------------------------------------------------------
  // update_email

  /** `field_mapping`: the camelCase keys renamed before an update. */
  const FIELD_MAPPING: map<string, string> := map[
    "toEmail" := "to_email", "fromEmail" := "from_email",
    "scheduledFor" := "scheduled_for", "domainIndex" := "domain_index",
    "isEdited" := "is_edited", "errorMessage" := "error_message",
    "sentAt" := "sent_at", "campaignId" := "campaign_id"]

  /** `field_mapping.get(key, key)`. */
  function DbKey(key: string): (c: string)
    ensures key in FIELD_MAPPING ==> c == FIELD_MAPPING[key]
    ensures key !in FIELD_MAPPING ==> c == key
  {
    if key in FIELD_MAPPING then FIELD_MAPPING[key] else key
  }

  /** The column updates after the loop over `updates.items()`: each key
      renamed, a later item overwriting an earlier one for the same column. */
  function DbUpdates(updates: seq<(string, Json)>): map<string, Json>
    decreases |updates|
  {
    if updates == [] then map[]
    else
      var last := updates[|updates| - 1];
      DbUpdates(updates[..|updates| - 1])[DbKey(last.0) := last.1]
  }

  /** The loop of update_email that builds `db_updates`. */
  method BuildDbUpdates(updates: seq<(string, Json)>) returns (db: map<string, Json>)
    ensures db == DbUpdates(updates)
  {
    db := map[];
    var i := 0;
    while i < |updates|
      invariant 0 <= i <= |updates|
      invariant db == DbUpdates(updates[..i])
    {
      assert updates[..i + 1][..i] == updates[..i];
      db := db[DbKey(updates[i].0) := updates[i].1];
      i := i + 1;
    }
    assert updates[..i] == updates;
  }

  /** The columns written are exactly the renamed keys. */
  lemma {:induction false} DbUpdatesKeys(updates: seq<(string, Json)>, column: string)
    decreases |updates|
    ensures column in DbUpdates(updates) <==> exists i :: 0 <= i < |updates| && DbKey(updates[i].0) == column
  {
    if updates != [] {
      var n := |updates| - 1;
      var front := updates[..n];
      DbUpdatesKeys(front, column);
      assert DbUpdates(updates) == DbUpdates(front)[DbKey(updates[n].0) := updates[n].1];
      assert forall i :: 0 <= i < n ==> front[i] == updates[i];
    }
  }

  /** Each column gets the value of the last item written to it. */
  lemma {:induction false} DbUpdatesLastWins(updates: seq<(string, Json)>, i: int)
    requires 0 <= i < |updates|
    requires forall j :: i < j < |updates| ==> DbKey(updates[j].0) != DbKey(updates[i].0)
    decreases |updates|
    ensures DbKey(updates[i].0) in DbUpdates(updates)
    ensures DbUpdates(updates)[DbKey(updates[i].0)] == updates[i].1
  {
    var n := |updates| - 1;
    if i < n {
      var front := updates[..n];
      assert front[i] == updates[i];
      assert forall j :: i < j < |front| ==> front[j] == updates[j];
      DbUpdatesLastWins(front, i);
    }
  }

  /** None of the eight camelCase keys of the mapping reaches the table:
      the mapping renames each of them, and no key is renamed to one. */
  lemma CamelKeysRenamed(updates: seq<(string, Json)>, key: string)
    requires key in FIELD_MAPPING
    ensures DbKey(key) != key
    ensures key !in DbUpdates(updates)
  {
    DbUpdatesKeys(updates, key);
    forall i | 0 <= i < |updates| ensures DbKey(updates[i].0) != key {
      var k := updates[i].0;
      if k in FIELD_MAPPING {
        NoColumnIsKey(k);
      }
    }
  }

  /** Every column of the mapping is snake_case, none of its own keys. */
  lemma NoColumnIsKey(key: string)
    requires key in FIELD_MAPPING
    ensures FIELD_MAPPING[key] !in FIELD_MAPPING
  {
    assert FIELD_MAPPING.Keys == {"toEmail", "fromEmail", "scheduledFor", "domainIndex",
                                  "isEdited", "errorMessage", "sentAt", "campaignId"};
  }

  /** The mapping is one to one, so no two of its keys write the same
      column. */
  lemma FieldMappingInjective(a: string, b: string)
    requires a in FIELD_MAPPING && b in FIELD_MAPPING && a != b
    ensures FIELD_MAPPING[a] != FIELD_MAPPING[b]
  {
  }

  /** A key of the dashboard's email is written back to the column it is
      read from, for every key except `createdAt`, which is passed through
      unrenamed to a column the transform never reads. */
  lemma UpdateKeysMatchTransform(key: string)
    requires key in TRANSFORM_COLUMNS
    ensures key != "createdAt" <==> DbKey(key) == TRANSFORM_COLUMNS[key]
  {
  }

  /** `.eq("id", email_id)`: the path's id is text, and the store casts it
      to the column's type, so an integer id matches its decimal form. */
  predicate IdMatches(v: Json, emailId: string) {
    v == JStr(emailId) || (v.JInt? && IntToString(v.i) == emailId)
  }

  /** An integer or text id matches exactly the text `str()` gives it,
      which is the id the dashboard is shown; no other value matches. */
  lemma IdMatchesShownId(v: Json, emailId: string)
    ensures (v.JInt? || v.JStr?) ==> (IdMatches(v, emailId) <==> PyStr(v) == emailId)
    ensures !(v.JInt? || v.JStr?) ==> !IdMatches(v, emailId)
  {
  }

  /** `.eq("id", email_id).eq("campaign_id", campaign_id)`. */
  predicate Matches(row: Row, emailId: string, campaignId: string) {
    IdMatches(Get(row, "id", JNull), emailId) && Get(row, "campaign_id", JNull) == JStr(campaignId)
  }

  /** The first row matching both the id and the campaign. */
  function FindMatch(rows: seq<Row>, emailId: string, campaignId: string): (r: Option<nat>)
    decreases |rows|
    ensures r.Some? ==> r.value < |rows| && Matches(rows[r.value], emailId, campaignId)
    ensures r.Some? ==> forall j :: 0 <= j < r.value ==> !Matches(rows[j], emailId, campaignId)
    ensures r.None? ==> forall j :: 0 <= j < |rows| ==> !Matches(rows[j], emailId, campaignId)
  {
    if rows == [] then None
    else if Matches(rows[0], emailId, campaignId) then Some(0)
    else
      var rest := FindMatch(rows[1..], emailId, campaignId);
      if rest.None? then None
      else
        assert forall j :: 1 <= j < rest.value + 1 ==> rows[j] == rows[1..][j - 1];
        Some(rest.value + 1)
  }

  /** The table after the update: every matching row takes the new column
      values, every other row is left as it was. */
  function UpdatedRows(rows: seq<Row>, emailId: string, campaignId: string, db: map<string, Json>): (r: seq<Row>)
    ensures |r| == |rows|
  {
    seq(|rows|, i requires 0 <= i < |rows| =>
      if Matches(rows[i], emailId, campaignId) then rows[i] + db else rows[i])
  }

  /** What update_email answers: the first updated row, transformed, or
      404 when no row matched. */
  function UpdateOutcome(rows: seq<Row>, emailId: string, campaignId: string, updates: seq<(string, Json)>): Result<map<string, Json>, HttpError> {
    var m := FindMatch(rows, emailId, campaignId);
    if m.None? then Err(EMAIL_NOT_FOUND)
    else Ok(Transform(rows[m.value] + DbUpdates(updates)))
  }

  /** The email queue as the admin API edits it. */
  class EmailTable {
    var rows: seq<Row>

    constructor (initial: seq<Row>)
      ensures rows == initial
    {
      rows := initial;
    }

    /** update_email. */
    method UpdateEmail(campaignId: string, emailId: string, updates: seq<(string, Json)>)
      returns (r: Result<map<string, Json>, HttpError>)
      modifies this
      ensures rows == UpdatedRows(old(rows), emailId, campaignId, DbUpdates(updates))
      ensures r == UpdateOutcome(old(rows), emailId, campaignId, updates)
    {
      var db := BuildDbUpdates(updates);
      var m := FindMatch(rows, emailId, campaignId);
      rows := UpdatedRows(rows, emailId, campaignId, db);
      if m.None? {
        r := Err(EMAIL_NOT_FOUND);
      } else {
        r := Ok(Transform(rows[m.value]));
      }
    }

    /** delete_email: the matching rows go, and the answer is success
        whether or not a row matched. */
    method DeleteEmail(campaignId: string, emailId: string) returns (success: bool)
      modifies this
      ensures success
      ensures rows == WithoutMatches(old(rows), emailId, campaignId)
    {
      rows := WithoutMatches(rows, emailId, campaignId);
      return true;
    }
  }

  /** The table without the rows that match both the id and the campaign,
      the others in their order. */
  function WithoutMatches(rows: seq<Row>, emailId: string, campaignId: string): (r: seq<Row>)
    decreases |rows|
    ensures |r| <= |rows|
    ensures forall k :: 0 <= k < |r| ==> r[k] in rows && !Matches(r[k], emailId, campaignId)
    ensures forall j :: 0 <= j < |rows| && !Matches(rows[j], emailId, campaignId) ==> rows[j] in r
  {
    if rows == [] then []
    else
      var front := WithoutMatches(rows[..|rows| - 1], emailId, campaignId);
      var last := rows[|rows| - 1];
      assert forall j :: 0 <= j < |rows| - 1 ==> rows[j] == rows[..|rows| - 1][j];
      if Matches(last, emailId, campaignId) then front else front + [last]
  }

  /** After delete_email the email is gone from its campaign, and a row of
      the same id in another campaign, or any other row, is still there. */
  lemma DeleteThenNotFound(rows: seq<Row>, emailId: string, campaignId: string)
    ensures GetEmail(WithoutMatches(rows, emailId, campaignId), campaignId, emailId) == Err(EMAIL_NOT_FOUND)
    ensures forall j :: 0 <= j < |rows| && !Matches(rows[j], emailId, campaignId) ==>
      rows[j] in WithoutMatches(rows, emailId, campaignId)
  {
    GetEmailMatchesBoth(WithoutMatches(rows, emailId, campaignId), campaignId, emailId);
  }

  /** With no row of that id in that campaign nothing changes and the
      answer is 404; a row of the same id in another campaign is not
      touched. */
  lemma UpdateNotFound(rows: seq<Row>, emailId: string, campaignId: string, updates: seq<(string, Json)>)
    requires forall j :: 0 <= j < |rows| ==> !Matches(rows[j], emailId, campaignId)
    ensures UpdatedRows(rows, emailId, campaignId, DbUpdates(updates)) == rows
    ensures UpdateOutcome(rows, emailId, campaignId, updates) == Err(EMAIL_NOT_FOUND)
  {
    assert UpdatedRows(rows, emailId, campaignId, DbUpdates(updates)) == rows;
  }

  /** A matching row keeps the columns the update does not name and takes
      the value of each one it names. */
  lemma UpdateFrame(rows: seq<Row>, emailId: string, campaignId: string, db: map<string, Json>, i: int, column: string)
    requires 0 <= i < |rows|
    ensures var after := UpdatedRows(rows, emailId, campaignId, db)[i];
      && (!Matches(rows[i], emailId, campaignId) ==> after == rows[i])
      && (Matches(rows[i], emailId, campaignId) ==>
            after.Keys == rows[i].Keys + db.Keys
            && (column in db ==> after[column] == db[column])
            && (column !in db && column in rows[i] ==> after[column] == rows[i][column]))
  {
  }

  /** The email answered shows each edited field with the value sent,
      when no later item wrote the same column. */
  lemma UpdateRoundTrip(rows: seq<Row>, emailId: string, campaignId: string, updates: seq<(string, Json)>, i: int)
    requires 0 <= i < |updates|
    requires updates[i].0 in TRANSFORM_COLUMNS && updates[i].0 != "id" && updates[i].0 != "createdAt"
    requires forall j :: i < j < |updates| ==> DbKey(updates[j].0) != DbKey(updates[i].0)
    ensures var r := UpdateOutcome(rows, emailId, campaignId, updates);
      r.Ok? ==> r.value[updates[i].0] == updates[i].1
  {
    var key := updates[i].0;
    DbUpdatesLastWins(updates, i);
    UpdateKeysMatchTransform(key);
    var m := FindMatch(rows, emailId, campaignId);
    if m.Some? {
      var row := rows[m.value] + DbUpdates(updates);
      assert row[TRANSFORM_COLUMNS[key]] == updates[i].1;
      TransformReads(row, key);
    }
  }

  // ---------------------------------------------------------------------
  // get_email

  /** get_email. */
  function GetEmail(rows: seq<Row>, campaignId: string, emailId: string): Result<map<string, Json>, HttpError> {
    var m := FindMatch(rows, emailId, campaignId);
    if m.None? then Err(EMAIL_NOT_FOUND) else Ok(Transform(rows[m.value]))
  }

  /** An email is found exactly when a row has both that id and that
      campaign, and it is the transform of such a row. */
  lemma GetEmailMatchesBoth(rows: seq<Row>, campaignId: string, emailId: string)
    ensures GetEmail(rows, campaignId, emailId).Ok? <==> exists j :: 0 <= j < |rows| && Matches(rows[j], emailId, campaignId)
    ensures GetEmail(rows, campaignId, emailId).Err? ==> GetEmail(rows, campaignId, emailId).error == EMAIL_NOT_FOUND
    ensures GetEmail(rows, campaignId, emailId).Ok? ==>
      exists j :: 0 <= j < |rows| && Matches(rows[j], emailId, campaignId)
        && GetEmail(rows, campaignId, emailId).value == Transform(rows[j])
  {
    var m := FindMatch(rows, emailId, campaignId);
    if m.Some? {
      assert Matches(rows[m.value], emailId, campaignId);
    }
  }

  /** The id column is the table's key: every row has an integer or text
      id, and no two rows show the same id text. */
  predicate IdsAreKeys(rows: seq<Row>) {
    && (forall i :: 0 <= i < |rows| ==> Get(rows[i], "id", JNull).JInt? || Get(rows[i], "id", JNull).JStr?)
    && (forall i, j :: 0 <= i < j < |rows| ==> PyStr(Get(rows[i], "id", JNull)) != PyStr(Get(rows[j], "id", JNull)))
  }

  /** The id a row of the campaign is shown under finds that row again:
      get_email on it answers the row's own transform. */
  lemma ShownIdFindsRow(rows: seq<Row>, campaignId: string, j: int)
    requires IdsAreKeys(rows) && 0 <= j < |rows|
    requires Get(rows[j], "campaign_id", JNull) == JStr(campaignId)
    ensures Transform(rows[j])["id"].JStr?
    ensures GetEmail(rows, campaignId, Transform(rows[j])["id"].s) == Ok(Transform(rows[j]))
  {
    var v := Get(rows[j], "id", JNull);
    var e := PyStr(v);
    TransformReads(rows[j], "id");
    IdMatchesShownId(v, e);
    assert Matches(rows[j], e, campaignId);
    var m := FindMatch(rows, e, campaignId);
    assert m.Some? && m.value <= j;
    if m.value < j {
      IdMatchesShownId(Get(rows[m.value], "id", JNull), e);
      assert false;
    }
  }

  // ---------------------------------------------------------------------
  // list_emails

  /** The filters of list_emails: the campaign, and the status when one is
      given (an empty status filters nothing). */
  predicate Listed(row: Row, campaignId: string, status: Option<string>) {
    Get(row, "campaign_id", JNull) == JStr(campaignId)
    && (Truthy(status) ==> Get(row, "status", JNull) == JStr(status.value))
  }

  /** The table positions of the rows that pass the filters, in table
      order. */
  function ListedPositions(rows: seq<Row>, campaignId: string, status: Option<string>): (r: seq<int>)
    decreases |rows|
    ensures forall k :: 0 <= k < |r| ==> 0 <= r[k] < |rows| && Listed(rows[r[k]], campaignId, status)
    ensures forall k, l :: 0 <= k < l < |r| ==> r[k] < r[l]
    ensures forall j :: 0 <= j < |rows| && Listed(rows[j], campaignId, status) ==> j in r
  {
    if rows == [] then []
    else
      var n := |rows| - 1;
      var front := ListedPositions(rows[..n], campaignId, status);
      assert forall j :: 0 <= j < n ==> rows[..n][j] == rows[j];
      if Listed(rows[n], campaignId, status) then front + [n] else front
  }

  /** Strictly increasing positions below `n` are at most `n` of them. */
  lemma {:induction false} PositionsBound(pos: seq<int>, n: int)
    requires 0 <= n
    requires forall k :: 0 <= k < |pos| ==> 0 <= pos[k] < n
    requires forall k, l :: 0 <= k < l < |pos| ==> pos[k] < pos[l]
    decreases |pos|
    ensures |pos| <= n
  {
    if pos != [] {
      var last := pos[|pos| - 1];
      var front := pos[..|pos| - 1];
      assert forall k :: 0 <= k < |front| ==> front[k] == pos[k];
      PositionsBound(front, last);
    }
  }

  /** The rows that pass the filters, oldest first. */
  function Filtered(rows: seq<Row>, campaignId: string, status: Option<string>): (r: seq<Row>)
    ensures |r| <= |rows|
    ensures forall k :: 0 <= k < |r| ==> r[k] in rows && Listed(r[k], campaignId, status)
  {
    var at := ListedPositions(rows, campaignId, status);
    PositionsBound(at, |rows|);
    Picked(rows, at)
  }

  /** The elements of `s` at the positions `pos`, in that order. */
  function Picked<T>(s: seq<T>, pos: seq<int>): (r: seq<T>)
    requires forall k :: 0 <= k < |pos| ==> 0 <= pos[k] < |s|
    ensures |r| == |pos|
    ensures forall k :: 0 <= k < |pos| ==> r[k] == s[pos[k]]
  {
    seq(|pos|, k requires 0 <= k < |pos| => s[pos[k]])
  }

  function Reverse<T>(s: seq<T>): (r: seq<T>)
    ensures |r| == |s|
    ensures forall k :: 0 <= k < |s| ==> r[k] == s[|s| - 1 - k]
  {
    seq(|s|, k requires 0 <= k < |s| => s[|s| - 1 - k])
  }

  function Min(a: int, b: int): int { if a < b then a else b }

  /** `.range(offset, offset + limit - 1)`: the rows at positions offset
      to offset + limit - 1 inclusive, as far as there are rows. */
  function Range<T>(s: seq<T>, offset: nat, limit: nat): (r: seq<T>)
    ensures |r| == Min(limit, if offset < |s| then |s| - offset else 0)
    ensures forall k :: 0 <= k < |r| ==> r[k] == s[offset + k]
  {
    if offset >= |s| then [] else s[offset..Min(offset + limit, |s|)]
  }

  /** list_emails over the table; the table holds rows in insertion order,
      so newest first is the reverse of it. */
  function ListEmails(rows: seq<Row>, campaignId: string, status: Option<string>, limit: int, offset: int): (r: seq<map<string, Json>>)
    requires limit >= 0 && offset >= 0
  {
    TransformAll(Range(Reverse(Filtered(rows, campaignId, status)), offset, limit))
  }

  /** `[transform_email_to_camelcase(email) for email in emails]`. */
  function TransformAll(page: seq<Row>): (r: seq<map<string, Json>>)
    ensures |r| == |page|
    ensures forall k :: 0 <= k < |page| ==> r[k] == Transform(page[k])
  {
    seq(|page|, k requires 0 <= k < |page| => Transform(page[k]))
  }

  /** At most `limit` emails, each the transform of one of the rows that
      pass the filters (of the campaign, and of the status when one is
      given). */
  lemma ListEmailsBounds(rows: seq<Row>, campaignId: string, status: Option<string>, limit: int, offset: int)
    requires limit >= 0 && offset >= 0
    ensures |ListEmails(rows, campaignId, status, limit, offset)| <= limit
    ensures forall k :: 0 <= k < |ListEmails(rows, campaignId, status, limit, offset)| ==>
      ListEmails(rows, campaignId, status, limit, offset)[k] in TransformAll(Filtered(rows, campaignId, status))
  {
    var f := Filtered(rows, campaignId, status);
    var page := Range(Reverse(f), offset, limit);
    forall k | 0 <= k < |page|
      ensures TransformAll(page)[k] in TransformAll(f)
    {
      assert TransformAll(f)[|f| - 1 - (offset + k)] == TransformAll(page)[k];
    }
  }

  /** Consecutive pages join into one longer page: the pages of `limit`
      rows at offsets 0, limit, 2 * limit, ... list every row once. */
  lemma ListEmailsPages(rows: seq<Row>, campaignId: string, status: Option<string>, a: nat, b: nat, offset: nat)
    ensures ListEmails(rows, campaignId, status, a, offset) + ListEmails(rows, campaignId, status, b, offset + a)
            == ListEmails(rows, campaignId, status, a + b, offset)
  {
    var newest := Reverse(Filtered(rows, campaignId, status));
    var p := Range(newest, offset, a);
    var q := Range(newest, offset + a, b);
    RangeConcat(newest, offset, a, b);
    assert TransformAll(p) + TransformAll(q) == TransformAll(p + q);
  }

  lemma RangeConcat(s: seq<Row>, offset: nat, a: nat, b: nat)
    ensures Range(s, offset, a) + Range(s, offset + a, b) == Range(s, offset, a + b)
  {
  }

  /** The table positions of the rows a page lists: the listed positions,
      newest first, from `offset` on, at most `limit` of them. */
  function PagePositions(rows: seq<Row>, campaignId: string, status: Option<string>, limit: nat, offset: nat): seq<int> {
    Range(Reverse(ListedPositions(rows, campaignId, status)), offset, limit)
  }

  /** Picking elements by position commutes with reversing and taking a
      range. */
  lemma RangeOfPicked<T>(s: seq<T>, pos: seq<int>, offset: nat, limit: nat)
    requires forall k :: 0 <= k < |pos| ==> 0 <= pos[k] < |s|
    ensures var page := Range(Reverse(Picked(s, pos)), offset, limit);
      var at := Range(Reverse(pos), offset, limit);
      |page| == |at| && forall k :: 0 <= k < |at| ==> 0 <= at[k] < |s| && page[k] == s[at[k]]
  {
  }

  /** The rows of a page are the table's rows at the page's positions. */
  lemma PageRowsAt(rows: seq<Row>, campaignId: string, status: Option<string>, limit: nat, offset: nat)
    ensures var page := Range(Reverse(Filtered(rows, campaignId, status)), offset, limit);
      var at := PagePositions(rows, campaignId, status, limit, offset);
      |page| == |at| && forall k :: 0 <= k < |at| ==> page[k] == rows[at[k]]
  {
    var pos := ListedPositions(rows, campaignId, status);
    RangeOfPicked(rows, pos, offset, limit);
  }

  /** A page lists rows that pass the filters, each one later in the table
      than the next: newest first. */
  lemma ListEmailsPageOrder(rows: seq<Row>, campaignId: string, status: Option<string>, limit: nat, offset: nat)
    ensures var page := ListEmails(rows, campaignId, status, limit, offset);
      var at := PagePositions(rows, campaignId, status, limit, offset);
      && |page| == |at|
      && (forall k :: 0 <= k < |at| ==>
            0 <= at[k] < |rows| && Listed(rows[at[k]], campaignId, status) && page[k] == Transform(rows[at[k]]))
      && (forall k, l :: 0 <= k < l < |at| ==> at[k] > at[l])
  {
    PageRowsAt(rows, campaignId, status, limit, offset);
  }

  /** A range from the start that covers a list holds, reversed, all of it. */
  lemma FullRangeOfReverse(pos: seq<int>, limit: nat)
    requires limit >= |pos|
    ensures Range(Reverse(pos), 0, limit) == Reverse(pos)
    ensures forall x :: x in pos ==> x in Range(Reverse(pos), 0, limit)
  {
    forall x | x in pos
      ensures x in Reverse(pos)
    {
      var k :| 0 <= k < |pos| && pos[k] == x;
      assert Reverse(pos)[|pos| - 1 - k] == x;
    }
  }

  /** The first page, when the limit covers the table, lists every row that
      passes the filters: its position is on the page, which
      ListEmailsPageOrder ties to the email listed there. */
  lemma ListEmailsComplete(rows: seq<Row>, campaignId: string, status: Option<string>, limit: nat)
    requires limit >= |rows|
    ensures |ListEmails(rows, campaignId, status, limit, 0)| == |ListedPositions(rows, campaignId, status)|
    ensures forall j :: 0 <= j < |rows| && Listed(rows[j], campaignId, status) ==>
      j in PagePositions(rows, campaignId, status, limit, 0)
  {
    var pos := ListedPositions(rows, campaignId, status);
    PositionsBound(pos, |rows|);
    FullRangeOfReverse(pos, limit);
    PageRowsAt(rows, campaignId, status, limit, 0);
  }

  /** The first email listed is the newest row that passes the filters. */
  lemma ListEmailsNewestFirst(rows: seq<Row>, campaignId: string, status: Option<string>, j: int)
    requires 0 <= j < |rows| && Listed(rows[j], campaignId, status)
    requires forall k :: j < k < |rows| ==> !Listed(rows[k], campaignId, status)
    ensures |Filtered(rows, campaignId, status)| > 0
    ensures Reverse(Filtered(rows, campaignId, status))[0] == rows[j]
  {
    var pos := ListedPositions(rows, campaignId, status);
    var k :| 0 <= k < |pos| && pos[k] == j;
    var last := |pos| - 1;
    assert pos[last] >= j;
    assert pos[last] == j;
  }

  /** Every email of a page can be opened by the id it shows: get_email
      with that id answers the same email. */
  lemma ListedIdsFindTheirEmails(rows: seq<Row>, campaignId: string, status: Option<string>, limit: nat, offset: nat, k: int)
    requires IdsAreKeys(rows)
    requires 0 <= k < |ListEmails(rows, campaignId, status, limit, offset)|
    ensures var email := ListEmails(rows, campaignId, status, limit, offset)[k];
      email["id"].JStr? && GetEmail(rows, campaignId, email["id"].s) == Ok(email)
  {
    ListEmailsPageOrder(rows, campaignId, status, limit, offset);
    var at := PagePositions(rows, campaignId, status, limit, offset);
    ShownIdFindsRow(rows, campaignId, at[k]);
  }
}
