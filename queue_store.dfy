/** The `email_queue` table and the runner's operations on it
    (services/campaign-runner/db.py): the due-row query, the
    compare-and-set lock `mark_processing`, and the unconditional
    `mark_sent` / `mark_failed`. A store exception is an input flag
    `storeUp`: when it is false the call changes nothing and answers false. */
module QueueStore {
  import opened Wrappers
  import opened Scheduling

  datatype Status = Staged | Queued | Processing | Sent | Failed

  datatype QueueRow = QueueRow(
    campaignId: string,
    toEmail: string,
    subject: string,
    body: string,
    status: Status,
    metadata: map<string, string>,
    isEdited: bool,
    fromEmail: Option<string>,
    domainIndex: Option<int>,
    scheduledFor: Option<Time>,
    delaySeconds: int,
    sentAt: Option<Time>,
    errorMessage: Option<string>)

  /** A row the runner may pick up at `now`; a null time is never due. */
  predicate IsDue(r: QueueRow, now: Time) {
    r.status == Queued && r.scheduledFor.Some? && r.scheduledFor.value <= now
  }

  /** `a` is `b` with some elements left out, the rest kept in order. */
  predicate IsSubsequence(a: seq<int>, b: seq<int>)
    decreases |b|
  {
    |a| == 0 || (|b| > 0 && if a[0] == b[0] then IsSubsequence(a[1..], b[1..]) else IsSubsequence(a, b[1..]))
  }

  /** The ids of `ids` whose rows satisfy `keep`, in the order of `ids`. */
  function FilterIds(ids: seq<int>, rows: map<int, QueueRow>, keep: (int, QueueRow) -> bool): (r: seq<int>)
    ensures forall id :: id in r ==> id in ids && id in rows && keep(id, rows[id])
    ensures forall id :: id in ids && id in rows && keep(id, rows[id]) ==> id in r
    ensures |r| <= |ids|
  {
    if ids == [] then []
    else (if ids[0] in rows && keep(ids[0], rows[ids[0]]) then [ids[0]] else []) + FilterIds(ids[1..], rows, keep)
  }

  lemma {:induction false} FilterIdsOrdered(ids: seq<int>, rows: map<int, QueueRow>, keep: (int, QueueRow) -> bool)
    ensures IsSubsequence(FilterIds(ids, rows, keep), ids)
  {
    if ids != [] {
      FilterIdsOrdered(ids[1..], rows, keep);
      var tail := FilterIds(ids[1..], rows, keep);
      if ids[0] in rows && keep(ids[0], rows[ids[0]]) {
        assert FilterIds(ids, rows, keep) == [ids[0]] + tail;
        assert ([ids[0]] + tail)[1..] == tail;
      } else {
        assert FilterIds(ids, rows, keep) == tail;
        SubsequenceDropHead(tail, ids);
      }
    }
  }

  lemma {:induction false} SubsequenceDropHead(a: seq<int>, b: seq<int>)
    requires |b| > 0 && IsSubsequence(a, b[1..])
    ensures IsSubsequence(a, b)
    decreases |b|, 0
  {
    if |a| > 0 && a[0] == b[0] {
      SubsequenceTail(a, b[1..]);
    }
  }

  /** Dropping the first element of a subsequence keeps it a subsequence. */
  lemma {:induction false} SubsequenceTail(a: seq<int>, b: seq<int>)
    requires |a| > 0 && IsSubsequence(a, b)
    ensures IsSubsequence(a[1..], b)
    decreases |b|, 1
  {
    if a[0] == b[0] {
      SubsequenceDropHead(a[1..], b);
    } else {
      SubsequenceTail(a, b[1..]);
      SubsequenceDropHead(a[1..], b);
    }
  }

  predicate Distinct(s: seq<int>) {
    forall i, j :: 0 <= i < j < |s| ==> s[i] != s[j]
  }

  /** Filtering a list of distinct ids gives distinct ids. */
  lemma {:induction false} FilterIdsDistinct(ids: seq<int>, rows: map<int, QueueRow>, keep: (int, QueueRow) -> bool)
    requires Distinct(ids)
    ensures Distinct(FilterIds(ids, rows, keep))
  {
    if ids != [] {
      FilterIdsDistinct(ids[1..], rows, keep);
      var tail := FilterIds(ids[1..], rows, keep);
      assert ids[0] !in ids[1..];
      assert ids[0] !in tail;
    }
  }

  /** Filtering ids none of which is kept gives nothing. */
  lemma {:induction false} FilterIdsNone(ids: seq<int>, rows: map<int, QueueRow>, keep: (int, QueueRow) -> bool)
    requires forall id :: id in ids && id in rows ==> !keep(id, rows[id])
    ensures FilterIds(ids, rows, keep) == []
  {
    if ids != [] {
      assert forall id :: id in ids[1..] ==> id in ids;
      FilterIdsNone(ids[1..], rows, keep);
      var first := ids[0];
      assert first in ids;
      if first in rows {
        assert !keep(first, rows[first]);
      }
      assert FilterIds(ids, rows, keep) == [] + FilterIds(ids[1..], rows, keep);
    }
  }

  /** Filtering distributes over concatenation. */
  lemma {:induction false} FilterIdsAppend(a: seq<int>, b: seq<int>, rows: map<int, QueueRow>, keep: (int, QueueRow) -> bool)
    decreases |a|
    ensures FilterIds(a + b, rows, keep) == FilterIds(a, rows, keep) + FilterIds(b, rows, keep)
  {
    if a == [] {
      assert a + b == b;
    } else {
      assert (a + b)[0] == a[0];
      assert (a + b)[1..] == a[1..] + b;
      FilterIdsAppend(a[1..], b, rows, keep);
    }
  }

  /** A prefix of `a + b` that holds an element missing from `a` holds
      all of `a`. */
  lemma PrefixReachingPastFront(a: seq<int>, b: seq<int>, x: int, y: int, n: nat)
    requires n <= |a| + |b| && x !in a && x in (a + b)[..n] && y in a
    ensures y in (a + b)[..n]
  {
    var k :| 0 <= k < n && (a + b)[..n][k] == x;
    assert forall m :: 0 <= m < |a| ==> (a + b)[m] == a[m];
    assert k >= |a|;
    var m :| 0 <= m < |a| && a[m] == y;
    assert (a + b)[..n][m] == y;
  }

  /** Splitting the ids before position `j`: the filtered ids are those of
      the front followed by those of the rest, and the front keeps
      `ids[i]` but not `ids[j]`. */
  lemma FilterSplitAt(ids: seq<int>, rows: map<int, QueueRow>, keep: (int, QueueRow) -> bool, i: int, j: int)
    requires Distinct(ids) && 0 <= i < j < |ids|
    requires ids[i] in rows && keep(ids[i], rows[ids[i]])
    ensures FilterIds(ids, rows, keep) == FilterIds(ids[..j], rows, keep) + FilterIds(ids[j..], rows, keep)
    ensures ids[i] in FilterIds(ids[..j], rows, keep) && ids[j] !in FilterIds(ids[..j], rows, keep)
  {
    assert ids == ids[..j] + ids[j..];
    FilterIdsAppend(ids[..j], ids[j..], rows, keep);
    assert ids[i] == ids[..j][i];
    assert ids[j] !in ids[..j];
  }

  /** A prefix of the filtered ids that reaches `ids[j]` holds every kept
      id before it. */
  lemma FilterPrefixKeepsEarlier(ids: seq<int>, rows: map<int, QueueRow>, keep: (int, QueueRow) -> bool, n: nat, i: int, j: int)
    requires Distinct(ids) && 0 <= i < j < |ids|
    requires ids[i] in rows && keep(ids[i], rows[ids[i]])
    requires n <= |FilterIds(ids, rows, keep)| && ids[j] in FilterIds(ids, rows, keep)[..n]
    ensures ids[i] in FilterIds(ids, rows, keep)[..n]
  {
    FilterSplitAt(ids, rows, keep, i, j);
    PrefixReachingPastFront(FilterIds(ids[..j], rows, keep), FilterIds(ids[j..], rows, keep), ids[j], ids[i], n);
  }

  /** Every prefix of the filtered ids is closed under "kept and earlier". */
  lemma FilterPrefixOldestFirst(ids: seq<int>, rows: map<int, QueueRow>, keep: (int, QueueRow) -> bool, n: nat)
    requires Distinct(ids) && n <= |FilterIds(ids, rows, keep)|
    ensures forall i, j ::
      (0 <= i < j < |ids| && ids[j] in FilterIds(ids, rows, keep)[..n] && ids[i] in rows && keep(ids[i], rows[ids[i]]))
      ==> ids[i] in FilterIds(ids, rows, keep)[..n]
  {
    forall i, j | 0 <= i < j < |ids| && ids[j] in FilterIds(ids, rows, keep)[..n] &&
      ids[i] in rows && keep(ids[i], rows[ids[i]])
      ensures ids[i] in FilterIds(ids, rows, keep)[..n]
    {
      FilterPrefixKeepsEarlier(ids, rows, keep, n, i, j);
    }
  }

  function Take(s: seq<int>, n: nat): (r: seq<int>)
    ensures |r| <= n && |r| <= |s|
    ensures r == s[..|r|]
    ensures |r| < n ==> r == s
  {
    if |s| <= n then s else s[..n]
  }

  class EmailQueue {
    /** Rows by id. */
    var rows: map<int, QueueRow>
    /** Row ids in `created_at` order. */
    var order: seq<int>
    /** The next serial id. */
    var nextId: int

    ghost predicate Valid()
      reads this
    {
      Distinct(order)
      && (forall id :: id in rows <==> id in order)
      && (forall id :: id in rows ==> 0 < id < nextId)
      && 0 < nextId
    }

    constructor ()
      ensures Valid() && rows == map[] && order == []
    {
      rows := map[];
      order := [];
      nextId := 1;
    }

    /** get_queued_emails: the due rows, oldest first, at most `limit` of
        them; no due row is skipped in favour of a later one. */
    function QueuedEmails(now: Time, limit: nat): (r: seq<int>)
      requires Valid()
      reads this
      ensures |r| <= limit
      ensures forall id :: id in r ==> id in rows && IsDue(rows[id], now)
      ensures IsSubsequence(r, order)
      ensures |r| < limit ==> forall id :: id in order && id in rows && IsDue(rows[id], now) ==> id in r
      ensures forall i, j ::
        (0 <= i < j < |order| && order[j] in r && order[i] in rows && IsDue(rows[order[i]], now))
        ==> order[i] in r
    {
      var keep := (_: int, x: QueueRow) => IsDue(x, now);
      var due := FilterIds(order, rows, keep);
      FilterIdsOrdered(order, rows, keep);
      PrefixOfSubsequence(Take(due, limit), due, order);
      FilterPrefixOldestFirst(order, rows, keep, |Take(due, limit)|);
      Take(due, limit)
    }

    /** `insert(row)`: the row gets the next serial id and the latest
        `created_at`. */
    method Insert(row: QueueRow) returns (id: int)
      requires Valid()
      modifies this
      ensures Valid() && id == old(nextId) && id !in old(rows) && nextId == id + 1
      ensures rows == old(rows)[id := row] && order == old(order) + [id]
    {
      id := nextId;
      assert id !in order;
      rows := rows[id := row];
      order := order + [id];
      nextId := nextId + 1;
    }

    /** `delete().eq("campaign_id", c).eq("status", s)`. */
    method DeleteWhere(campaignId: string, status: Status)
      requires Valid()
      modifies this
      ensures Valid() && nextId == old(nextId)
      ensures rows == RowsWithout(old(rows), campaignId, status)
      ensures order == FilterIds(old(order), old(rows), (_: int, x: QueueRow) => !Matches(x, campaignId, status))
    {
      FilterIdsDistinct(order, rows, (_: int, x: QueueRow) => !Matches(x, campaignId, status));
      order := FilterIds(order, rows, (_: int, x: QueueRow) => !Matches(x, campaignId, status));
      rows := RowsWithout(rows, campaignId, status);
    }

    /** `update(row).eq("id", id)`: replaces an existing row; an id with no
        row matches nothing. */
    method UpdateRow(id: int, row: QueueRow)
      requires Valid()
      modifies this
      ensures Valid() && order == old(order) && nextId == old(nextId)
      ensures rows == if id in old(rows) then old(rows)[id := row] else old(rows)
    {
      if id in rows {
        rows := rows[id := row];
      }
    }

    /** mark_processing: set `processing` only on a row still `queued`;
        true iff a row changed. */
    method MarkProcessing(id: int, storeUp: bool) returns (locked: bool)
      requires Valid()
      modifies this
      ensures Valid() && order == old(order) && nextId == old(nextId)
      ensures locked == LockTaken(old(rows), id, storeUp)
      ensures rows == AfterMarkProcessing(old(rows), id, storeUp)
    {
      locked := LockTaken(rows, id, storeUp);
      if locked {
        rows := rows[id := rows[id].(status := Processing)];
      }
    }

    /** mark_sent: `sent` and `sent_at`, whatever the current status. */
    method MarkSent(id: int, at: Time, storeUp: bool) returns (ok: bool)
      requires Valid()
      modifies this
      ensures Valid() && order == old(order) && nextId == old(nextId)
      ensures ok <==> storeUp && id in old(rows)
      ensures rows == AfterMarkSent(old(rows), id, at, storeUp)
    {
      ok := storeUp && id in rows;
      if ok {
        rows := rows[id := rows[id].(status := Sent, sentAt := Some(at))];
      }
    }

    /** mark_failed: `failed` and the message, whatever the current status. */
    method MarkFailed(id: int, message: string, storeUp: bool) returns (ok: bool)
      requires Valid()
      modifies this
      ensures Valid() && order == old(order) && nextId == old(nextId)
      ensures ok <==> storeUp && id in old(rows)
      ensures rows == AfterMarkFailed(old(rows), id, message, storeUp)
    {
      ok := storeUp && id in rows;
      if ok {
        rows := rows[id := rows[id].(status := Failed, errorMessage := Some(message))];
      }
    }
  }

  predicate Matches(r: QueueRow, campaignId: string, status: Status) {
    r.campaignId == campaignId && r.status == status
  }

  /** The table without the rows of one campaign in one status. */
  function RowsWithout(rows: map<int, QueueRow>, campaignId: string, status: Status): (r: map<int, QueueRow>)
    ensures forall id :: id in r <==> id in rows && !Matches(rows[id], campaignId, status)
    ensures forall id :: id in r ==> r[id] == rows[id]
  {
    map id | id in rows && !Matches(rows[id], campaignId, status) :: rows[id]
  }

  lemma {:induction false} PrefixOfSubsequence(p: seq<int>, a: seq<int>, b: seq<int>)
    requires |p| <= |a| && p == a[..|p|] && IsSubsequence(a, b)
    ensures IsSubsequence(p, b)
    decreases |b|
  {
    if |p| > 0 {
      assert |a| > 0 && |b| > 0;
      if a[0] == b[0] {
        assert p[1..] == a[1..][..|p[1..]|];
        PrefixOfSubsequence(p[1..], a[1..], b[1..]);
      } else {
        PrefixOfSubsequence(p, a, b[1..]);
      }
    }
  }

  /** Whether mark_processing takes the lock: the store answers and the row
      exists and is still queued. */
  predicate LockTaken(rows: map<int, QueueRow>, id: int, storeUp: bool) {
    storeUp && id in rows && rows[id].status == Queued
  }

  function AfterMarkProcessing(rows: map<int, QueueRow>, id: int, storeUp: bool): map<int, QueueRow> {
    if LockTaken(rows, id, storeUp) then rows[id := rows[id].(status := Processing)] else rows
  }

  function AfterMarkSent(rows: map<int, QueueRow>, id: int, at: Time, storeUp: bool): map<int, QueueRow> {
    if storeUp && id in rows then rows[id := rows[id].(status := Sent, sentAt := Some(at))] else rows
  }

  function AfterMarkFailed(rows: map<int, QueueRow>, id: int, message: string, storeUp: bool): map<int, QueueRow> {
    if storeUp && id in rows then rows[id := rows[id].(status := Failed, errorMessage := Some(message))] else rows
  }

  /** The lock is exclusive: once a row is taken, a second mark_processing
      on it answers false and changes nothing; only the status of that one
      row changed, and nothing else is touched. */
  lemma LockIsExclusive(rows: map<int, QueueRow>, id: int, storeUp: bool, again: bool)
    requires LockTaken(rows, id, storeUp)
    ensures var after := AfterMarkProcessing(rows, id, storeUp);
      && !LockTaken(after, id, again)
      && AfterMarkProcessing(after, id, again) == after
      && after.Keys == rows.Keys
      && after[id] == rows[id].(status := Processing)
      && forall k :: k in rows && k != id ==> after[k] == rows[k]
  {
  }

  /** A row not due at `now` is never picked, and when no row is due the
      query is empty. */
  lemma NothingDueNothingPicked(q: EmailQueue, now: Time, limit: nat)
    requires q.Valid()
    requires forall id :: id in q.rows ==> !IsDue(q.rows[id], now)
    ensures q.QueuedEmails(now, limit) == []
  {
    FilterIdsNone(q.order, q.rows, (_: int, x: QueueRow) => IsDue(x, now));
  }

  /** mark_sent and mark_failed overwrite any status, including a row that
      was never locked, and touch no other row. */
  lemma MarksAreUnconditional(rows: map<int, QueueRow>, id: int, at: Time, message: string)
    requires id in rows
    ensures AfterMarkSent(rows, id, at, true)[id].status == Sent
    ensures AfterMarkSent(rows, id, at, true)[id].sentAt == Some(at)
    ensures AfterMarkFailed(rows, id, message, true)[id].status == Failed
    ensures AfterMarkFailed(rows, id, message, true)[id].errorMessage == Some(message)
    ensures forall k :: k in rows && k != id ==>
      AfterMarkSent(rows, id, at, true)[k] == rows[k] && AfterMarkFailed(rows, id, message, true)[k] == rows[k]
  {
  }
}
