/** The launch task (services/api/tasks/launch.py): the staged rows of a
    campaign are read in pages, every email gets a sending domain (a pre-set
    index or round-robin) and a `scheduled_for` spaced at least one interval
    after the previous send on that domain index, in this run or in any other
    campaign's queued/processing rows, and the campaign becomes `scheduled`.

    The clock reading and the random jitter of each email are inputs. The
    listing of other campaigns' schedules is an input too: the database
    returns it sorted by time, newest first. */
module Launch {
  import opened Wrappers
  import opened Scheduling
  import opened QueueStore
  import opened CampaignStore

  const BATCH_SIZE: nat := 1000
  const WORKING_HOUR_START: int := 9
  const WORKING_HOUR_END: int := 17
  /** INTERVAL_MINUTES = 3.5, in milliseconds. */
  const INTERVAL_MS: int := 210000
  /** JITTER_SECONDS_MAX = 30, in milliseconds: jitter lies in [0, 30000). */
  const JITTER_MS_MAX: int := 30000
  const DEFAULT_SENDER: string := "jeff_richmond"

  predicate ValidJitters(jitters: seq<int>) {
    forall k :: 0 <= k < |jitters| ==> 0 <= jitters[k] < JITTER_MS_MAX
  }

  // ---------------------------------------------------------------------
  // Paging

  /** One page of a listing: Supabase's `range(offset, offset + size - 1)`. */
  function Page<T>(all: seq<T>, offset: nat, size: nat): (r: seq<T>)
    ensures |r| <= size
    ensures offset + size <= |all| ==> r == all[offset..offset + size]
    ensures offset + size > |all| ==> r == (if offset <= |all| then all[offset..] else [])
  {
    if offset >= |all| then [] else if offset + size <= |all| then all[offset..offset + size] else all[offset..]
  }

  /** The paging loop: pages of BATCH_SIZE until an empty or short page.
      Every row of the listing is read, once, in listing order. */
  method FetchAllPages<T>(all: seq<T>) returns (got: seq<T>)
    ensures got == all
  {
    got := [];
    var offset: nat := 0;
    while true
      invariant offset <= |all| && got == all[..offset]
      decreases |all| - offset
    {
      var batch := Page(all, offset, BATCH_SIZE);
      if batch == [] {
        break;
      }
      got := got + batch;
      if |batch| < BATCH_SIZE {
        assert got == all;
        break;
      }
      offset := offset + BATCH_SIZE;
    }
  }

  /** The staged rows of the campaign in `created_at` order, restricted to
      `emailIds` only when `all` is false and `emailIds` is non-empty. */
  function StagedSelection(rows: map<int, QueueRow>, order: seq<int>, campaignId: string,
                           allEmails: bool, emailIds: seq<int>): (r: seq<int>)
    ensures forall id :: id in r <==>
      id in order && id in rows && rows[id].campaignId == campaignId && rows[id].status == Staged
      && (allEmails || |emailIds| == 0 || id in emailIds)
    ensures |r| <= |order|
  {
    FilterIds(order, rows, (id: int, x: QueueRow) =>
      x.campaignId == campaignId && x.status == Staged && (allEmails || |emailIds| == 0 || id in emailIds))
  }

  // ---------------------------------------------------------------------
  // Latest time per domain among other rows

  datatype ScheduleEntry = ScheduleEntry(domainIndex: Option<int>, scheduledFor: Time)

  /** A row the coordination query lists: queued or processing, with a time. */
  predicate Coordinating(r: QueueRow) {
    (r.status == Queued || r.status == Processing) && r.scheduledFor.Some?
  }

  predicate SortedNewestFirst(e: seq<ScheduleEntry>) {
    forall i, j :: 0 <= i < j < |e| ==> e[i].scheduledFor >= e[j].scheduledFor
  }

  /** `e` lists every coordinating row of the table: what the coordination
      query of the launch and retry tasks reads before any row is updated. */
  predicate ListsCoordinating(e: seq<ScheduleEntry>, rows: map<int, QueueRow>) {
    forall id :: id in rows && Coordinating(rows[id]) ==>
      ScheduleEntry(rows[id].domainIndex, rows[id].scheduledFor.value) in e
  }

  /** The first time listed for each domain index; entries without an index
      are skipped. */
  function FirstPerDomain(e: seq<ScheduleEntry>): map<int, Time> {
    if e == [] then map[]
    else
      var m := FirstPerDomain(e[1..]);
      if e[0].domainIndex.Some? then m[e[0].domainIndex.value := e[0].scheduledFor] else m
  }

  /** On a newest-first listing, the first time seen for a domain is its
      latest one, and it is one of the listed times. */
  lemma {:induction false} FirstPerDomainIsLatest(e: seq<ScheduleEntry>)
    requires SortedNewestFirst(e)
    ensures var m := FirstPerDomain(e);
      && (forall k :: 0 <= k < |e| && e[k].domainIndex.Some? ==>
            e[k].domainIndex.value in m && e[k].scheduledFor <= m[e[k].domainIndex.value])
      && (forall d :: d in m ==> ScheduleEntry(Some(d), m[d]) in e)
  {
    if e != [] {
      FirstPerDomainIsLatest(e[1..]);
      var m := FirstPerDomain(e);
      forall k | 0 <= k < |e| && e[k].domainIndex.Some?
        ensures e[k].domainIndex.value in m && e[k].scheduledFor <= m[e[k].domainIndex.value]
      {
        if k > 0 {
          assert e[k] == e[1..][k - 1];
        }
      }
      forall d | d in m ensures ScheduleEntry(Some(d), m[d]) in e {
        if !(e[0].domainIndex == Some(d)) {
          assert ScheduleEntry(Some(d), m[d]) in e[1..];
        }
      }
    }
  }

  lemma {:induction false} FirstPerDomainSnoc(e: seq<ScheduleEntry>, x: ScheduleEntry)
    ensures FirstPerDomain(e + [x]) ==
      if x.domainIndex.Some? && x.domainIndex.value !in FirstPerDomain(e)
      then FirstPerDomain(e)[x.domainIndex.value := x.scheduledFor]
      else FirstPerDomain(e)
  {
    if e != [] {
      assert (e + [x])[1..] == e[1..] + [x];
      FirstPerDomainSnoc(e[1..], x);
    } else {
      assert (e + [x])[1..] == [];
    }
  }

  /** The loop that builds `domain_last_scheduled`: the first entry seen for
      each domain index is kept. */
  method DomainLastScheduled(e: seq<ScheduleEntry>) returns (m: map<int, Time>)
    ensures m == FirstPerDomain(e)
  {
    m := map[];
    var i := 0;
    while i < |e|
      invariant 0 <= i <= |e| && m == FirstPerDomain(e[..i])
    {
      FirstPerDomainSnoc(e[..i], e[i]);
      assert e[..i + 1] == e[..i] + [e[i]];
      if e[i].domainIndex.Some? && e[i].domainIndex.value !in m {
        m := m[e[i].domainIndex.value := e[i].scheduledFor];
      }
      i := i + 1;
    }
    assert e[..i] == e;
  }

  // ---------------------------------------------------------------------
  // The scheduling plan

  /** adjust_to_working_hours with the configured hours and weekends skipped. */
  function Adjust(c: Time): Time {
    AdjustToWorkingHours(c, WORKING_HOUR_END, WORKING_HOUR_START, true)
  }

  function StartTime(now: Time): Time {
    GetStartTimeInTimezone(now, WORKING_HOUR_START, WORKING_HOUR_END, true)
  }

  /** A pre-set index is kept; otherwise the round-robin counter picks one. */
  function ChooseDomain(preset: Option<int>, rr: nat, poolSize: nat): int
    requires poolSize > 0
  {
    match preset
    case Some(d) => d
    case None => rr % poolSize
  }

  /** The time of the next email on domain index `d`: one interval plus
      jitter after this run's previous email on `d`, else after the latest
      other row on `d`, else the start time plus jitter; then adjusted. */
  function NextTime(last: map<int, Time>, current: map<int, Time>, d: int, jitter: int, start: Time): Time {
    if d in last && d !in current then Adjust(last[d] + INTERVAL_MS + jitter)
    else if d in current then Adjust(current[d] + INTERVAL_MS + jitter)
    else Adjust(start + jitter)
  }

  datatype Slot = Slot(domainIndex: int, config: DomainConfig, scheduledFor: Time)

  /** The slots given to the emails in order; `aborted` when an index
      outside the pool raised IndexError and ended the run there. */
  datatype PlanResult = PlanResult(slots: seq<Slot>, aborted: bool)

  function Plan(presets: seq<Option<int>>, jitters: seq<int>, configs: seq<DomainConfig>,
                last: map<int, Time>, current: map<int, Time>, rr: nat, start: Time): (r: PlanResult)
    requires |jitters| >= |presets| && |configs| > 0
    decreases |presets|
    ensures |r.slots| <= |presets|
    ensures !r.aborted <==> |r.slots| == |presets|
  {
    if presets == [] then PlanResult([], false)
    else
      var d := ChooseDomain(presets[0], rr, |configs|);
      match PyIndex(configs, d)
      case None => PlanResult([], true)
      case Some(cfg) =>
        var t := NextTime(last, current, d, jitters[0], start);
        var rest := Plan(presets[1..], jitters[1..], configs, last[d := t], current[d := t], rr + 1, start);
        PlanResult([Slot(d, cfg, t)] + rest.slots, rest.aborted)
  }

  /** One step of the plan: the first email's slot, then the rest planned
      with the maps and counter updated. */
  lemma PlanCons(presets: seq<Option<int>>, jitters: seq<int>, configs: seq<DomainConfig>,
                 last: map<int, Time>, current: map<int, Time>, rr: nat, start: Time)
    requires |jitters| >= |presets| && |configs| > 0 && presets != []
    ensures var d := ChooseDomain(presets[0], rr, |configs|);
      var t := NextTime(last, current, d, jitters[0], start);
      Plan(presets, jitters, configs, last, current, rr, start) ==
        if PyIndex(configs, d).None? then PlanResult([], true)
        else
          var rest := Plan(presets[1..], jitters[1..], configs, last[d := t], current[d := t], rr + 1, start);
          PlanResult([Slot(d, PyIndex(configs, d).value, t)] + rest.slots, rest.aborted)
  {
  }

  /** The k-th email gets the pre-set index or the round-robin index of the
      k-th email (the counter advances for pre-set rows too) and the pool
      entry Python's indexing gives; a run that stops does so at an index
      outside the pool. */
  lemma {:induction false} PlanDomains(presets: seq<Option<int>>, jitters: seq<int>, configs: seq<DomainConfig>,
                                       last: map<int, Time>, current: map<int, Time>, rr: nat, start: Time)
    requires |jitters| >= |presets| && |configs| > 0
    decreases |presets|
    ensures var r := Plan(presets, jitters, configs, last, current, rr, start);
      && (forall k :: 0 <= k < |r.slots| ==>
            r.slots[k].domainIndex == ChooseDomain(presets[k], rr + k, |configs|)
            && PyIndex(configs, r.slots[k].domainIndex) == Some(r.slots[k].config))
      && (r.aborted ==> PyIndex(configs, ChooseDomain(presets[|r.slots|], rr + |r.slots|, |configs|)).None?)
  {
    if presets != [] {
      PlanCons(presets, jitters, configs, last, current, rr, start);
      var d := ChooseDomain(presets[0], rr, |configs|);
      if PyIndex(configs, d).Some? {
        var t := NextTime(last, current, d, jitters[0], start);
        var r := Plan(presets, jitters, configs, last, current, rr, start);
        var rest := Plan(presets[1..], jitters[1..], configs, last[d := t], current[d := t], rr + 1, start);
        PlanDomains(presets[1..], jitters[1..], configs, last[d := t], current[d := t], rr + 1, start);
        DomainsStep(r, rest, Slot(d, PyIndex(configs, d).value, t), presets, configs, rr);
      }
    }
  }

  /** The step of PlanDomains over the slots alone: what holds of the rest
      planned from the next email holds, shifted by one, of the whole. */
  lemma DomainsStep(r: PlanResult, rest: PlanResult, first: Slot, presets: seq<Option<int>>,
                    configs: seq<DomainConfig>, rr: nat)
    requires |configs| > 0 && presets != [] && |rest.slots| < |presets|
    requires rest.aborted ==> |rest.slots| < |presets| - 1
    requires r.slots == [first] + rest.slots && r.aborted == rest.aborted
    requires first.domainIndex == ChooseDomain(presets[0], rr, |configs|)
    requires PyIndex(configs, first.domainIndex) == Some(first.config)
    requires forall k :: 0 <= k < |rest.slots| ==>
      rest.slots[k].domainIndex == ChooseDomain(presets[1..][k], rr + 1 + k, |configs|)
      && PyIndex(configs, rest.slots[k].domainIndex) == Some(rest.slots[k].config)
    requires rest.aborted ==> PyIndex(configs, ChooseDomain(presets[1..][|rest.slots|], rr + 1 + |rest.slots|, |configs|)).None?
    ensures forall k :: 0 <= k < |r.slots| ==>
      r.slots[k].domainIndex == ChooseDomain(presets[k], rr + k, |configs|)
      && PyIndex(configs, r.slots[k].domainIndex) == Some(r.slots[k].config)
    ensures r.aborted ==> PyIndex(configs, ChooseDomain(presets[|r.slots|], rr + |r.slots|, |configs|)).None?
  {
    forall k | 0 <= k < |r.slots|
      ensures r.slots[k].domainIndex == ChooseDomain(presets[k], rr + k, |configs|)
        && PyIndex(configs, r.slots[k].domainIndex) == Some(r.slots[k].config)
    {
      if k > 0 {
        assert r.slots[k] == rest.slots[k - 1];
        assert presets[1..][k - 1] == presets[k];
      }
    }
    if r.aborted {
      assert presets[1..][|rest.slots|] == presets[|r.slots|];
    }
  }

  /** This run's times are also recorded as latest times. */
  predicate CurrentWithinLast(last: map<int, Time>, current: map<int, Time>) {
    forall d :: d in current ==> d in last && current[d] == last[d]
  }

  lemma AdjustNotEarlier(c: Time)
    ensures Adjust(c) >= c
  {
    AdjustKeepsIff(c, WORKING_HOUR_END, WORKING_HOUR_START, true);
  }

  /** Every slot on an index already in `last` is at least one interval
      after that latest time. */
  lemma {:induction false} PlanAfterLatest(presets: seq<Option<int>>, jitters: seq<int>, configs: seq<DomainConfig>,
                                           last: map<int, Time>, current: map<int, Time>, rr: nat, start: Time)
    requires |jitters| >= |presets| && |configs| > 0 && ValidJitters(jitters)
    requires CurrentWithinLast(last, current)
    decreases |presets|
    ensures var r := Plan(presets, jitters, configs, last, current, rr, start);
      forall k :: 0 <= k < |r.slots| && r.slots[k].domainIndex in last ==>
        r.slots[k].scheduledFor >= last[r.slots[k].domainIndex] + INTERVAL_MS
  {
    if presets != [] {
      var d := ChooseDomain(presets[0], rr, |configs|);
      if PyIndex(configs, d).Some? {
        var t := NextTime(last, current, d, jitters[0], start);
        var r := Plan(presets, jitters, configs, last, current, rr, start);
        var rest := Plan(presets[1..], jitters[1..], configs, last[d := t], current[d := t], rr + 1, start);
        PlanCons(presets, jitters, configs, last, current, rr, start);
        assert 0 <= jitters[0];
        if d in current {
          AdjustNotEarlier(current[d] + INTERVAL_MS + jitters[0]);
        } else if d in last {
          AdjustNotEarlier(last[d] + INTERVAL_MS + jitters[0]);
        }
        assert d in last ==> t >= last[d] + INTERVAL_MS;
        PlanAfterLatest(presets[1..], jitters[1..], configs, last[d := t], current[d := t], rr + 1, start);
        forall k | 0 <= k < |r.slots| && r.slots[k].domainIndex in last
          ensures r.slots[k].scheduledFor >= last[r.slots[k].domainIndex] + INTERVAL_MS
        {
          if k > 0 {
            assert r.slots[k] == rest.slots[k - 1];
          }
        }
      }
    }
  }

  /** Per-domain spacing: two slots on the same domain index are at least
      one interval apart, the later one after the earlier one. */
  lemma {:induction false} PlanSpacing(presets: seq<Option<int>>, jitters: seq<int>, configs: seq<DomainConfig>,
                                       last: map<int, Time>, current: map<int, Time>, rr: nat, start: Time)
    requires |jitters| >= |presets| && |configs| > 0 && ValidJitters(jitters)
    requires CurrentWithinLast(last, current)
    decreases |presets|
    ensures var r := Plan(presets, jitters, configs, last, current, rr, start);
      forall k, l :: 0 <= k < l < |r.slots| && r.slots[k].domainIndex == r.slots[l].domainIndex ==>
        r.slots[l].scheduledFor >= r.slots[k].scheduledFor + INTERVAL_MS
  {
    if presets != [] {
      var d := ChooseDomain(presets[0], rr, |configs|);
      if PyIndex(configs, d).Some? {
        var t := NextTime(last, current, d, jitters[0], start);
        var r := Plan(presets, jitters, configs, last, current, rr, start);
        var rest := Plan(presets[1..], jitters[1..], configs, last[d := t], current[d := t], rr + 1, start);
        PlanCons(presets, jitters, configs, last, current, rr, start);
        PlanSpacing(presets[1..], jitters[1..], configs, last[d := t], current[d := t], rr + 1, start);
        PlanAfterLatest(presets[1..], jitters[1..], configs, last[d := t], current[d := t], rr + 1, start);
        forall k, l | 0 <= k < l < |r.slots| && r.slots[k].domainIndex == r.slots[l].domainIndex
          ensures r.slots[l].scheduledFor >= r.slots[k].scheduledFor + INTERVAL_MS
        {
          assert r.slots[l] == rest.slots[l - 1];
          if k > 0 {
            assert r.slots[k] == rest.slots[k - 1];
          }
        }
      }
    }
  }

  /** Every slot is Monday to Friday and before the end hour. */
  lemma {:induction false} PlanBeforeEnd(presets: seq<Option<int>>, jitters: seq<int>, configs: seq<DomainConfig>,
                                         last: map<int, Time>, current: map<int, Time>, rr: nat, start: Time)
    requires |jitters| >= |presets| && |configs| > 0
    decreases |presets|
    ensures var r := Plan(presets, jitters, configs, last, current, rr, start);
      forall k :: 0 <= k < |r.slots| ==>
        !IsWeekend(r.slots[k].scheduledFor) && HourOf(r.slots[k].scheduledFor) < WORKING_HOUR_END
  {
    if presets != [] {
      var d := ChooseDomain(presets[0], rr, |configs|);
      if PyIndex(configs, d).Some? {
        var j := jitters[0];
        var t := NextTime(last, current, d, j, start);
        var r := Plan(presets, jitters, configs, last, current, rr, start);
        var rest := Plan(presets[1..], jitters[1..], configs, last[d := t], current[d := t], rr + 1, start);
        PlanCons(presets, jitters, configs, last, current, rr, start);
        if d in last && d !in current {
          AdjustLandsBeforeEnd(last[d] + INTERVAL_MS + j, WORKING_HOUR_END, WORKING_HOUR_START);
        } else if d in current {
          AdjustLandsBeforeEnd(current[d] + INTERVAL_MS + j, WORKING_HOUR_END, WORKING_HOUR_START);
        } else {
          AdjustLandsBeforeEnd(start + j, WORKING_HOUR_END, WORKING_HOUR_START);
        }
        PlanBeforeEnd(presets[1..], jitters[1..], configs, last[d := t], current[d := t], rr + 1, start);
        forall k | 0 <= k < |r.slots|
          ensures !IsWeekend(r.slots[k].scheduledFor) && HourOf(r.slots[k].scheduledFor) < WORKING_HOUR_END
        {
          if k > 0 {
            assert r.slots[k] == rest.slots[k - 1];
          }
        }
      }
    }
  }

  predicate InSendingWindow(t: Time) {
    InWindow(t, WORKING_HOUR_START, WORKING_HOUR_END)
  }

  /** When the start time and every latest time of other rows lie in the
      window, so does every slot: the spacing never pushes a send outside
      working hours. */
  lemma {:induction false} PlanInWindow(presets: seq<Option<int>>, jitters: seq<int>, configs: seq<DomainConfig>,
                                        last: map<int, Time>, current: map<int, Time>, rr: nat, start: Time)
    requires |jitters| >= |presets| && |configs| > 0 && ValidJitters(jitters)
    requires InSendingWindow(start)
    requires forall d :: d in last ==> InSendingWindow(last[d])
    requires forall d :: d in current ==> InSendingWindow(current[d])
    decreases |presets|
    ensures var r := Plan(presets, jitters, configs, last, current, rr, start);
      forall k :: 0 <= k < |r.slots| ==> InSendingWindow(r.slots[k].scheduledFor)
  {
    if presets != [] {
      var d := ChooseDomain(presets[0], rr, |configs|);
      if PyIndex(configs, d).Some? {
        var j := jitters[0];
        var t := NextTime(last, current, d, j, start);
        var r := Plan(presets, jitters, configs, last, current, rr, start);
        var rest := Plan(presets[1..], jitters[1..], configs, last[d := t], current[d := t], rr + 1, start);
        PlanCons(presets, jitters, configs, last, current, rr, start);
        assert 0 <= j < JITTER_MS_MAX;
        if d in last && d !in current {
          AdjustStaysInWindow(last[d], INTERVAL_MS + j, WORKING_HOUR_END, WORKING_HOUR_START);
        } else if d in current {
          AdjustStaysInWindow(current[d], INTERVAL_MS + j, WORKING_HOUR_END, WORKING_HOUR_START);
        } else {
          AdjustStaysInWindow(start, j, WORKING_HOUR_END, WORKING_HOUR_START);
        }
        PlanInWindow(presets[1..], jitters[1..], configs, last[d := t], current[d := t], rr + 1, start);
        WindowStep(r.slots, rest.slots, Slot(d, PyIndex(configs, d).value, t));
      }
    }
  }

  /** The step of PlanInWindow over the slots alone. */
  lemma WindowStep(slots: seq<Slot>, rest: seq<Slot>, first: Slot)
    requires slots == [first] + rest && InSendingWindow(first.scheduledFor)
    requires forall k :: 0 <= k < |rest| ==> InSendingWindow(rest[k].scheduledFor)
    ensures forall k :: 0 <= k < |slots| ==> InSendingWindow(slots[k].scheduledFor)
  {
    forall k | 0 <= k < |slots| ensures InSendingWindow(slots[k].scheduledFor) {
      if k > 0 {
        assert slots[k] == rest[k - 1];
      }
    }
  }

  /** The first email on an index unused so far, by this run and by other
      rows, goes out at the adjusted start time plus its jitter. */
  lemma {:induction false} PlanFreshDomainAtStart(presets: seq<Option<int>>, jitters: seq<int>, configs: seq<DomainConfig>,
                                                  last: map<int, Time>, current: map<int, Time>, rr: nat, start: Time)
    requires |jitters| >= |presets| && |configs| > 0
    requires CurrentWithinLast(last, current)
    decreases |presets|
    ensures var r := Plan(presets, jitters, configs, last, current, rr, start);
      forall k :: (0 <= k < |r.slots| && r.slots[k].domainIndex !in last
                   && (forall m :: 0 <= m < k ==> r.slots[m].domainIndex != r.slots[k].domainIndex)) ==>
        r.slots[k].scheduledFor == Adjust(start + jitters[k])
  {
    if presets != [] {
      var d := ChooseDomain(presets[0], rr, |configs|);
      if PyIndex(configs, d).Some? {
        var t := NextTime(last, current, d, jitters[0], start);
        var r := Plan(presets, jitters, configs, last, current, rr, start);
        var rest := Plan(presets[1..], jitters[1..], configs, last[d := t], current[d := t], rr + 1, start);
        PlanCons(presets, jitters, configs, last, current, rr, start);
        PlanFreshDomainAtStart(presets[1..], jitters[1..], configs, last[d := t], current[d := t], rr + 1, start);
        assert d !in last ==> t == Adjust(start + jitters[0]);
        FreshStep(r.slots, rest.slots, Slot(d, PyIndex(configs, d).value, t), jitters, last, start);
      }
    }
  }

  /** The step of PlanFreshDomainAtStart over the slots alone. */
  lemma FreshStep(slots: seq<Slot>, rest: seq<Slot>, first: Slot, jitters: seq<int>, last: map<int, Time>, start: Time)
    requires slots == [first] + rest && |jitters| >= |slots|
    requires first.domainIndex !in last ==> first.scheduledFor == Adjust(start + jitters[0])
    requires var last' := last[first.domainIndex := first.scheduledFor];
      forall k :: (0 <= k < |rest| && rest[k].domainIndex !in last'
                   && (forall m :: 0 <= m < k ==> rest[m].domainIndex != rest[k].domainIndex)) ==>
        rest[k].scheduledFor == Adjust(start + jitters[1..][k])
    ensures forall k :: (0 <= k < |slots| && slots[k].domainIndex !in last
                         && (forall m :: 0 <= m < k ==> slots[m].domainIndex != slots[k].domainIndex)) ==>
      slots[k].scheduledFor == Adjust(start + jitters[k])
  {
    forall k | 0 <= k < |slots| && slots[k].domainIndex !in last
      && (forall m :: 0 <= m < k ==> slots[m].domainIndex != slots[k].domainIndex)
      ensures slots[k].scheduledFor == Adjust(start + jitters[k])
    {
      if k > 0 {
        FreshInRest(slots, rest, last, first.domainIndex, first.scheduledFor, k);
        assert jitters[1..][k - 1] == jitters[k];
      }
    }
  }

  lemma FreshInRest(slots: seq<Slot>, rest: seq<Slot>, last: map<int, Time>, d: int, t: Time, k: int)
    requires |slots| == |rest| + 1 && slots[1..] == rest && slots[0].domainIndex == d
    requires 0 < k < |slots| && slots[k].domainIndex !in last
    requires forall m :: 0 <= m < k ==> slots[m].domainIndex != slots[k].domainIndex
    ensures rest[k - 1] == slots[k]
    ensures rest[k - 1].domainIndex !in last[d := t]
    ensures forall m :: 0 <= m < k - 1 ==> rest[m].domainIndex != rest[k - 1].domainIndex
  {
    assert slots[0].domainIndex != slots[k].domainIndex;
    forall m | 0 <= m < k - 1 ensures rest[m].domainIndex != rest[k - 1].domainIndex {
      assert rest[m] == slots[m + 1];
    }
  }

  // ---------------------------------------------------------------------
  // Row updates

  /** The update each scheduled row receives; a retry also clears the error. */
  function QueuedRow(row: QueueRow, s: Slot, clearError: bool): QueueRow {
    var r := row.(status := Queued, domainIndex := Some(s.domainIndex),
                  fromEmail := Some(FromAddress(s.config)), scheduledFor := Some(s.scheduledFor));
    if clearError then r.(errorMessage := None) else r
  }

  /** The table after the first |slots| ids received their slots, in order;
      an id with no row is an update that matches nothing. */
  function ApplySlots(rows: map<int, QueueRow>, ids: seq<int>, slots: seq<Slot>, clearError: bool): map<int, QueueRow>
    requires |slots| <= |ids|
    decreases |slots|
  {
    if slots == [] then rows
    else
      var n := |slots| - 1;
      var m := ApplySlots(rows, ids, slots[..n], clearError);
      if ids[n] in m then m[ids[n] := QueuedRow(m[ids[n]], slots[n], clearError)] else m
  }

  /** Each of the first |slots| rows is updated with its own slot, and no
      other row changes. */
  lemma ApplySlotsEffect(rows: map<int, QueueRow>, ids: seq<int>, slots: seq<Slot>, clearError: bool)
    requires |slots| <= |ids| && Distinct(ids)
    ensures var m := ApplySlots(rows, ids, slots, clearError);
      && m.Keys == rows.Keys
      && (forall k :: 0 <= k < |slots| && ids[k] in rows ==> m[ids[k]] == QueuedRow(rows[ids[k]], slots[k], clearError))
      && (forall id :: id in rows && id !in ids[..|slots|] ==> m[id] == rows[id])
  {
    ApplySlotsFrame(rows, ids, slots, clearError);
    ApplySlotsUpdates(rows, ids, slots, clearError);
  }

  /** Applying slots keeps the set of rows and leaves the rows of ids not
      yet reached as they were. */
  lemma {:induction false} ApplySlotsFrame(rows: map<int, QueueRow>, ids: seq<int>, slots: seq<Slot>, clearError: bool)
    requires |slots| <= |ids|
    decreases |slots|
    ensures var m := ApplySlots(rows, ids, slots, clearError);
      && m.Keys == rows.Keys
      && (forall id :: id in rows && id !in ids[..|slots|] ==> m[id] == rows[id])
  {
    if slots != [] {
      var n := |slots| - 1;
      ApplySlotsFrame(rows, ids, slots[..n], clearError);
      assert ids[..|slots|] == ids[..n] + [ids[n]];
    }
  }

  /** With distinct ids, each reached row holds its own slot's update. */
  lemma {:induction false} ApplySlotsUpdates(rows: map<int, QueueRow>, ids: seq<int>, slots: seq<Slot>, clearError: bool)
    requires |slots| <= |ids| && Distinct(ids)
    decreases |slots|
    ensures var m := ApplySlots(rows, ids, slots, clearError);
      forall k :: 0 <= k < |slots| && ids[k] in rows ==>
        ids[k] in m && m[ids[k]] == QueuedRow(rows[ids[k]], slots[k], clearError)
  {
    if slots != [] {
      var n := |slots| - 1;
      var prev := slots[..n];
      ApplySlotsUpdates(rows, ids, prev, clearError);
      ApplySlotsFrame(rows, ids, prev, clearError);
      var m0 := ApplySlots(rows, ids, prev, clearError);
      var m := ApplySlots(rows, ids, slots, clearError);
      assert m == if ids[n] in m0 then m0[ids[n] := QueuedRow(m0[ids[n]], slots[n], clearError)] else m0;
      assert ids[n] !in ids[..n];
      forall k | 0 <= k < |slots| && ids[k] in rows
        ensures m[ids[k]] == QueuedRow(rows[ids[k]], slots[k], clearError)
      {
        if k < n {
          assert prev[k] == slots[k] && ids[k] != ids[n];
        }
      }
    }
  }

  /** When every id received its slot, every one of them that has a row is
      `queued` with a domain, a sender address and a time, keeps its
      recipient and campaign, and has no error when `clearError`. */
  lemma ApplyAllSlotsQueues(rows: map<int, QueueRow>, ids: seq<int>, slots: seq<Slot>, clearError: bool)
    requires |slots| == |ids| && Distinct(ids)
    ensures var m := ApplySlots(rows, ids, slots, clearError);
      forall id :: id in ids && id in rows ==>
        && id in m && m[id].status == Queued
        && m[id].domainIndex.Some? && m[id].fromEmail.Some? && m[id].scheduledFor.Some?
        && m[id].campaignId == rows[id].campaignId && m[id].toEmail == rows[id].toEmail
        && (clearError ==> m[id].errorMessage == None)
  {
    ApplySlotsEffect(rows, ids, slots, clearError);
    assert ids[..|slots|] == ids;
    forall id | id in ids && id in rows
      ensures ApplySlots(rows, ids, slots, clearError)[id] == QueuedRow(rows[id], slots[IndexOf(ids, id)], clearError)
    {
    }
  }

  /** The position of `x` in `s`. */
  function IndexOf(s: seq<int>, x: int): (r: nat)
    requires x in s
    decreases |s|
    ensures r < |s| && s[r] == x
    ensures forall k :: 0 <= k < r ==> s[k] != x
  {
    if s[0] == x then 0 else 1 + IndexOf(s[1..], x)
  }

  // ---------------------------------------------------------------------
  // The task

  /** The pre-set `domain_index` of each row, as read. */
  function PresetsOf(rows: map<int, QueueRow>, ids: seq<int>): (r: seq<Option<int>>)
    ensures |r| == |ids|
    ensures forall k :: 0 <= k < |ids| ==> r[k] == (if ids[k] in rows then rows[ids[k]].domainIndex else None)
  {
    seq(|ids|, k requires 0 <= k < |ids| => if ids[k] in rows then rows[ids[k]].domainIndex else None)
  }

  /** The domain pool of the campaign's sender; a missing sender is Jeff's. */
  function SenderConfigs(c: Campaign): (r: seq<DomainConfig>)
    ensures |r| == |BASE_DOMAINS|
  {
    GenerateDomainConfig(c.sender.GetOr(DEFAULT_SENDER))
  }

  /** The plan the task follows for the rows `ids`. */
  function TaskPlan(rows: map<int, QueueRow>, ids: seq<int>, c: Campaign, existing: seq<ScheduleEntry>,
                    now: Time, jitters: seq<int>): PlanResult
    requires |jitters| >= |ids|
  {
    Plan(PresetsOf(rows, ids), jitters, SenderConfigs(c), FirstPerDomain(existing), map[], 0, StartTime(now))
  }

  datatype LaunchOutcome = CampaignNotFound | NothingStaged | Launched(queued: nat) | Aborted(queued: nat)

  /** The scheduling loop shared in shape by launch and retry: every id gets
      its slot, and the row is updated as it is scheduled. It stops at the
      first index outside the pool (the IndexError the task swallows). */
  method ScheduleRows(q: EmailQueue, ids: seq<int>, configs: seq<DomainConfig>, last0: map<int, Time>,
                      start: Time, jitters: seq<int>, clearError: bool) returns (total: nat)
    requires q.Valid() && |configs| > 0 && |jitters| >= |ids|
    modifies q
    ensures q.Valid() && q.order == old(q.order) && q.nextId == old(q.nextId)
    ensures var plan := Plan(PresetsOf(old(q.rows), ids), jitters, configs, last0, map[], 0, start);
      && total == |plan.slots|
      && q.rows == ApplySlots(old(q.rows), ids, plan.slots, clearError)
  {
    var snapshot := q.rows;
    var presets := PresetsOf(snapshot, ids);
    ghost var full := Plan(presets, jitters, configs, last0, map[], 0, start);
    var last := last0;
    var current: map<int, Time> := map[];
    var roundRobin: nat := 0;
    ghost var slots: seq<Slot> := [];
    total := 0;
    var i := 0;
    while i < |ids|
      invariant 0 <= i <= |ids| && roundRobin == i && total == i && |slots| == i
      invariant PlanSoFar(full, slots, presets, jitters, configs, last, current, i, start)
      invariant q.Valid() && q.order == old(q.order) && q.nextId == old(q.nextId)
      invariant q.rows == ApplySlots(snapshot, ids, slots, clearError)
    {
      var d := if presets[i].Some? then presets[i].value else roundRobin % |configs|;
      roundRobin := roundRobin + 1;
      var config := PyIndex(configs, d);
      if config.None? {
        PlanStops(full, slots, presets, jitters, configs, last, current, i, start);
        return;
      }
      var t := NextScheduledFor(last, current, d, jitters[i], start);
      var slot := Slot(d, config.value, t);
      PlanAdvances(full, slots, presets, jitters, configs, last, current, i, start);
      current := current[d := t];
      last := last[d := t];
      ApplySlotsSnoc(snapshot, ids, slots, slot, clearError);
      if ids[i] in q.rows {
        q.UpdateRow(ids[i], QueuedRow(q.rows[ids[i]], slot, clearError));
      }
      slots := slots + [slot];
      total := total + 1;
      i := i + 1;
    }
    PlanStops(full, slots, presets, jitters, configs, last, current, i, start);
  }

  /** `full` is the plan of all emails: the slots given so far followed by
      the plan of the rest from the current maps and counter. */
  ghost predicate PlanSoFar(full: PlanResult, slots: seq<Slot>, presets: seq<Option<int>>, jitters: seq<int>,
                            configs: seq<DomainConfig>, last: map<int, Time>, current: map<int, Time>, i: nat, start: Time)
  {
    |jitters| >= |presets| && |configs| > 0 && i <= |presets|
    && var tail := Plan(presets[i..], jitters[i..], configs, last, current, i, start);
    full.slots == slots + tail.slots && full.aborted == tail.aborted
  }

  lemma PlanStops(full: PlanResult, slots: seq<Slot>, presets: seq<Option<int>>, jitters: seq<int>,
                  configs: seq<DomainConfig>, last: map<int, Time>, current: map<int, Time>, i: nat, start: Time)
    requires PlanSoFar(full, slots, presets, jitters, configs, last, current, i, start)
    requires i == |presets| || PyIndex(configs, ChooseDomain(presets[i], i, |configs|)).None?
    ensures full.slots == slots
  {
    if i < |presets| {
      PlanCons(presets[i..], jitters[i..], configs, last, current, i, start);
    }
  }

  lemma PlanAdvances(full: PlanResult, slots: seq<Slot>, presets: seq<Option<int>>, jitters: seq<int>,
                     configs: seq<DomainConfig>, last: map<int, Time>, current: map<int, Time>, i: nat, start: Time)
    requires PlanSoFar(full, slots, presets, jitters, configs, last, current, i, start)
    requires i < |presets| && PyIndex(configs, ChooseDomain(presets[i], i, |configs|)).Some?
    ensures var d := ChooseDomain(presets[i], i, |configs|);
      var t := NextTime(last, current, d, jitters[i], start);
      PlanSoFar(full, slots + [Slot(d, PyIndex(configs, d).value, t)], presets, jitters, configs,
                last[d := t], current[d := t], i + 1, start)
  {
    PlanCons(presets[i..], jitters[i..], configs, last, current, i, start);
    assert presets[i..][0] == presets[i] && jitters[i..][0] == jitters[i];
    assert presets[i..][1..] == presets[i + 1..] && jitters[i..][1..] == jitters[i + 1..];
  }

  /** The three branches that compute `scheduled_for`. */
  method NextScheduledFor(last: map<int, Time>, current: map<int, Time>, d: int, jitter: int, start: Time)
    returns (t: Time)
    ensures t == NextTime(last, current, d, jitter, start)
  {
    if d in last && d !in current {
      t := Adjust(last[d] + INTERVAL_MS + jitter);
    } else if d in current {
      t := Adjust(current[d] + INTERVAL_MS + jitter);
    } else {
      t := Adjust(start + jitter);
    }
  }

  lemma ApplySlotsSnoc(rows: map<int, QueueRow>, ids: seq<int>, slots: seq<Slot>, s: Slot, clearError: bool)
    requires |slots| < |ids|
    ensures var m := ApplySlots(rows, ids, slots, clearError);
      ApplySlots(rows, ids, slots + [s], clearError) ==
        if ids[|slots|] in m then m[ids[|slots|] := QueuedRow(m[ids[|slots|]], s, clearError)] else m
  {
    assert (slots + [s])[..|slots|] == slots;
  }

  /** process_launch_task. Rows are updated one at a time; the campaign
      becomes `scheduled` only when every collected row was updated, and
      never when there was nothing staged. */
  method ProcessLaunchTask(q: EmailQueue, camps: CampaignTable, campaignId: string, allEmails: bool,
                           emailIds: seq<int>, existing: seq<ScheduleEntry>, now: Time, jitters: seq<int>)
    returns (outcome: LaunchOutcome)
    requires q.Valid() && |jitters| >= |q.order| && ValidJitters(jitters)
    requires ListsCoordinating(existing, q.rows) && SortedNewestFirst(existing)
    modifies q, camps
    ensures q.Valid() && q.order == old(q.order)
    ensures campaignId !in old(camps.campaigns) ==>
      outcome == CampaignNotFound && q.rows == old(q.rows) && camps.campaigns == old(camps.campaigns)
    ensures campaignId in old(camps.campaigns) ==>
      var c := old(camps.campaigns)[campaignId];
      var sel := StagedSelection(old(q.rows), old(q.order), campaignId, allEmails, emailIds);
      var plan := TaskPlan(old(q.rows), sel, c, existing, now, jitters);
      && q.rows == ApplySlots(old(q.rows), sel, plan.slots, false)
      && (sel == [] ==> outcome == NothingStaged && camps.campaigns == old(camps.campaigns))
      && (sel != [] && plan.aborted ==> outcome == Aborted(|plan.slots|) && camps.campaigns == old(camps.campaigns))
      && (sel != [] && !plan.aborted ==>
            outcome == Launched(|sel|) && camps.campaigns == old(camps.campaigns)[campaignId := c.(status := SCHEDULED)])
  {
    if campaignId !in camps.campaigns {
      return CampaignNotFound;
    }
    var staged := FetchAllPages(StagedSelection(q.rows, q.order, campaignId, allEmails, emailIds));
    if staged == [] {
      return NothingStaged;
    }
    outcome := LaunchStaged(q, camps, campaignId, staged, existing, now, jitters);
  }

  /** The part of process_launch_task after rows were found: schedule them
      and, when all were updated, mark the campaign `scheduled`. */
  method LaunchStaged(q: EmailQueue, camps: CampaignTable, campaignId: string, staged: seq<int>,
                      existing: seq<ScheduleEntry>, now: Time, jitters: seq<int>)
    returns (outcome: LaunchOutcome)
    requires q.Valid() && |jitters| >= |staged| && staged != [] && campaignId in camps.campaigns
    modifies q, camps
    ensures q.Valid() && q.order == old(q.order)
    ensures var c := old(camps.campaigns)[campaignId];
      var plan := TaskPlan(old(q.rows), staged, c, existing, now, jitters);
      && q.rows == ApplySlots(old(q.rows), staged, plan.slots, false)
      && (plan.aborted ==> outcome == Aborted(|plan.slots|) && camps.campaigns == old(camps.campaigns))
      && (!plan.aborted ==>
            outcome == Launched(|staged|) && camps.campaigns == old(camps.campaigns)[campaignId := c.(status := SCHEDULED)])
  {
    var campaign := camps.campaigns[campaignId];
    var configs := SenderConfigs(campaign);
    var listing := FetchAllPages(existing);
    var last := DomainLastScheduled(listing);
    var start := StartTime(now);
    var total := ScheduleRows(q, staged, configs, last, start, jitters, false);
    if total < |staged| {
      return Aborted(total);
    }
    camps.campaigns := camps.campaigns[campaignId := campaign.(status := SCHEDULED)];
    return Launched(total);
  }

  // ---------------------------------------------------------------------
  // What a launch guarantees

  /** Two emails of one launch on the same domain index are at least one
      interval apart. */
  lemma TaskPlanSpacing(rows: map<int, QueueRow>, ids: seq<int>, c: Campaign,
                        existing: seq<ScheduleEntry>, now: Time, jitters: seq<int>)
    requires |jitters| >= |ids| && ValidJitters(jitters)
    ensures var plan := TaskPlan(rows, ids, c, existing, now, jitters);
      forall k, l :: 0 <= k < l < |plan.slots| && plan.slots[k].domainIndex == plan.slots[l].domainIndex ==>
        plan.slots[l].scheduledFor >= plan.slots[k].scheduledFor + INTERVAL_MS
  {
    var plan := TaskPlan(rows, ids, c, existing, now, jitters);
    assert plan == Plan(PresetsOf(rows, ids), jitters, SenderConfigs(c), FirstPerDomain(existing), map[], 0, StartTime(now));
    PlanSpacing(PresetsOf(rows, ids), jitters, SenderConfigs(c), FirstPerDomain(existing), map[], 0, StartTime(now));
  }

  /** Every email of a launch is at least one interval after each listed
      send of another row on its domain index. */
  lemma TaskPlanAfterOthers(rows: map<int, QueueRow>, ids: seq<int>, c: Campaign,
                            existing: seq<ScheduleEntry>, now: Time, jitters: seq<int>)
    requires |jitters| >= |ids| && ValidJitters(jitters) && SortedNewestFirst(existing)
    ensures var plan := TaskPlan(rows, ids, c, existing, now, jitters);
      forall k, e :: 0 <= k < |plan.slots| && e in existing && e.domainIndex == Some(plan.slots[k].domainIndex) ==>
        plan.slots[k].scheduledFor >= e.scheduledFor + INTERVAL_MS
  {
    var last := FirstPerDomain(existing);
    var plan := TaskPlan(rows, ids, c, existing, now, jitters);
    assert plan == Plan(PresetsOf(rows, ids), jitters, SenderConfigs(c), last, map[], 0, StartTime(now));
    PlanAfterLatest(PresetsOf(rows, ids), jitters, SenderConfigs(c), last, map[], 0, StartTime(now));
    FirstPerDomainIsLatest(existing);
    forall k, e | 0 <= k < |plan.slots| && e in existing && e.domainIndex == Some(plan.slots[k].domainIndex)
      ensures plan.slots[k].scheduledFor >= e.scheduledFor + INTERVAL_MS
    {
      var i :| 0 <= i < |existing| && existing[i] == e;
      assert existing[i].domainIndex.Some?;
      assert plan.slots[k].domainIndex in last && e.scheduledFor <= last[plan.slots[k].domainIndex];
    }
  }

  /** With the listing the coordination query reads, every email of a
      launch or a retry is at least one interval after every queued or
      processing row of the table on its domain index. */
  lemma TaskPlanAfterTable(rows: map<int, QueueRow>, ids: seq<int>, c: Campaign,
                           existing: seq<ScheduleEntry>, now: Time, jitters: seq<int>)
    requires |jitters| >= |ids| && ValidJitters(jitters)
    requires ListsCoordinating(existing, rows) && SortedNewestFirst(existing)
    ensures var plan := TaskPlan(rows, ids, c, existing, now, jitters);
      forall k, id ::
        (0 <= k < |plan.slots| && id in rows && Coordinating(rows[id]) && rows[id].domainIndex == Some(plan.slots[k].domainIndex))
        ==> plan.slots[k].scheduledFor >= rows[id].scheduledFor.value + INTERVAL_MS
  {
    var plan := TaskPlan(rows, ids, c, existing, now, jitters);
    TaskPlanAfterOthers(rows, ids, c, existing, now, jitters);
    forall k, id | 0 <= k < |plan.slots| && id in rows && Coordinating(rows[id])
        && rows[id].domainIndex == Some(plan.slots[k].domainIndex)
      ensures plan.slots[k].scheduledFor >= rows[id].scheduledFor.value + INTERVAL_MS
    {
      var e := ScheduleEntry(rows[id].domainIndex, rows[id].scheduledFor.value);
      assert e in existing;
    }
  }

  /** No email of a launch is scheduled on a weekend or after the end hour. */
  lemma TaskPlanBeforeEnd(rows: map<int, QueueRow>, ids: seq<int>, c: Campaign,
                          existing: seq<ScheduleEntry>, now: Time, jitters: seq<int>)
    requires |jitters| >= |ids|
    ensures var plan := TaskPlan(rows, ids, c, existing, now, jitters);
      forall k :: 0 <= k < |plan.slots| ==>
        !IsWeekend(plan.slots[k].scheduledFor) && HourOf(plan.slots[k].scheduledFor) < WORKING_HOUR_END
  {
    var plan := TaskPlan(rows, ids, c, existing, now, jitters);
    assert plan == Plan(PresetsOf(rows, ids), jitters, SenderConfigs(c), FirstPerDomain(existing), map[], 0, StartTime(now));
    PlanBeforeEnd(PresetsOf(rows, ids), jitters, SenderConfigs(c), FirstPerDomain(existing), map[], 0, StartTime(now));
  }

  /** When every listed send of other rows lies in the window, every email
      of a launch does too. */
  lemma TaskPlanInWindow(rows: map<int, QueueRow>, ids: seq<int>, c: Campaign,
                         existing: seq<ScheduleEntry>, now: Time, jitters: seq<int>)
    requires |jitters| >= |ids| && ValidJitters(jitters) && SortedNewestFirst(existing)
    requires forall e :: e in existing && e.domainIndex.Some? ==> InSendingWindow(e.scheduledFor)
    ensures var plan := TaskPlan(rows, ids, c, existing, now, jitters);
      forall k :: 0 <= k < |plan.slots| ==> InSendingWindow(plan.slots[k].scheduledFor)
  {
    var last := FirstPerDomain(existing);
    FirstPerDomainIsLatest(existing);
    StartTimeInWindow(now, WORKING_HOUR_START, WORKING_HOUR_END);
    forall d | d in last ensures InSendingWindow(last[d]) {
      assert ScheduleEntry(Some(d), last[d]) in existing;
    }
    var plan := TaskPlan(rows, ids, c, existing, now, jitters);
    assert plan == Plan(PresetsOf(rows, ids), jitters, SenderConfigs(c), last, map[], 0, StartTime(now));
    PlanInWindow(PresetsOf(rows, ids), jitters, SenderConfigs(c), last, map[], 0, StartTime(now));
  }

  /** Relaunching is harmless to rows already queued: only staged rows are
      selected, so a second launch of the same campaign finds nothing. */
  lemma RelaunchSelectsNothing(rows: map<int, QueueRow>, ids: seq<int>, order: seq<int>, c: Campaign,
                               campaignId: string, allEmails: bool, emailIds: seq<int>,
                               existing: seq<ScheduleEntry>, now: Time, jitters: seq<int>)
    requires Distinct(order) && (forall id :: id in rows <==> id in order)
    requires ids == StagedSelection(rows, order, campaignId, allEmails, emailIds)
    requires |jitters| >= |ids|
    requires !TaskPlan(rows, ids, c, existing, now, jitters).aborted
    ensures StagedSelection(ApplySlots(rows, ids, TaskPlan(rows, ids, c, existing, now, jitters).slots, false),
                            order, campaignId, allEmails, emailIds) == []
  {
    var plan := TaskPlan(rows, ids, c, existing, now, jitters);
    FilterIdsDistinct(order, rows, (id: int, x: QueueRow) =>
      x.campaignId == campaignId && x.status == Staged && (allEmails || |emailIds| == 0 || id in emailIds));
    ApplySlotsEffect(rows, ids, plan.slots, false);
    ApplyAllSlotsQueues(rows, ids, plan.slots, false);
    var after := ApplySlots(rows, ids, plan.slots, false);
    assert ids[..|plan.slots|] == ids;
    forall id | id in after && after[id].campaignId == campaignId && (allEmails || |emailIds| == 0 || id in emailIds)
      ensures after[id].status != Staged
    {
      if id !in ids {
        assert after[id] == rows[id] && id in order;
      }
    }
    NoneStagedSelectsNothing(after, order, campaignId, allEmails, emailIds);
  }

  /** A table with no staged row of the campaign selects nothing. */
  lemma NoneStagedSelectsNothing(rows: map<int, QueueRow>, order: seq<int>, campaignId: string,
                                 allEmails: bool, emailIds: seq<int>)
    requires forall id :: (id in rows && rows[id].campaignId == campaignId
      && (allEmails || |emailIds| == 0 || id in emailIds)) ==> rows[id].status != Staged
    ensures StagedSelection(rows, order, campaignId, allEmails, emailIds) == []
  {
    FilterIdsNone(order, rows, (id: int, x: QueueRow) =>
      x.campaignId == campaignId && x.status == Staged && (allEmails || |emailIds| == 0 || id in emailIds));
  }
}
