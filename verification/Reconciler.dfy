/**
 Boot-time reconciliation (backend/src/queue/reconciler.ts), run with no concurrent writer.  The loops
 page through the SCHEDULED rows by id; their effect is given by three small functions.
 */
module Reconciler {
  import opened EmailQueue
  import opened Ordering
  import opened Schema
  import opened Wrappers

  datatype ReconcileReport = ReconcileReport(scheduledScanned: nat, requeued: nat, staleFailed: nat)

  // How many rows one query returns.
  const SCAN_CHUNK_SIZE := 5000

  function StaleIds(rows: Rows, cutoff: int): set<JobId>
  {
    set id | id in rows && Stale(rows[id], cutoff)
  }

  function ScheduledIds(rows: Rows): set<JobId>
  {
    set id | id in rows && rows[id].status == Scheduled
  }

  function MissingIds(rows: Rows, jobs: Jobs): set<JobId>
  {
    ScheduledIds(rows) - jobs.Keys
  }

  /** The given rows' jobs added where missing, each due at the row's own time. */
  function WithJobsFor(rows: Rows, jobs: Jobs, ids: set<JobId>, now: int): Jobs
    requires ids <= rows.Keys
  {
    jobs + map id | id in ids && id !in jobs :: DelayFor(rows[id].scheduledAt, now)
  }

  function Requeued(rows: Rows, jobs: Jobs, now: int): Jobs
  {
    WithJobsFor(rows, jobs, ScheduledIds(rows), now)
  }

  /** One whole pass: fail the stale rows, then give every SCHEDULED row without a job key one. */
  function Pass(rows: Rows, jobs: Jobs, now: int, threshold: int): (Rows, Jobs, ReconcileReport)
  {
    var rows' := StaleFailed(rows, now - threshold);
    (rows', Requeued(rows', jobs, now),
     ReconcileReport(|ScheduledIds(rows')|, |MissingIds(rows', jobs)|, |StaleIds(rows, now - threshold)|))
  }

  // ---- What a pass achieves ------------------------------------------------------------------------

  /** It fails exactly the PROCESSING rows claimed too long ago or never stamped, and changes nothing else in the table. */
  lemma PassFailsExactlyTheStale(rows: Rows, jobs: Jobs, now: int, threshold: int) returns (failed: set<JobId>)
    ensures forall id :: id in failed <==>
              id in rows && rows[id].status == Processing
              && (rows[id].startedAt.None? || now - rows[id].startedAt.value > threshold)
    ensures var (rows', _, report) := Pass(rows, jobs, now, threshold);
            && rows'.Keys == rows.Keys
            && (forall id :: id in rows ==> rows'[id] == if id in failed then rows[id].(status := Failed) else rows[id])
            && report.staleFailed == |failed|
            && ScheduledIds(rows') == ScheduledIds(rows)
  {
    failed := StaleIds(rows, now - threshold);
    StaleFailedKeepsScheduled(rows, now - threshold);
    hide ScheduledIds, MissingIds, Requeued;
  }

  /** The rows that the pass failed, the SCHEDULED rows it found, and those of them it enqueued. */
  datatype Touched = Touched(failed: set<JobId>, scanned: set<JobId>, requeued: set<JobId>)

  /** An enqueued row's job fires at the row's own time, or at once when that is past. */
  lemma RequeuedFires(rows: Rows, jobs: Jobs, now: int, id: JobId)
    requires id in rows && rows[id].status == Scheduled && id !in jobs
    ensures id in Requeued(rows, jobs, now)
    ensures now + Requeued(rows, jobs, now)[id] == if rows[id].scheduledAt > now then rows[id].scheduledAt else now
  {
  }

  lemma MissingMeaning(rows: Rows, jobs: Jobs, now: int)
    ensures forall id :: id in ScheduledIds(rows) <==> id in rows && rows[id].status == Scheduled
    ensures forall id :: id in MissingIds(rows, jobs) <==> id in ScheduledIds(rows) && id !in jobs
    ensures Requeued(rows, jobs, now).Keys == jobs.Keys + MissingIds(rows, jobs)
    ensures forall id :: id in jobs ==> Requeued(rows, jobs, now)[id] == jobs[id]
  {
    RequeuedHasAll(rows, jobs, now);
    hide Requeued;
  }

  lemma PassEnqueues(rows: Rows, jobs: Jobs, now: int, threshold: int) returns (scanned: set<JobId>, requeued: set<JobId>)
    ensures var (rows', jobs', report) := Pass(rows, jobs, now, threshold);
            && (forall id :: id in scanned <==> id in rows' && rows'[id].status == Scheduled)
            && (forall id :: id in requeued <==> id in scanned && id !in jobs)
            && jobs'.Keys == jobs.Keys + requeued
            && (forall id :: id in jobs ==> jobs'[id] == jobs[id])
            && (forall id :: id in requeued ==>
                  now + jobs'[id] == if rows'[id].scheduledAt > now then rows'[id].scheduledAt else now)
            && report.scheduledScanned == |scanned| && report.requeued == |requeued|
  {
    hide StaleFailed, StaleIds, Requeued, ScheduledIds, MissingIds;
    var rows' := StaleFailed(rows, now - threshold);
    scanned, requeued := ScheduledIds(rows'), MissingIds(rows', jobs);
    MissingMeaning(rows', jobs, now);
    forall id | id in requeued
      ensures now + Requeued(rows', jobs, now)[id] == if rows'[id].scheduledAt > now then rows'[id].scheduledAt else now
    {
      RequeuedFires(rows', jobs, now, id);
    }
  }

  lemma StaleFailedKeepsScheduled(rows: Rows, cutoff: int)
    ensures ScheduledIds(StaleFailed(rows, cutoff)) == ScheduledIds(rows)
  {
    forall id
      ensures id in ScheduledIds(StaleFailed(rows, cutoff)) <==> id in ScheduledIds(rows)
    {
    }
  }

  lemma RequeuedHasAll(rows: Rows, jobs: Jobs, now: int)
    ensures Requeued(rows, jobs, now).Keys == jobs.Keys + ScheduledIds(rows)
    ensures forall id :: id in jobs ==> Requeued(rows, jobs, now)[id] == jobs[id]
  {
  }

  lemma RequeueLeavesNone(rows: Rows, jobs: Jobs, now: int)
    ensures MissingIds(rows, Requeued(rows, jobs, now)) == {}
  {
    RequeuedHasAll(rows, jobs, now);
  }

  /** Every SCHEDULED row ends with a job key; existing keys keep their delays; no other key appears. */
  lemma PassLeavesNoneMissing(rows: Rows, jobs: Jobs, now: int, threshold: int)
    ensures var (rows', jobs', report) := Pass(rows, jobs, now, threshold);
            && MissingIds(rows', jobs') == {}
            && jobs'.Keys == jobs.Keys + ScheduledIds(rows)
            && (forall id :: id in jobs ==> jobs'[id] == jobs[id])
            && report.requeued == |ScheduledIds(rows) - jobs.Keys|
  {
    StaleFailedKeepsScheduled(rows, now - threshold);
    LeavesNoneMissing(StaleFailed(rows, now - threshold), jobs, now);
    hide Requeued, StaleFailed, MissingIds, ScheduledIds, StaleIds;
  }

  lemma LeavesNoneMissing(rows: Rows, jobs: Jobs, now: int)
    ensures MissingIds(rows, Requeued(rows, jobs, now)) == {}
    ensures Requeued(rows, jobs, now).Keys == jobs.Keys + ScheduledIds(rows)
    ensures forall id :: id in jobs ==> Requeued(rows, jobs, now)[id] == jobs[id]
    ensures MissingIds(rows, jobs) == ScheduledIds(rows) - jobs.Keys
  {
    RequeueMeaning(rows, jobs, now);
  }

  lemma RequeueMeaning(rows: Rows, jobs: Jobs, now: int)
    ensures MissingIds(rows, Requeued(rows, jobs, now)) == {}
    ensures Requeued(rows, jobs, now).Keys == jobs.Keys + ScheduledIds(rows)
    ensures forall id :: id in jobs ==> Requeued(rows, jobs, now)[id] == jobs[id]
  {
    hide Requeued, MissingIds;
    RequeuedHasAll(rows, jobs, now);
    RequeueLeavesNone(rows, jobs, now);
  }

  lemma NoneStaleAfter(rows: Rows, cutoff: int)
    ensures StaleIds(StaleFailed(rows, cutoff), cutoff) == {}
    ensures StaleFailed(StaleFailed(rows, cutoff), cutoff) == StaleFailed(rows, cutoff)
  {
    var rows' := StaleFailed(rows, cutoff);
    assert forall id :: id in rows' ==> !Stale(rows'[id], cutoff);
  }

  lemma NothingToRequeue(rows: Rows, jobs: Jobs, now: int)
    requires MissingIds(rows, jobs) == {}
    ensures Requeued(rows, jobs, now) == jobs
  {
    forall id | id in ScheduledIds(rows)
      ensures id in jobs
    {
      assert id !in MissingIds(rows, jobs);
    }
  }

  /** A second pass at the same time finds nothing to do. */
  lemma SecondPassIsIdle(rows: Rows, jobs: Jobs, now: int, threshold: int,
                         rows': Rows, jobs': Jobs, report: ReconcileReport)
    requires (rows', jobs', report) == Pass(rows, jobs, now, threshold)
    ensures Pass(rows', jobs', now, threshold) == (rows', jobs', ReconcileReport(report.scheduledScanned, 0, 0))
  {
    hide Requeued, StaleFailed, StaleIds, MissingIds, ScheduledIds;
    NoneStaleAfter(rows, now - threshold);
    RequeueLeavesNone(rows', jobs, now);
    NothingToRequeue(rows', jobs', now);
  }

  // ---- The scan ------------------------------------------------------------------------------------

  function KeyOf(id: JobId): Key
  {
    Key(id, 0)
  }

  function ScheduledKeys(rows: Rows): set<Key>
  {
    set id | id in rows && rows[id].status == Scheduled :: KeyOf(id)
  }

  /** The SCHEDULED ids up to the cursor: the part of the scan that is done. */
  function Done(rows: Rows, cursor: Option<JobId>): set<JobId>
  {
    set id | id in ScheduledIds(rows) && cursor.Some? && id <= cursor.value
  }

  function IdSet(page: seq<JobId>): set<JobId>
  {
    set id | id in page
  }

  ghost predicate IsPage(rows: Rows, cursor: Option<JobId>, page: seq<JobId>)
  {
    && |page| <= SCAN_CHUNK_SIZE
    && (forall i, j :: 0 <= i < j < |page| ==> page[i] < page[j])
    && (forall id :: id in page ==> id in ScheduledIds(rows) && id !in Done(rows, cursor))
    && (|page| < SCAN_CHUNK_SIZE ==> forall id :: id in ScheduledIds(rows) ==> id in Done(rows, cursor) || id in page)
    && (page != [] ==> forall id :: id in ScheduledIds(rows) && id <= page[|page| - 1] ==>
          id in Done(rows, cursor) || id in page)
  }

  lemma KeyIsScheduled(rows: Rows, id: JobId)
    ensures KeyOf(id) in ScheduledKeys(rows) <==> id in ScheduledIds(rows)
  {
    if id in ScheduledIds(rows) {
      assert KeyOf(id) in ScheduledKeys(rows);
    }
  }

  lemma PageMeaning(rows: Rows, cursor: Option<JobId>, anchor: Option<Key>, keys: seq<Key>, page: seq<JobId>)
    requires anchor == if cursor.Some? then Some(KeyOf(cursor.value)) else None
    requires keys == Take(ScheduledKeys(rows), anchor, SCAN_CHUNK_SIZE)
    requires |page| == |keys| && forall i :: 0 <= i < |keys| ==> page[i] == keys[i].major
    ensures IsPage(rows, cursor, page)
  {
    var here := After(ScheduledKeys(rows), anchor);
    AscendingMeaning(here);
    forall i | 0 <= i < |page|
      ensures keys[i] == KeyOf(page[i]) && page[i] in ScheduledIds(rows) && page[i] !in Done(rows, cursor)
    {
      assert Ascending(here)[i] in here && keys[i] == Ascending(here)[i];
      KeyIsScheduled(rows, page[i]);
    }
    PageIsWhole(rows, cursor, anchor, keys, page);
  }

  /** No row is left out between the cursor and the end of the page. */
  lemma PageIsWhole(rows: Rows, cursor: Option<JobId>, anchor: Option<Key>, keys: seq<Key>, page: seq<JobId>)
    requires anchor == if cursor.Some? then Some(KeyOf(cursor.value)) else None
    requires keys == Take(ScheduledKeys(rows), anchor, SCAN_CHUNK_SIZE)
    requires |page| == |keys| && forall i :: 0 <= i < |keys| ==> keys[i] == KeyOf(page[i])
    ensures forall id :: id in ScheduledIds(rows) && id !in Done(rows, cursor) ==>
              id in page || (|page| == SCAN_CHUNK_SIZE && id > page[|page| - 1])
  {
    var here := After(ScheduledKeys(rows), anchor);
    AscendingMeaning(here);
    assert forall i :: 0 < |page| <= i < |Ascending(here)| ==>
        Before(Ascending(here)[|page| - 1], Ascending(here)[i]);
    forall id | id in ScheduledIds(rows) && id !in Done(rows, cursor)
      ensures id in page || (|page| == SCAN_CHUNK_SIZE && id > page[|page| - 1])
    {
      KeyIsScheduled(rows, id);
      assert KeyOf(id) in here;
      var i :| 0 <= i < |Ascending(here)| && Ascending(here)[i] == KeyOf(id);
      if i < |page| {
        assert page[i] == id;
      }
    }
  }

  lemma {:induction false} IncreasingIsDistinct(page: seq<JobId>)
    requires forall i, j :: 0 <= i < j < |page| ==> page[i] < page[j]
    ensures |IdSet(page)| == |page|
  {
    if page != [] {
      var n := |page| - 1;
      IncreasingIsDistinct(page[..n]);
      assert page == page[..n] + [page[n]];
      assert IdSet(page) == IdSet(page[..n]) + {page[n]};
    }
  }

  lemma ScanAdvances(rows: Rows, cursor: Option<JobId>, page: seq<JobId>)
    requires IsPage(rows, cursor, page) && page != []
    ensures Done(rows, Some(page[|page| - 1])) == Done(rows, cursor) + IdSet(page)
    ensures Done(rows, cursor) !! IdSet(page)
    ensures |Done(rows, Some(page[|page| - 1]))| == |Done(rows, cursor)| + |page|
  {
    var last := page[|page| - 1];
    IncreasingIsDistinct(page);
    assert last in page;
    assert forall id :: id in page ==> id <= last;
    DoneUpTo(rows, cursor, last);
  }

  lemma DoneUpTo(rows: Rows, cursor: Option<JobId>, last: JobId)
    requires last in ScheduledIds(rows) && last !in Done(rows, cursor)
    ensures forall id :: id in Done(rows, cursor) ==> id < last
  {
  }

  /** What the page's EXISTS replies select: the rows whose job is gone. */
  function MissingOf(rows: Rows, jobs: Jobs, page: seq<JobId>): seq<PlannedEmailJob>
    requires IdSet(page) <= rows.Keys
  {
    if page == [] then []
    else
      var init, id := page[..|page| - 1], page[|page| - 1];
      assert id in IdSet(page) && IdSet(init) <= IdSet(page);
      MissingOf(rows, jobs, init) + if id in jobs then [] else [PlannedEmailJob(id, rows[id].scheduledAt)]
  }

  lemma OneMoreJob(rows: Rows, jobs: Jobs, ids: set<JobId>, id: JobId, now: int)
    requires ids <= rows.Keys && id in rows && id !in ids
    ensures WithJobsFor(rows, jobs, ids + {id}, now)
         == Added(WithJobsFor(rows, jobs, ids, now), PlannedEmailJob(id, rows[id].scheduledAt), now)
  {
  }

  lemma PageSplits(page: seq<JobId>)
    requires page != [] && forall i, j :: 0 <= i < j < |page| ==> page[i] < page[j]
    ensures var init, id := page[..|page| - 1], page[|page| - 1];
            IdSet(page) == IdSet(init) + {id} && id !in IdSet(init)
  {
    assert page == page[..|page| - 1] + [page[|page| - 1]];
  }

  lemma {:induction false} EnqueueingMissing(rows: Rows, jobs: Jobs, page: seq<JobId>, now: int)
    requires IdSet(page) <= rows.Keys && forall i, j :: 0 <= i < j < |page| ==> page[i] < page[j]
    ensures AddedAll(jobs, MissingOf(rows, jobs, page), now) == WithJobsFor(rows, jobs, IdSet(page), now)
  {
    if page != [] {
      var init, id := page[..|page| - 1], page[|page| - 1];
      PageSplits(page);
      EnqueueingMissing(rows, jobs, init, now);
      OneMoreJob(rows, jobs, IdSet(init), id, now);
      var added, job := MissingOf(rows, jobs, init), PlannedEmailJob(id, rows[id].scheduledAt);
      if id in jobs {
        assert MissingOf(rows, jobs, page) == added;
      } else {
        assert (added + [job])[..|added|] == added;
      }
    }
  }

  lemma {:induction false} CountingMissing(rows: Rows, jobs: Jobs, page: seq<JobId>)
    requires IdSet(page) <= rows.Keys && forall i, j :: 0 <= i < j < |page| ==> page[i] < page[j]
    ensures |MissingOf(rows, jobs, page)| == |IdSet(page) - jobs.Keys|
  {
    if page != [] {
      var init, id := page[..|page| - 1], page[|page| - 1];
      PageSplits(page);
      CountingMissing(rows, jobs, init);
      OneMoreOutside(IdSet(init), id, jobs.Keys);
    }
  }

  lemma OneMoreOutside(ids: set<JobId>, id: JobId, keys: set<JobId>)
    requires id !in ids
    ensures |(ids + {id}) - keys| == |ids - keys| + if id in keys then 0 else 1
  {
    if id in keys {
      assert (ids + {id}) - keys == ids - keys;
    } else {
      assert (ids + {id}) - keys == (ids - keys) + {id};
    }
  }

  lemma KeysWithJobs(rows: Rows, jobs: Jobs, ids: set<JobId>, now: int)
    requires ids <= rows.Keys
    ensures WithJobsFor(rows, jobs, ids, now).Keys == jobs.Keys + ids
  {
  }

  lemma JobsForUnion(rows: Rows, jobs: Jobs, a: set<JobId>, b: set<JobId>, now: int)
    requires a <= rows.Keys && b <= rows.Keys
    ensures WithJobsFor(rows, WithJobsFor(rows, jobs, a, now), b, now) == WithJobsFor(rows, jobs, a + b, now)
  {
  }

  lemma CountsAdd(done: set<JobId>, page: set<JobId>, before: set<JobId>)
    requires done !! page
    ensures |(done + page) - before| == |done - before| + |page - (before + done)|
  {
    assert (done + page) - before == (done - before) + (page - (before + done));
    assert (done - before) !! (page - (before + done));
  }

  /** The scan up to the cursor: counted, and given job keys. */
  ghost predicate Scanned(rows: Rows, before: Jobs, cursor: Option<JobId>, now: int,
                          jobs: Jobs, scanned: nat, requeued: nat)
  {
    && scanned == |Done(rows, cursor)|
    && requeued == |Done(rows, cursor) - before.Keys|
    && jobs == WithJobsFor(rows, before, Done(rows, cursor), now)
  }

  lemma ScanStarts(rows: Rows, before: Jobs, now: int)
    ensures Scanned(rows, before, None, now, before, 0, 0)
  {
    assert Done(rows, None) == {};
  }

  lemma EmptyPageEnds(rows: Rows, cursor: Option<JobId>, page: seq<JobId>)
    requires IsPage(rows, cursor, page) && |page| == 0
    ensures Done(rows, cursor) == ScheduledIds(rows)
  {
    assert forall id :: id in ScheduledIds(rows) ==> id !in page && id in Done(rows, cursor);
  }

  lemma NothingAdded(jobs: Jobs, missing: seq<PlannedEmailJob>, now: int)
    requires |missing| == 0
    ensures AddedAll(jobs, missing, now) == jobs
  {
  }

  lemma ScanEnds(rows: Rows, before: Jobs, cursor: Option<JobId>, now: int, jobs: Jobs, scanned: nat, requeued: nat)
    requires Scanned(rows, before, cursor, now, jobs, scanned, requeued) && Done(rows, cursor) == ScheduledIds(rows)
    ensures jobs == Requeued(rows, before, now)
    ensures scanned == |ScheduledIds(rows)| && requeued == |MissingIds(rows, before)|
  {
  }

  lemma PageInTable(rows: Rows, cursor: Option<JobId>, page: seq<JobId>)
    requires IsPage(rows, cursor, page)
    ensures IdSet(page) <= ScheduledIds(rows) <= rows.Keys
  {
    forall id | id in IdSet(page)
      ensures id in ScheduledIds(rows)
    {
      assert id in page;
    }
  }

  lemma ScanShrinks(rows: Rows, cursor: Option<JobId>, page: seq<JobId>)
    requires IsPage(rows, cursor, page) && page != []
    ensures |ScheduledIds(rows) - Done(rows, Some(page[|page| - 1]))| < |ScheduledIds(rows) - Done(rows, cursor)|
    ensures |page| < SCAN_CHUNK_SIZE ==> Done(rows, Some(page[|page| - 1])) == ScheduledIds(rows)
  {
    PageInTable(rows, cursor, page);
    ScanAdvances(rows, cursor, page);
    FewerLeft(ScheduledIds(rows), Done(rows, cursor), IdSet(page), page[0]);
  }

  lemma ScanStep(rows: Rows, before: Jobs, cursor: Option<JobId>, now: int, jobs: Jobs, scanned: nat, requeued: nat,
                 page: seq<JobId>, missing: seq<PlannedEmailJob>)
    requires Scanned(rows, before, cursor, now, jobs, scanned, requeued)
    requires IsPage(rows, cursor, page) && page != [] && IdSet(page) <= rows.Keys
    requires missing == MissingOf(rows, jobs, page)
    ensures Scanned(rows, before, Some(page[|page| - 1]), now, AddedAll(jobs, missing, now),
                    scanned + |page|, requeued + |missing|)
  {
    var done, ids := Done(rows, cursor), IdSet(page);
    ScanAdvances(rows, cursor, page);
    EnqueueingMissing(rows, jobs, page, now);
    JobsForUnion(rows, before, done, ids, now);
    RequeuedCount(rows, before, jobs, done, page, now);
  }

  lemma RequeuedCount(rows: Rows, before: Jobs, jobs: Jobs, done: set<JobId>, page: seq<JobId>, now: int)
    requires done <= rows.Keys && jobs == WithJobsFor(rows, before, done, now) && done !! IdSet(page)
    requires IdSet(page) <= rows.Keys && forall i, j :: 0 <= i < j < |page| ==> page[i] < page[j]
    ensures |(done + IdSet(page)) - before.Keys| == |done - before.Keys| + |MissingOf(rows, jobs, page)|
  {
    CountingMissing(rows, jobs, page);
    KeysWithJobs(rows, before, done, now);
    CountsAdd(done, IdSet(page), before.Keys);
  }

  class Store {
    const queue: Queue
    var rows: Rows

    constructor (queue: Queue, rows: Rows)
      ensures this.queue == queue && this.rows == rows
    {
      this.queue, this.rows := queue, rows;
    }

    method FailStaleProcessing(now: int, threshold: int) returns (count: nat, ghost failed: set<JobId>)
      modifies this`rows
      ensures rows == StaleFailed(old(rows), now - threshold)
      ensures count == |failed| && failed == StaleIds(old(rows), now - threshold)
      ensures forall id :: id in failed <==>
                id in old(rows) && old(rows)[id].status == Processing
                && (old(rows)[id].startedAt.None? || now - old(rows)[id].startedAt.value > threshold)
      ensures rows.Keys == old(rows).Keys
      ensures forall id :: id in rows ==>
                rows[id] == if id in failed then old(rows)[id].(status := Failed) else old(rows)[id]
    {
      failed := StaleIds(rows, now - threshold);
      var cutoff := now - threshold;
      count := |StaleIds(rows, cutoff)|;
      rows := map id | id in rows :: if Stale(rows[id], cutoff) then rows[id].(status := Failed) else rows[id];
    }

    /** SCHEDULED ids above the cursor, ascending, at most one chunk. */
    method FindScheduled(cursor: Option<JobId>) returns (page: seq<JobId>)
      ensures IsPage(rows, cursor, page)
    {
      var anchor := if cursor.Some? then Some(KeyOf(cursor.value)) else None;
      var keys := Take(ScheduledKeys(rows), anchor, SCAN_CHUNK_SIZE);
      page := seq(|keys|, i requires 0 <= i < |keys| => keys[i].major);
      PageMeaning(rows, cursor, anchor, keys, page);
    }

    /** One EXISTS per row of the page; the rows whose job is gone are to be enqueued again. */
    method FindMissing(page: seq<JobId>) returns (missing: seq<PlannedEmailJob>)
      requires IdSet(page) <= rows.Keys
      ensures missing == MissingOf(rows, queue.jobs, page)
    {
      missing := [];
      for i := 0 to |page|
        invariant IdSet(page[..i]) <= rows.Keys && missing == MissingOf(rows, queue.jobs, page[..i])
      {
        assert page[i] in IdSet(page) && IdSet(page[..i + 1]) <= IdSet(page);
        assert page[..i + 1][..i] == page[..i];
        if page[i] !in queue.jobs {
          missing := missing + [PlannedEmailJob(page[i], rows[page[i]].scheduledAt)];
        }
      }
      assert page[..|page|] == page;
    }

    method RequeueMissingScheduled(now: int) returns (scheduledScanned: nat, requeued: nat)
      modifies queue
      ensures queue.jobs == Requeued(rows, old(queue.jobs), now)
      ensures scheduledScanned == |ScheduledIds(rows)| && requeued == |MissingIds(rows, old(queue.jobs))|
    {
      scheduledScanned, requeued := 0, 0;
      var cursor: Option<JobId> := None;
      ghost var before := queue.jobs;
      ScanStarts(rows, before, now);
      while true
        invariant Scanned(rows, before, cursor, now, queue.jobs, scheduledScanned, requeued)
        decreases |ScheduledIds(rows) - Done(rows, cursor)|
      {
        var page := FindScheduled(cursor);
        if |page| == 0 {
          EmptyPageEnds(rows, cursor, page);
          break;
        }
        PageInTable(rows, cursor, page);
        var missing := FindMissing(page);
        ScanShrinks(rows, cursor, page);
        ScanStep(rows, before, cursor, now, queue.jobs, scheduledScanned, requeued, page, missing);
        scheduledScanned := scheduledScanned + |page|;
        cursor := Some(page[|page| - 1]);
        if |missing| > 0 {
          queue.EnqueueEmailJobs(missing, now);
          requeued := requeued + |missing|;
          assert Scanned(rows, before, cursor, now, queue.jobs, scheduledScanned, requeued);
        } else {
          NothingAdded(queue.jobs, missing, now);
          assert Scanned(rows, before, cursor, now, queue.jobs, scheduledScanned, requeued);
        }
        if |page| < SCAN_CHUNK_SIZE {
          break;
        }
      }
      ScanEnds(rows, before, cursor, now, queue.jobs, scheduledScanned, requeued);
    }

    /**
     The whole boot-time pass: it terminates, and does and reports exactly what `Pass` says.  Row by row, a
     PROCESSING row fails if and only if it was claimed more than `threshold` ago, or never stamped, and no
     other row changes.  Each SCHEDULED row without a queue job gets one, which fires at the row's own time,
     or at once when that is past.
     */
    method Reconcile(now: int, threshold: int) returns (report: ReconcileReport, ghost touched: Touched)
      modifies this`rows, queue
      ensures (rows, queue.jobs, report) == Pass(old(rows), old(queue.jobs), now, threshold)
      ensures report == ReconcileReport(|touched.scanned|, |touched.requeued|, |touched.failed|)
      ensures forall id :: id in touched.failed <==>
                id in old(rows) && old(rows)[id].status == Processing
                && (old(rows)[id].startedAt.None? || now - old(rows)[id].startedAt.value > threshold)
      ensures rows.Keys == old(rows).Keys
      ensures forall id :: id in rows ==>
                rows[id] == if id in touched.failed then old(rows)[id].(status := Failed) else old(rows)[id]
      ensures forall id :: id in touched.scanned <==> id in old(rows) && old(rows)[id].status == Scheduled
      ensures forall id :: id in touched.requeued <==> id in touched.scanned && id !in old(queue.jobs)
      ensures queue.jobs.Keys == old(queue.jobs).Keys + touched.requeued
      ensures forall id :: id in old(queue.jobs) ==> queue.jobs[id] == old(queue.jobs)[id]
      ensures forall id :: id in touched.requeued ==>
                now + queue.jobs[id] == if old(rows)[id].scheduledAt > now then old(rows)[id].scheduledAt else now
    {
      hide StaleFailed, StaleIds, ScheduledIds, MissingIds, Requeued;
      ghost var scanned, requeuedIds := PassEnqueues(rows, queue.jobs, now, threshold);
      var staleFailed, failed := FailStaleProcessing(now, threshold);
      touched := Touched(failed, scanned, requeuedIds);
      var scheduledScanned, requeued := RequeueMissingScheduled(now);
      report := ReconcileReport(scheduledScanned, requeued, staleFailed);
    }
  }

  lemma FewerLeft(all: set<JobId>, done: set<JobId>, page: set<JobId>, first: JobId)
    requires first in page && page <= all && done !! page
    ensures |all - (done + page)| < |all - done|
  {
    assert all - (done + page) <= all - done - {first};
    assert all - done - {first} == (all - (done + page)) + ((all - done - {first}) - (all - (done + page)));
  }
}
