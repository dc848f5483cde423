/**
 The delayed-job queue (backend/src/queue/emailQueue.ts).  A queue job's key is a function of the
 row id alone, so the queue is modelled as a map from row ids to delays; adding an existing key is
 a no-op.
 */
module EmailQueue {
  import opened Schema

  datatype PlannedEmailJob = PlannedEmailJob(emailJobId: JobId, scheduledAt: int)

  type Jobs = map<JobId, nat>

  // How many jobs one bulk command carries.
  const ENQUEUE_CHUNK_SIZE := 1000

  function DelayFor(scheduledAt: int, now: int): nat
  {
    if scheduledAt > now then scheduledAt - now else 0
  }

  function Added(jobs: Jobs, job: PlannedEmailJob, now: int): Jobs
  {
    if job.emailJobId in jobs then jobs else jobs[job.emailJobId := DelayFor(job.scheduledAt, now)]
  }

  function AddedAll(jobs: Jobs, planned: seq<PlannedEmailJob>, now: int): Jobs
  {
    if planned == [] then jobs
    else Added(AddedAll(jobs, planned[..|planned| - 1], now), planned[|planned| - 1], now)
  }

  function Ids(planned: seq<PlannedEmailJob>): set<JobId>
  {
    if planned == [] then {} else Ids(planned[..|planned| - 1]) + {planned[|planned| - 1].emailJobId}
  }

  lemma {:induction false} AddedAllConcat(jobs: Jobs, p: seq<PlannedEmailJob>, q: seq<PlannedEmailJob>, now: int)
    ensures AddedAll(jobs, p + q, now) == AddedAll(AddedAll(jobs, p, now), q, now)
  {
    if q == [] {
      assert p + q == p;
    } else {
      assert (p + q)[..|p + q| - 1] == p + q[..|q| - 1];
      AddedAllConcat(jobs, p, q[..|q| - 1], now);
    }
  }

  lemma {:induction false} IdsAre(planned: seq<PlannedEmailJob>)
    ensures forall i :: 0 <= i < |planned| ==> planned[i].emailJobId in Ids(planned)
    ensures forall id :: id in Ids(planned) ==> exists i :: 0 <= i < |planned| && planned[i].emailJobId == id
  {
    if planned != [] {
      var init := planned[..|planned| - 1];
      IdsAre(init);
      assert forall i :: 0 <= i < |init| ==> planned[i] == init[i];
    }
  }

  /** Existing jobs are left alone; the keys are the old ones and the planned ones. */
  lemma {:induction false} AddedAllKeys(jobs: Jobs, planned: seq<PlannedEmailJob>, now: int)
    ensures AddedAll(jobs, planned, now).Keys == jobs.Keys + Ids(planned)
    ensures forall id :: id in jobs ==> AddedAll(jobs, planned, now)[id] == jobs[id]
  {
    if planned != [] {
      AddedAllKeys(jobs, planned[..|planned| - 1], now);
    }
  }

  /** A new job fires at its scheduled time, or at once when that is past; its first mention counts. */
  lemma {:induction false} NewJobDelay(jobs: Jobs, planned: seq<PlannedEmailJob>, now: int, i: nat)
    requires i < |planned| && planned[i].emailJobId !in jobs
    requires forall j :: 0 <= j < i ==> planned[j].emailJobId != planned[i].emailJobId
    ensures planned[i].emailJobId in AddedAll(jobs, planned, now)
    ensures now + AddedAll(jobs, planned, now)[planned[i].emailJobId]
         == if planned[i].scheduledAt > now then planned[i].scheduledAt else now
  {
    var n := |planned| - 1;
    AddedAllKeys(jobs, planned[..n], now);
    if i < n {
      NewJobDelay(jobs, planned[..n], now, i);
    } else {
      IdsAre(planned[..n]);
    }
  }

  lemma PrefixIds(planned: seq<PlannedEmailJob>, n: nat)
    requires n <= |planned|
    ensures Ids(planned[..n]) <= Ids(planned)
  {
    IdsAre(planned[..n]);
    IdsAre(planned);
    forall id | id in Ids(planned[..n])
      ensures id in Ids(planned)
    {
      var i :| 0 <= i < n && planned[..n][i].emailJobId == id;
      assert planned[i].emailJobId in Ids(planned);
    }
  }

  /**
   Enqueueing again after a crash part-way is safe: the keys are those of one complete enqueue, and
   whatever the first try added is untouched.
   */
  lemma EnqueueIsRepeatable(jobs: Jobs, planned: seq<PlannedEmailJob>, crashedAt: nat, now: int, later: int)
    requires crashedAt <= |planned|
    ensures var partial := AddedAll(jobs, planned[..crashedAt], now);
            var repaired := AddedAll(partial, planned, later);
            && repaired.Keys == AddedAll(jobs, planned, now).Keys
            && forall id :: id in partial ==> id in repaired && repaired[id] == partial[id]
  {
    var partial := AddedAll(jobs, planned[..crashedAt], now);
    AddedAllKeys(jobs, planned[..crashedAt], now);
    AddedAllKeys(partial, planned, later);
    AddedAllKeys(jobs, planned, now);
    PrefixIds(planned, crashedAt);
  }

  /** What one enqueueing does to the queue, job by job. */
  lemma EnqueuedFires(jobs: Jobs, planned: seq<PlannedEmailJob>, now: int)
    ensures var after := AddedAll(jobs, planned, now);
            && (forall id :: id in jobs ==> id in after && after[id] == jobs[id])
            && (forall id :: id in after ==> id in jobs || exists i :: 0 <= i < |planned| && planned[i].emailJobId == id)
            && (forall i :: 0 <= i < |planned| ==> planned[i].emailJobId in after)
            && (forall i :: 0 <= i < |planned| && IsFirstMention(jobs, planned, i) ==>
                  now + after[planned[i].emailJobId] == if planned[i].scheduledAt > now then planned[i].scheduledAt else now)
  {
    AddedAllKeys(jobs, planned, now);
    IdsAre(planned);
    forall i | 0 <= i < |planned| && IsFirstMention(jobs, planned, i)
      ensures planned[i].emailJobId in AddedAll(jobs, planned, now)
      ensures now + AddedAll(jobs, planned, now)[planned[i].emailJobId]
           == if planned[i].scheduledAt > now then planned[i].scheduledAt else now
    {
      NewJobDelay(jobs, planned, now, i);
    }
  }

  /** The `i`-th planned job has no queue job yet, and is not planned earlier in the list. */
  predicate IsFirstMention(jobs: Jobs, planned: seq<PlannedEmailJob>, i: nat)
    requires i < |planned|
  {
    planned[i].emailJobId !in jobs && forall j :: 0 <= j < i ==> planned[j].emailJobId != planned[i].emailJobId
  }

  function Without(jobs: Jobs, ids: seq<JobId>, locked: set<JobId>): Jobs
  {
    map id | id in jobs && (id in locked || id !in ids) :: jobs[id]
  }

  class Queue {
    var jobs: Jobs

    constructor ()
      ensures jobs == map[]
    {
      jobs := map[];
    }

    method AddBulk(chunk: seq<PlannedEmailJob>, now: int)
      modifies this
      ensures jobs == AddedAll(old(jobs), chunk, now)
    {
      for i := 0 to |chunk|
        invariant jobs == AddedAll(old(jobs), chunk[..i], now)
      {
        assert chunk[..i + 1][..i] == chunk[..i];
        if chunk[i].emailJobId !in jobs {
          var delay := if chunk[i].scheduledAt - now > 0 then chunk[i].scheduledAt - now else 0;
          jobs := jobs[chunk[i].emailJobId := delay];
        }
      }
      assert chunk[..|chunk|] == chunk;
    }

    /**
     Pushes the planned jobs in bounded chunks; the chunks add up to the whole list.  A job that was absent
     fires at its scheduled time, or at once when that is past.
     */
    method EnqueueEmailJobs(planned: seq<PlannedEmailJob>, now: int)
      modifies this
      ensures jobs == AddedAll(old(jobs), planned, now)
      ensures forall id :: id in old(jobs) ==> id in jobs && jobs[id] == old(jobs)[id]
      ensures forall id :: id in jobs ==> id in old(jobs) || exists i :: 0 <= i < |planned| && planned[i].emailJobId == id
      ensures forall i :: 0 <= i < |planned| ==> planned[i].emailJobId in jobs
      ensures forall i :: 0 <= i < |planned| && IsFirstMention(old(jobs), planned, i) ==>
                now + jobs[planned[i].emailJobId] == if planned[i].scheduledAt > now then planned[i].scheduledAt else now
    {
      var i := 0;
      while i < |planned|
        invariant 0 <= i
        invariant jobs == AddedAll(old(jobs), planned[..if i < |planned| then i else |planned|], now)
      {
        var end := if i + ENQUEUE_CHUNK_SIZE < |planned| then i + ENQUEUE_CHUNK_SIZE else |planned|;
        AddedAllConcat(old(jobs), planned[..i], planned[i..end], now);
        assert planned[..i] + planned[i..end] == planned[..end];
        AddBulk(planned[i..end], now);
        i := i + ENQUEUE_CHUNK_SIZE;
      }
      assert planned[..|planned|] == planned;
      EnqueuedFires(old(jobs), planned, now);
    }

    /** Best effort: a job that is being processed is locked and stays. */
    method RemoveEmailJobs(ids: seq<JobId>, locked: set<JobId>)
      modifies this
      ensures jobs == Without(old(jobs), ids, locked)
      ensures forall id :: id in jobs <==> id in old(jobs) && (id in locked || id !in ids)
      ensures forall id :: id in jobs ==> jobs[id] == old(jobs)[id]
    {
      for i := 0 to |ids|
        invariant jobs == Without(old(jobs), ids[..i], locked)
      {
        if ids[i] !in locked {
          jobs := jobs - {ids[i]};
        }
        assert forall id :: id in ids[..i + 1] <==> id in ids[..i] || id == ids[i];
      }
      assert ids[..|ids|] == ids;
    }
  }
}
