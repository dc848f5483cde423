/**
 Pages read while the system runs: the tables that a client's queries see, taken at any moments of a run
 of the ledger, are moments as `Pagination` wants them.
 */
module LedgerPages {
  import opened Ledger
  import opened LedgerCampaigns
  import opened LedgerOutcomes
  import opened LedgerSafety
  import opened Ordering
  import opened Pagination
  import opened RateLimiter
  import opened Schema
  import opened Wrappers

  /** Moments of a run, as numbers of actions taken, in order. */
  predicate Ascend(at: seq<nat>, n: nat)
  {
    && (forall i :: 0 <= i < |at| ==> at[i] <= n)
    && (forall i, j :: 0 <= i < j < |at| ==> at[i] <= at[j])
  }

  /** What page `i` is read from: the table after `at[i]` actions. */
  ghost function RowsAt(policy: Policy, trace: seq<Action>, at: seq<nat>): (snapshots: seq<Rows>)
    requires Ascend(at, |trace|)
    ensures |snapshots| == |at|
    ensures forall i :: 0 <= i < |at| ==> snapshots[i] == Exec(policy, EMPTY, trace[..at[i]]).rows
  {
    seq(|at|, i requires 0 <= i < |at| => Exec(policy, EMPTY, trace[..at[i]]).rows)
  }

  lemma Between(policy: Policy, trace: seq<Action>, m: nat, n: nat)
    requires m <= n <= |trace|
    ensures Exec(policy, EMPTY, trace[..n]) == Exec(policy, Exec(policy, EMPTY, trace[..m]), trace[m..n])
  {
    assert trace[..n] == trace[..m] + trace[m..n];
    ExecAppend(policy, EMPTY, trace[..m], trace[m..n]);
  }

  /** Every part of a hazard-free run is hazard-free, from a state with the invariant. */
  lemma PartsAreSure(policy: Policy, trace: seq<Action>, m: nat, n: nat)
    requires m <= n <= |trace| && NoHazard(policy, EMPTY, trace)
    ensures SureInv(Exec(policy, EMPTY, trace[..m]))
    ensures NoHazard(policy, Exec(policy, EMPTY, trace[..m]), trace[m..n])
  {
    var ok := (t: State, a: Action) => !Hazard(t, a);
    assert trace == trace[..m] + trace[m..] && trace[m..] == trace[m..n] + trace[n..];
    AlongAppend(policy, EMPTY, trace[..m], trace[m..], ok);
    AlongAppend(policy, Exec(policy, EMPTY, trace[..m]), trace[m..n], trace[n..], ok);
    assert NoHazard(policy, EMPTY, trace[..m]);
    RunKeepsSure(policy, EMPTY, trace[..m]);
  }

  lemma MomentsKeepJobs(policy: Policy, trace: seq<Action>, at: seq<nat>)
    requires NoHazard(policy, EMPTY, trace) && Ascend(at, |trace|)
    ensures JobMoments(RowsAt(policy, trace, at))
    ensures forall i :: 0 <= i < |at| ==> SentRowsStamped(RowsAt(policy, trace, at)[i])
  {
    var snapshots := RowsAt(policy, trace, at);
    forall i, j | 0 <= i < j < |snapshots|
      ensures KeepsJobs(snapshots[i], snapshots[j])
    {
      forall id | id in snapshots[i]
        ensures id in snapshots[j] && KeepsJob(snapshots[i][id], snapshots[j][id])
      {
        Between(policy, trace, at[i], at[j]);
        PartsAreSure(policy, trace, at[i], at[j]);
        JobsAreKept(policy, Exec(policy, EMPTY, trace[..at[i]]), trace[at[i]..at[j]], id);
      }
    }
    forall i | 0 <= i < |snapshots|
      ensures SentRowsStamped(snapshots[i])
    {
      SentRowsStayStamped(policy, EMPTY, trace[..at[i]]);
    }
  }

  /**
   A client pages through all of a user's jobs, one page at each of any moments of a hazard-free run, while
   workers send, cancellations commit and campaigns are created: in every view and with any search, no job
   is listed twice, and a job wanted at all of these moments has been listed once the last page is reached.
   */
  lemma AllJobsPagesOfARun(policy: Policy, trace: seq<Action>, at: seq<nat>, owned: set<CampaignId>,
                           status: Option<JobStatus>, found: set<JobId>, limit: nat, id: JobId)
    requires NoHazard(policy, EMPTY, trace) && Ascend(at, |trace|) && at != [] && limit >= 1
    ensures var snapshots := RowsAt(policy, trace, at);
            var walk := FollowAllChanging(snapshots, owned, status, found, None, limit);
            && Increasing(walk.items)
            && (walk.finished && WantedThroughout(snapshots, owned, status, found, id) ==>
                  id in snapshots[0] && PlaceOf(snapshots[0][id], id, status) in walk.items)
  {
    MomentsKeepJobs(policy, trace, at);
    ChangingAllJobsAreListedOnce(RowsAt(policy, trace, at), owned, status, found, limit, id);
  }

  // ---- The jobs of one campaign -------------------------------------------------------------------

  lemma StepKeepsJob(policy: Policy, s: State, a: Action, id: JobId)
    requires id in s.rows
    ensures id in Next(policy, s, a).rows && SameJob(s.rows[id], Next(policy, s, a).rows[id])
  {
    hide WorkStep;
    if a.Work? && a.run in s.runs {
      WorkHasEffect(policy, s, a.run, a.input);
    }
  }

  /** What every run keeps: rows have their campaigns, and the jobs of a campaign are numbered apart. */
  ghost predicate Numbered(s: State)
  {
    RowsHaveCampaigns(s) && forall c :: DistinctPositions(s.rows, c)
  }

  lemma NewJobsAreNumbered(policy: Policy, s: State, a: Action, i: JobId, j: JobId)
    requires Numbered(s) && i in Next(policy, s, a).rows && j in Next(policy, s, a).rows && i != j && i !in s.rows
    requires Next(policy, s, a).rows[i].campaign == Next(policy, s, a).rows[j].campaign
    ensures Next(policy, s, a).rows[i].sequenceNumber != Next(policy, s, a).rows[j].sequenceNumber
  {
    NewRowsAreElsewhere(policy, s, a, i);
    if j in s.rows {
      StepKeepsJob(policy, s, a, j);
      assert false;
    } else {
      assert CanCreate(s, a.campaign, a.newRows) && DistinctPositions(a.newRows, a.campaign);
      assert i in a.newRows && j in a.newRows;
    }
  }

  lemma NextKeepsPositions(policy: Policy, s: State, a: Action, c: CampaignId)
    requires Numbered(s)
    ensures DistinctPositions(Next(policy, s, a).rows, c)
  {
    hide Next;
    var s' := Next(policy, s, a);
    forall i, j | i in s'.rows && j in s'.rows && i != j && s'.rows[i].campaign == c == s'.rows[j].campaign
      ensures s'.rows[i].sequenceNumber != s'.rows[j].sequenceNumber
    {
      if i !in s.rows {
        NewJobsAreNumbered(policy, s, a, i, j);
      } else if j !in s.rows {
        NewJobsAreNumbered(policy, s, a, j, i);
      } else {
        StepKeepsJob(policy, s, a, i);
        StepKeepsJob(policy, s, a, j);
        assert DistinctPositions(s.rows, c);
      }
    }
  }

  lemma NextKeepsNumbered(policy: Policy, s: State, a: Action)
    requires Numbered(s)
    ensures Numbered(Next(policy, s, a))
  {
    var s' := Next(policy, s, a);
    NextKeepsCampaigns(policy, s, a);
    forall c
      ensures DistinctPositions(s'.rows, c)
    {
      NextKeepsPositions(policy, s, a, c);
    }
    hide Next;
  }

  lemma {:induction false} RunKeepsNumbered(policy: Policy, s: State, trace: seq<Action>)
    requires Numbered(s)
    ensures Numbered(Exec(policy, s, trace))
    decreases |trace|
  {
    if trace != [] {
      NextKeepsNumbered(policy, s, trace[0]);
      RunKeepsNumbered(policy, Next(policy, s, trace[0]), trace[1..]);
    }
  }

  lemma SameJobsStep(policy: Policy, s: State, a: Action, c: CampaignId)
    requires c in s.campaigns
    ensures SameJobs(s.rows, Next(policy, s, a).rows, c)
  {
    hide Next;
    var s' := Next(policy, s, a);
    forall id | id in s.rows
      ensures id in s'.rows && SameJob(s.rows[id], s'.rows[id])
    {
      StepKeepsJob(policy, s, a, id);
    }
    forall id | id in s'.rows && s'.rows[id].campaign == c
      ensures id in s.rows
    {
      if id !in s.rows {
        NewRowsAreElsewhere(policy, s, a, id);
      }
    }
  }

  /** Over any run, a campaign's jobs are the ones it was created with. */
  lemma {:induction false} CampaignKeepsItsJobs(policy: Policy, s: State, trace: seq<Action>, c: CampaignId)
    requires c in s.campaigns
    ensures SameJobs(s.rows, Exec(policy, s, trace).rows, c)
    decreases |trace|
  {
    if trace != [] {
      var s' := Next(policy, s, trace[0]);
      SameJobsStep(policy, s, trace[0], c);
      CampaignsStay(policy, s, trace[0]);
      CampaignKeepsItsJobs(policy, s', trace[1..], c);
    }
    hide Next;
  }

  lemma {:induction false} CampaignIsKept(policy: Policy, s: State, trace: seq<Action>, c: CampaignId)
    requires c in s.campaigns
    ensures c in Exec(policy, s, trace).campaigns
    decreases |trace|
  {
    if trace != [] {
      CampaignsStay(policy, s, trace[0]);
      CampaignIsKept(policy, Next(policy, s, trace[0]), trace[1..], c);
    }
  }

  /**
   A client pages through a campaign's jobs, one page at each of any moments of any run, whatever throws or
   crashes in it: no job is listed twice, and a job that matched the filter at all of these moments has been
   listed once the last page is reached.
   */
  lemma CampaignPagesOfARun(policy: Policy, trace: seq<Action>, at: seq<nat>, c: CampaignId,
                            status: Option<JobStatus>, limit: nat, id: JobId)
    requires Ascend(at, |trace|) && at != [] && limit >= 1
    requires c in Exec(policy, EMPTY, trace[..at[0]]).campaigns
    ensures var snapshots := RowsAt(policy, trace, at);
            var walk := FollowChanging(JobTables(snapshots, c, status), None, limit);
            && Increasing(walk.items)
            && (walk.finished && MatchesThroughout(snapshots, c, status, id)
                ==> Key(snapshots[0][id].sequenceNumber, 0) in walk.items)
  {
    var snapshots := RowsAt(policy, trace, at);
    RunKeepsNumbered(policy, EMPTY, trace[..at[0]]);
    forall i, j | 0 <= i < j < |snapshots|
      ensures SameJobs(snapshots[i], snapshots[j], c)
    {
      if i > 0 {
        Between(policy, trace, at[0], at[i]);
        CampaignIsKept(policy, Exec(policy, EMPTY, trace[..at[0]]), trace[at[0]..at[i]], c);
      }
      Between(policy, trace, at[i], at[j]);
      CampaignKeepsItsJobs(policy, Exec(policy, EMPTY, trace[..at[i]]), trace[at[i]..at[j]], c);
    }
    ChangingJobsAreListedOnce(snapshots, c, status, limit, id);
  }
}
