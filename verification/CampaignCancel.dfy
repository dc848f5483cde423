/**
 `cancelCampaign` (backend/src/services/campaignService.ts) on the stores the workers share: the check
 of the campaign, the read of its SCHEDULED jobs and the committing transaction are separate statements,
 and others act in between.  The queue jobs of the rows read are removed at the end.
 */
module CampaignCancel {
  import opened EmailProcessor
  import opened EmailQueue
  import opened Ledger
  import opened LedgerRows
  import opened Ordering
  import opened RateLimiter
  import opened Schema

  datatype CancelReply = NotFound | AlreadyFinished | AlreadyCancelled | CancelledNow

  predicate IsCallOf(a: Action, caller: CallerId)
  {
    match a
    case CancelLoad(c, _) => c == caller
    case CancelCommit(c) => c == caller
    case _ => false
  }

  lemma CallStays(policy: Policy, s: State, a: Action, caller: CallerId)
    requires caller in s.cancels && !IsCallOf(a, caller)
    ensures caller in Next(policy, s, a).cancels && Next(policy, s, a).cancels[caller] == s.cancels[caller]
  {
    hide WorkStep;
    if a.Work? && a.run in s.runs {
      WorkHasEffect(policy, s, a.run, a.input);
    }
  }

  /** Others run. */
  method OthersBeside(backend: Backend, caller: CallerId, schedule: seq<Action>)
    requires caller in backend.cancels
    requires forall i :: 0 <= i < |schedule| ==> !IsCallOf(schedule[i], caller)
    modifies backend, backend.redis
    ensures backend.View() == Exec(backend.policy, old(backend.View()), schedule)
    ensures caller in backend.cancels && backend.cancels[caller] == old(backend.cancels[caller])
  {
    for i := 0 to |schedule|
      invariant backend.View() == Exec(backend.policy, old(backend.View()), schedule[..i])
      invariant caller in backend.cancels && backend.cancels[caller] == old(backend.cancels[caller])
    {
      CallStays(backend.policy, backend.View(), schedule[i], caller);
      ExecOneMore(backend.policy, old(backend.View()), schedule[..i], schedule[i]);
      assert schedule[..i + 1] == schedule[..i] + [schedule[i]];
      backend.TakeStep(schedule[i]);
    }
    assert schedule[..|schedule|] == schedule;
  }

  // ---- The statements -------------------------------------------------------------------------------

  /** What a cancellation asked for in state `s` is answered; `CancelledNow` says the transaction follows. */
  function Verdict(s: State, owned: set<CampaignId>, campaign: CampaignId): CancelReply
  {
    if campaign !in owned || campaign !in s.campaigns then NotFound
    else match s.campaigns[campaign]
      case CampaignCancelled => AlreadyCancelled
      case Completed => AlreadyFinished
      case PartiallyFailed => AlreadyFinished
      case _ => CancelledNow
  }

  /** Which reply a request gets, from whether the campaign is the caller's and from its status. */
  ghost predicate Replies(reply: CancelReply, campaigns: Campaigns, owned: set<CampaignId>, campaign: CampaignId)
  {
    && (reply.NotFound? <==> campaign !in owned || campaign !in campaigns)
    && (reply.AlreadyCancelled? <==>
          campaign in owned && campaign in campaigns && campaigns[campaign] == CampaignCancelled)
    && (reply.AlreadyFinished? <==>
          campaign in owned && campaign in campaigns
          && (campaigns[campaign] == Completed || campaigns[campaign] == PartiallyFailed))
    && (reply.CancelledNow? <==>
          campaign in owned && campaign in campaigns
          && (campaigns[campaign] == CampaignScheduled || campaigns[campaign] == CampaignProcessing))
  }

  method CheckStatus(backend: Backend, caller: CallerId, owned: set<CampaignId>, campaign: CampaignId)
    returns (reply: CancelReply)
    requires caller !in backend.cancels
    modifies backend`cancels
    ensures reply == Verdict(old(backend.View()), owned, campaign)
    ensures Replies(reply, old(backend.campaigns), owned, campaign)
    ensures reply.CancelledNow? ==>
              && backend.View() == Next(backend.policy, old(backend.View()), CancelLoad(caller, campaign))
              && caller in backend.cancels && backend.cancels[caller] == campaign
    ensures !reply.CancelledNow? ==> backend.View() == old(backend.View())
  {
    if campaign !in owned || campaign !in backend.campaigns {
      return NotFound;
    }
    var status := backend.campaigns[campaign];
    if status == CampaignCancelled {
      return AlreadyCancelled;
    }
    if status == Completed || status == PartiallyFailed {
      return AlreadyFinished;
    }
    backend.cancels := backend.cancels[caller := campaign];
    reply := CancelledNow;
  }

  function ScheduledOf(rows: Rows, campaign: CampaignId): set<JobId>
  {
    set id | id in rows && rows[id].campaign == campaign && rows[id].status == Scheduled
  }

  method FindScheduled(backend: Backend, campaign: CampaignId) returns (ids: seq<JobId>)
    ensures |ids| == |ScheduledOf(backend.rows, campaign)|
    ensures forall id :: id in ids <==> id in ScheduledOf(backend.rows, campaign)
  {
    var found := ScheduledOf(backend.rows, campaign);
    var keys := set id | id in found :: Key(id, 0);
    KeysOfIds(found, keys);
    AscendingMeaning(keys);
    var sorted := Ascending(keys);
    ids := seq(|sorted|, i requires 0 <= i < |sorted| => sorted[i].major);
    forall id
      ensures id in ids <==> id in found
    {
      if id in found {
        assert Key(id, 0) in keys && Key(id, 0) in sorted;
        var i :| 0 <= i < |sorted| && sorted[i] == Key(id, 0);
        assert ids[i] == id;
      }
      if id in ids {
        var i :| 0 <= i < |ids| && ids[i] == id;
        assert sorted[i] in keys;
      }
    }
  }

  lemma {:induction false} KeysOfIds(ids: set<JobId>, keys: set<Key>)
    requires keys == set id | id in ids :: Key(id, 0)
    ensures |keys| == |ids|
    decreases |ids|
  {
    if id :| id in ids {
      assert Key(id, 0) in keys;
      assert keys - {Key(id, 0)} == set i | i in ids - {id} :: Key(i, 0);
      KeysOfIds(ids - {id}, keys - {Key(id, 0)});
    } else {
      assert forall i :: i !in ids;
      assert keys == {};
    }
  }

  /** The transaction: the jobs and the campaign together. */
  method Commit(backend: Backend, caller: CallerId)
    requires caller in backend.cancels
    modifies backend`rows, backend`campaigns, backend`cancels
    ensures backend.View() == Next(backend.policy, old(backend.View()), CancelCommit(caller))
  {
    var campaign := backend.cancels[caller];
    backend.rows := map id | id in backend.rows ::
      if backend.rows[id].campaign == campaign && backend.rows[id].status == Scheduled
      then backend.rows[id].(status := Schema.Cancelled) else backend.rows[id];
    backend.campaigns := backend.campaigns[campaign := CampaignCancelled];
    backend.cancels := backend.cancels - {caller};
  }

  /** The transaction: exactly the campaign's SCHEDULED rows are cancelled, with the campaign. */
  ghost predicate CancelsExactly(s: State, s': State, c: CampaignId)
  {
    && s'.rows.Keys == s.rows.Keys
    && (forall id :: id in s.rows ==>
          s'.rows[id] == if s.rows[id].campaign == c && s.rows[id].status == Scheduled
                         then s.rows[id].(status := Schema.Cancelled) else s.rows[id])
    && s'.campaigns == s.campaigns[c := CampaignCancelled]
  }

  // ---- The whole call -------------------------------------------------------------------------------

  /** The read, with others before it. */
  method ReadBeside(backend: Backend, caller: CallerId, campaign: CampaignId, schedule: seq<Action>)
    returns (ids: seq<JobId>)
    requires caller in backend.cancels && backend.cancels[caller] == campaign
    requires forall i :: 0 <= i < |schedule| ==> !IsCallOf(schedule[i], caller)
    modifies backend, backend.redis
    ensures backend.View() == Exec(backend.policy, old(backend.View()), schedule)
    ensures caller in backend.cancels && backend.cancels[caller] == campaign
    ensures |ids| == |ScheduledOf(backend.rows, campaign)|
    ensures forall id :: id in ids <==> id in ScheduledOf(backend.rows, campaign)
  {
    OthersBeside(backend, caller, schedule);
    ids := FindScheduled(backend, campaign);
  }

  /** The transaction, with others before it. */
  method CommitBeside(backend: Backend, caller: CallerId, schedule: seq<Action>)
    requires caller in backend.cancels
    requires forall i :: 0 <= i < |schedule| ==> !IsCallOf(schedule[i], caller)
    modifies backend, backend.redis
    ensures backend.View() == Next(backend.policy, Exec(backend.policy, old(backend.View()), schedule), CancelCommit(caller))
    ensures CancelsExactly(Exec(backend.policy, old(backend.View()), schedule), backend.View(), old(backend.cancels[caller]))
  {
    OthersBeside(backend, caller, schedule);
    CancelTakesTheScheduled(backend.policy, backend.View(), caller);
    Commit(backend, caller);
  }

  /**
   One cancellation, with any actions of others between its statements.  Somebody else's, a missing or a
   finished campaign is refused and a cancelled one left alone; otherwise, when the transaction commits, no
   job of the campaign is SCHEDULED and the campaign is CANCELLED, and no other row has changed.  The count
   and the queue jobs removed are those of the rows `listed` that were SCHEDULED at the read, `read`; the rows
   that the transaction cancels may be others.
   */
  method CancelCampaign(backend: Backend, queue: Queue, caller: CallerId, owned: set<CampaignId>, campaign: CampaignId,
                        beforeRead: seq<Action>, beforeCommit: seq<Action>, locked: set<JobId>)
    returns (reply: CancelReply, cancelledCount: nat, ghost read: State, ghost listed: set<JobId>)
    requires caller !in backend.cancels
    requires forall i :: 0 <= i < |beforeRead| ==> !IsCallOf(beforeRead[i], caller)
    requires forall i :: 0 <= i < |beforeCommit| ==> !IsCallOf(beforeCommit[i], caller)
    modifies backend, backend.redis, queue
    ensures Replies(reply, old(backend.campaigns), owned, campaign)
    ensures !reply.CancelledNow? ==>
              backend.View() == old(backend.View()) && queue.jobs == old(queue.jobs) && cancelledCount == 0
    ensures reply.CancelledNow? ==>
              && read == Exec(backend.policy,
                              Next(backend.policy, old(backend.View()), CancelLoad(caller, campaign)), beforeRead)
              && backend.View() == Next(backend.policy, Exec(backend.policy, read, beforeCommit), CancelCommit(caller))
              && CancelsExactly(Exec(backend.policy, read, beforeCommit), backend.View(), campaign)
              && (forall id :: id in backend.rows && backend.rows[id].campaign == campaign ==> backend.rows[id].status != Scheduled)
              && (forall id :: id in listed <==>
                    id in read.rows && read.rows[id].campaign == campaign && read.rows[id].status == Scheduled)
              && cancelledCount == |listed|
              && (forall id :: id in queue.jobs <==> id in old(queue.jobs) && (id in locked || id !in listed))
              && (forall id :: id in queue.jobs ==> queue.jobs[id] == old(queue.jobs)[id])
  {
    read, listed := backend.View(), {};
    reply := CheckStatus(backend, caller, owned, campaign);
    cancelledCount := 0;
    if reply.CancelledNow? {
      var toCancel := ReadBeside(backend, caller, campaign, beforeRead);
      read := backend.View();
      CommitBeside(backend, caller, beforeCommit);
      listed := ScheduledOf(read.rows, campaign);
      queue.RemoveEmailJobs(toCancel, locked);
      cancelledCount := |toCancel|;
    }
  }
}
