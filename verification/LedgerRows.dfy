/**
 What a row's columns say of the run that brought them about: when it was claimed, how often, when it was
 sent, and what the bulk statements do to it.  Everything here is stated on the columns themselves.
 */
module LedgerRows {
  import opened Ledger
  import opened LedgerOutcomes
  import opened LedgerSafety
  import opened RateLimiter
  import opened Schema
  import opened Wrappers

  // ---- The claim ----------------------------------------------------------------------------------

  /** The step takes the row to PROCESSING. */
  ghost predicate TakesRow(policy: Policy, s: State, a: Action, id: JobId)
  {
    !HasStatus(s.rows, id, Processing) && HasStatus(Next(policy, s, a).rows, id, Processing)
  }

  /** A claim stamps its own instant and counts one attempt; nothing else does either. */
  lemma ClaimStep(policy: Policy, s: State, a: Action, id: JobId)
    requires id in s.rows
    ensures id in Next(policy, s, a).rows
    ensures TakesRow(policy, s, a, id) ==>
              && s.rows[id].status == Scheduled && a.Work? && a.run in s.runs && s.runs[a.run].job == id
              && Next(policy, s, a).rows[id].startedAt == Some(a.input.now)
              && Next(policy, s, a).rows[id].attempts == s.rows[id].attempts + 1
    ensures !TakesRow(policy, s, a, id) ==>
              && Next(policy, s, a).rows[id].attempts == s.rows[id].attempts
              && Next(policy, s, a).rows[id].startedAt
                 == if Next(policy, s, a).rows[id].status == Scheduled != s.rows[id].status then None else s.rows[id].startedAt
  {
    hide WorkStep;
    if a.Work? && a.run in s.runs {
      WorkHasEffect(policy, s, a.run, a.input);
    }
  }

  /** A PROCESSING row carries the instant of a claim, and a SCHEDULED row carries none. */
  ghost predicate ClaimsAreStamped(rows: Rows)
  {
    forall id :: id in rows ==>
      && (rows[id].status == Processing ==> rows[id].startedAt.Some?)
      && (rows[id].status == Scheduled ==> rows[id].startedAt.None?)
  }

  lemma NewRowsAreUnclaimed(policy: Policy, s: State, a: Action, id: JobId)
    requires id !in s.rows && id in Next(policy, s, a).rows
    ensures Next(policy, s, a).rows[id].status == Scheduled && Next(policy, s, a).rows[id].startedAt.None?
    ensures Next(policy, s, a).rows[id].attempts == 0 && Next(policy, s, a).rows[id].sentAt.None?
  {
    hide WorkStep;
    if a.Work? && a.run in s.runs {
      WorkHasEffect(policy, s, a.run, a.input);
    }
  }

  lemma {:induction false} RunKeepsClaimsStamped(policy: Policy, s: State, trace: seq<Action>)
    requires ClaimsAreStamped(s.rows)
    ensures ClaimsAreStamped(Exec(policy, s, trace).rows)
    decreases |trace|
  {
    if trace != [] {
      var s' := Next(policy, s, trace[0]);
      forall id | id in s'.rows
        ensures s'.rows[id].status == Processing ==> s'.rows[id].startedAt.Some?
        ensures s'.rows[id].status == Scheduled ==> s'.rows[id].startedAt.None?
      {
        if id in s.rows {
          ClaimStep(policy, s, trace[0], id);
        } else {
          NewRowsAreUnclaimed(policy, s, trace[0], id);
        }
      }
      RunKeepsClaimsStamped(policy, s', trace[1..]);
    }
    hide Next;
  }

  /** In every reachable state, whatever throws or crashes, a PROCESSING row is stamped. */
  lemma ProcessingRowsAreStamped(policy: Policy, trace: seq<Action>, id: JobId)
    requires HasStatus(Exec(policy, EMPTY, trace).rows, id, Processing)
    ensures Exec(policy, EMPTY, trace).rows[id].startedAt.Some?
  {
    RunKeepsClaimsStamped(policy, EMPTY, trace);
  }

  /** The row stays PROCESSING all along. */
  ghost predicate StaysClaimed(policy: Policy, s: State, trace: seq<Action>, id: JobId)
  {
    && Along(policy, s, trace, (t: State, a: Action) => HasStatus(t.rows, id, Processing))
    && HasStatus(Exec(policy, s, trace).rows, id, Processing)
  }

  lemma {:induction false} ClaimIsKept(policy: Policy, s: State, trace: seq<Action>, id: JobId)
    requires StaysClaimed(policy, s, trace, id)
    ensures HasStatus(s.rows, id, Processing)
    ensures Exec(policy, s, trace).rows[id].startedAt == s.rows[id].startedAt
    decreases |trace|
  {
    if trace != [] {
      var s1 := Next(policy, s, trace[0]);
      ClaimIsKept(policy, s1, trace[1..], id);
      ClaimStep(policy, s, trace[0], id);
    }
    hide Next;
  }

  /** A stale-failing pass, row by row. */
  lemma PassFailsTheStale(policy: Policy, s: State, cutoff: int)
    ensures var s' := Next(policy, s, FailStale(cutoff));
            && s'.rows.Keys == s.rows.Keys
            && (forall id :: id in s.rows ==>
                  s'.rows[id] == if s.rows[id].status == Processing
                                    && (s.rows[id].startedAt.None? || s.rows[id].startedAt.value < cutoff)
                                 then s.rows[id].(status := Failed) else s.rows[id])
            && s' == s.(rows := s'.rows)
  {
  }

  /**
   A row that a run claimed at `input.now`, and that has neither been released nor finished since, is failed
   by a pass if and only if it was claimed before the pass's cutoff.
   */
  lemma ClaimedRowGoesStale(policy: Policy, s: State, r: RunId, input: Input, trace: seq<Action>, id: JobId, cutoff: int)
    requires HasStatus(s.rows, id, Scheduled) && HasStatus(Next(policy, s, Work(r, input)).rows, id, Processing)
    requires StaysClaimed(policy, Next(policy, s, Work(r, input)), trace, id)
    ensures var s' := Exec(policy, Next(policy, s, Work(r, input)), trace);
            HasStatus(Next(policy, s', FailStale(cutoff)).rows, id, Failed) <==> input.now < cutoff
  {
    var s1 := Next(policy, s, Work(r, input));
    ClaimStep(policy, s, Work(r, input), id);
    ClaimIsKept(policy, s1, trace, id);
    PassFailsTheStale(policy, Exec(policy, s1, trace), cutoff);
    hide Next;
  }

  /** How many steps of the run took the row from SCHEDULED to PROCESSING. */
  ghost function ClaimsOf(policy: Policy, s: State, trace: seq<Action>, id: JobId): nat
    decreases |trace|
  {
    if trace == [] then 0
    else
      (if HasStatus(s.rows, id, Scheduled) && TakesRow(policy, s, trace[0], id) then 1 else 0)
      + ClaimsOf(policy, Next(policy, s, trace[0]), trace[1..], id)
  }

  /** Over any run, the attempts recorded grow by exactly the number of claims. */
  lemma {:induction false} AttemptsCountClaims(policy: Policy, s: State, trace: seq<Action>, id: JobId)
    requires id in s.rows
    ensures id in Exec(policy, s, trace).rows
    ensures Exec(policy, s, trace).rows[id].attempts == s.rows[id].attempts + ClaimsOf(policy, s, trace, id)
    decreases |trace|
  {
    if trace != [] {
      ClaimStep(policy, s, trace[0], id);
      AttemptsCountClaims(policy, Next(policy, s, trace[0]), trace[1..], id);
    }
    hide Next;
  }

  // ---- The time of sending ------------------------------------------------------------------------

  /** A row becomes SENT only by its own run's write, at that write's clock reading. */
  lemma SentStep(policy: Policy, s: State, a: Action, id: JobId)
    requires !HasStatus(s.rows, id, Sent) && HasStatus(Next(policy, s, a).rows, id, Sent)
    ensures a.Work? && a.run in s.runs && s.runs[a.run].job == id && s.runs[a.run].pc.ToMarkSent?
    ensures Next(policy, s, a).rows[id].sentAt == Some(a.input.now)
  {
    hide WorkStep;
    if a.Work? && a.run in s.runs {
      WorkHasEffect(policy, s, a.run, a.input);
    }
  }

  /** From then on, over any hazard-free run, that reading stays with the row. */
  lemma SentAtIsItsWrite(policy: Policy, s: State, a: Action, trace: seq<Action>, id: JobId)
    requires SureInv(s) && NoHazard(policy, s, [a] + trace)
    requires !HasStatus(s.rows, id, Sent) && HasStatus(Next(policy, s, a).rows, id, Sent)
    ensures a.Work? && id in Exec(policy, s, [a] + trace).rows
    ensures Exec(policy, s, [a] + trace).rows[id].sentAt == Some(a.input.now)
  {
    assert ([a] + trace)[0] == a && ([a] + trace)[1..] == trace;
    SentStep(policy, s, a, id);
    NextKeepsSure(policy, s, a);
    JobsAreKept(policy, Next(policy, s, a), trace, id);
    hide Next;
  }

  // ---- A cancellation -----------------------------------------------------------------------------

  /** A cancellation goes on to its transaction only if it found the campaign SCHEDULED or PROCESSING. */
  lemma CancelStartsOnOpenCampaigns(policy: Policy, s: State, a: Action, caller: CallerId)
    requires caller !in s.cancels && caller in Next(policy, s, a).cancels
    ensures var c := Next(policy, s, a).cancels[caller];
            && a == CancelLoad(caller, c) && c in s.campaigns
            && (s.campaigns[c] == CampaignScheduled || s.campaigns[c] == CampaignProcessing)
  {
    hide WorkStep;
    if a.Work? && a.run in s.runs {
      WorkHasEffect(policy, s, a.run, a.input);
    }
  }

  /** The transaction cancels exactly the campaign's SCHEDULED rows, and the campaign; nothing else changes. */
  lemma CancelTakesTheScheduled(policy: Policy, s: State, caller: CallerId)
    requires caller in s.cancels
    ensures var s', c := Next(policy, s, CancelCommit(caller)), s.cancels[caller];
            && s'.rows.Keys == s.rows.Keys
            && (forall id :: id in s.rows ==>
                  s'.rows[id] == if s.rows[id].campaign == c && s.rows[id].status == Scheduled
                                 then s.rows[id].(status := Cancelled) else s.rows[id])
            && s' == s.(rows := s'.rows, campaigns := s.campaigns[c := CampaignCancelled], cancels := s.cancels - {caller})
  {
  }
}
