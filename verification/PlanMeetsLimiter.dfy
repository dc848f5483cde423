/**
 The planner and the limiter fit together: a campaign that has its senders to itself, and whose jobs
 fire exactly when planned, is never refused, whatever calls other senders make in between.
 */
module PlanMeetsLimiter {
  import opened Calendar
  import opened LimiterRefinement
  import opened LimiterTheory
  import opened RateLimiter
  import Planner
  import Sets

  /** A scheduled campaign: job `n` goes to sender `n mod k` at `times[n]`. */
  datatype Campaign = Campaign(times: seq<nat>, senders: seq<string>)
  {
    function Sender(n: nat): string
      requires senders != []
    {
      senders[n % |senders|]
    }

    function Job(n: nat): Call
      requires senders != [] && n < |times|
    {
      Call(n, Sender(n), times[n], times[n])
    }
  }

  ghost predicate Distinct(senders: seq<string>)
  {
    forall i, j :: 0 <= i < j < |senders| ==> senders[i] != senders[j]
  }

  ghost predicate Apart(times: seq<nat>, gap: int)
  {
    forall i, j :: 0 <= i < j < |times| ==> times[i] <= times[j] && gap <= times[j] - times[i]
  }

  /** Jobs `limit` positions apart are an hour apart. */
  ghost predicate Windowed(times: seq<nat>, limit: nat)
  {
    forall i, j :: 0 <= i && i + limit <= j < |times| ==> times[i] + MS_PER_HOUR <= times[j]
  }

  ghost predicate Fits(policy: Policy, c: Campaign, limit: nat)
  {
    && limit >= 1
    && c.senders != []
    && Distinct(c.senders)
    && Windowed(c.times, limit)
    && Apart(c.times, policy.minGapMs)
    && (forall s :: s in c.senders ==> limit <= policy.Cap(s) * |c.senders|)
  }

  // ---- How many jobs share a sender and an hour ---------------------------------------------------

  lemma SameResidueGap(i: nat, j: nat, k: nat)
    requires k >= 1 && i < j && i % k == j % k
    ensures i + k <= j
  {
    var p, q := i / k, j / k;
    assert i == p * k + i % k && j == q * k + j % k;
    if q <= p {
      Planner.MulLe(q, p, k);
    }
    assert (q - p) * k == q * k - p * k;
    Planner.MulLe(1, q - p, k);
  }

  /** The campaign's jobs that count against job `m`: same sender, same UTC hour. */
  ghost function Rivals(c: Campaign, m: nat): set<nat>
    requires c.senders != [] && m < |c.times|
  {
    set j: nat | j < |c.times| && c.Sender(j) == c.Sender(m) && c.times[j] / MS_PER_HOUR == c.times[m] / MS_PER_HOUR
  }

  lemma RivalsAreSparse(c: Campaign, m: nat, i: nat, j: nat)
    requires c.senders != [] && Distinct(c.senders) && m < |c.times|
    requires i in Rivals(c, m) && j in Rivals(c, m) && i < j
    ensures i + |c.senders| <= j
  {
    var p, q := i % |c.senders|, j % |c.senders|;
    assert c.senders[p] == c.senders[q];
    SameResidueGap(i, j, |c.senders|);
  }

  lemma RivalsAreNear(c: Campaign, limit: nat, m: nat, i: nat, j: nat)
    requires c.senders != [] && Windowed(c.times, limit) && m < |c.times|
    requires i in Rivals(c, m) && j in Rivals(c, m)
    ensures j < i + limit
  {
  }

  lemma RivalsFit(policy: Policy, c: Campaign, limit: nat, m: nat)
    requires Fits(policy, c, limit) && m < |c.times|
    ensures |Rivals(c, m)| <= policy.Cap(c.Sender(m))
  {
    var rivals, k, cap := Rivals(c, m), |c.senders|, policy.Cap(c.Sender(m));
    assert m in rivals && c.Sender(m) in c.senders;
    var first := Sets.Minimum(rivals);
    forall i | i in rivals
      ensures first <= i < first + cap * k
    {
      RivalsAreNear(c, limit, m, first, i);
    }
    forall i, j | i in rivals && j in rivals && i < j
      ensures i + k <= j
    {
      RivalsAreSparse(c, m, i, j);
    }
    Sets.SparseSize(rivals, first, k, cap);
  }

  // ---- A run of calls, the campaign's among others ------------------------------------------------

  /**
   The calls of the campaign's senders are jobs of the campaign at their planned times, each at most
   once.  Jobs planned for the same millisecond may come in any order, and other senders' calls anywhere.
   */
  ghost predicate FiresAsPlanned(c: Campaign, calls: seq<Call>)
    requires c.senders != []
  {
    && (forall p :: 0 <= p < |calls| && calls[p].sender in c.senders ==>
          calls[p].caller < |c.times| && calls[p] == c.Job(calls[p].caller))
    && (forall p, q :: 0 <= p < q < |calls| && calls[p].sender in c.senders && calls[q].sender in c.senders ==>
          calls[p].caller != calls[q].caller)
  }

  ghost predicate IsJobAllow(c: Campaign, a: Allow)
    requires c.senders != []
  {
    a.caller < |c.times| && a == Allow(a.caller, c.Sender(a.caller), c.times[a.caller])
  }

  /** The allows so far and the calls to come: the campaign's part is jobs, none of them twice. */
  ghost predicate InStep(c: Campaign, history: seq<Allow>, calls: seq<Call>)
    requires c.senders != []
  {
    && FiresAsPlanned(c, calls)
    && (forall i :: 0 <= i < |history| && history[i].sender in c.senders ==> IsJobAllow(c, history[i]))
    && (forall i, j :: 0 <= i < j < |history| && history[i].sender in c.senders && history[j].sender in c.senders ==>
          history[i].caller != history[j].caller)
    && (forall i, p :: 0 <= i < |history| && 0 <= p < |calls| ==> history[i].now <= calls[p].now)
    && (forall i, p ::
          0 <= i < |history| && 0 <= p < |calls| && history[i].sender in c.senders && calls[p].sender in c.senders
          ==> history[i].caller != calls[p].caller)
  }

  /** The jobs that an hour's allows of a sender belong to. */
  ghost function CountedCallers(history: seq<Allow>, sender: string, hour: nat): set<nat>
  {
    if history == [] then {}
    else
      var last := history[|history| - 1];
      CountedCallers(history[..|history| - 1], sender, hour)
      + if last.sender == sender && last.now / MS_PER_HOUR == hour then {last.caller} else {}
  }

  lemma {:induction false} CallerIsRecorded(history: seq<Allow>, sender: string, hour: nat, j: nat)
    requires j in CountedCallers(history, sender, hour)
    ensures exists i :: 0 <= i < |history| && history[i].caller == j
                        && history[i].sender == sender && history[i].now / MS_PER_HOUR == hour
  {
    var n := |history| - 1;
    if j in CountedCallers(history[..n], sender, hour) {
      CallerIsRecorded(history[..n], sender, hour, j);
    } else {
      assert history[n].caller == j;
    }
  }

  lemma {:induction false} CallersAreCounted(history: seq<Allow>, sender: string, hour: nat)
    requires forall i, j :: 0 <= i < j < |history| && history[i].sender == sender == history[j].sender ==>
               history[i].caller != history[j].caller
    ensures |CountedCallers(history, sender, hour)| == CountInHour(history, sender, hour)
  {
    if history != [] {
      var n := |history| - 1;
      CallersAreCounted(history[..n], sender, hour);
      if history[n].sender == sender && history[n].caller in CountedCallers(history[..n], sender, hour) {
        CallerIsRecorded(history[..n], sender, hour, history[n].caller);
        assert false;
      }
    }
  }

  lemma CountedAreRivals(c: Campaign, history: seq<Allow>, m: nat)
    requires c.senders != [] && m < |c.times| && InStep(c, history, [c.Job(m)])
    ensures CountedCallers(history, c.Sender(m), c.times[m] / MS_PER_HOUR) <= Rivals(c, m) - {m}
  {
    assert [c.Job(m)][0] == c.Job(m) && c.Sender(m) in c.senders;
    forall j | j in CountedCallers(history, c.Sender(m), c.times[m] / MS_PER_HOUR)
      ensures j in Rivals(c, m) - {m}
    {
      CallerIsRecorded(history, c.Sender(m), c.times[m] / MS_PER_HOUR, j);
      var i :| 0 <= i < |history| && history[i].caller == j && history[i].sender == c.Sender(m)
               && history[i].now / MS_PER_HOUR == c.times[m] / MS_PER_HOUR;
      assert IsJobAllow(c, history[i]);
    }
  }

  lemma GapIsKept(c: Campaign, history: seq<Allow>, gap: int, m: nat)
    requires c.senders != [] && m < |c.times| && Apart(c.times, gap) && InStep(c, history, [c.Job(m)])
    ensures GapClear(history, c.Sender(m), gap, c.times[m])
  {
    assert [c.Job(m)][0] == c.Job(m) && c.Sender(m) in c.senders;
    forall i | 0 <= i < |history| && history[i].sender == c.Sender(m)
      ensures c.times[m] - history[i].now >= gap
    {
      assert IsJobAllow(c, history[i]);
    }
  }

  lemma JobIsAllowed(policy: Policy, c: Campaign, limit: nat, history: seq<Allow>, m: nat)
    requires Fits(policy, c, limit) && m < |c.times| && InStep(c, history, [c.Job(m)])
    ensures ReferenceAllows(policy, history, c.Sender(m), c.times[m])
  {
    GapIsKept(c, history, policy.minGapMs, m);
    var hour := c.times[m] / MS_PER_HOUR;
    assert c.Sender(m) in c.senders && m in Rivals(c, m);
    CallersAreCounted(history, c.Sender(m), hour);
    CountedAreRivals(c, history, m);
    RivalsFit(policy, c, limit, m);
    Sets.SubsetSize(CountedCallers(history, c.Sender(m), hour), Rivals(c, m) - {m});
  }

  lemma StillInStep(c: Campaign, history: seq<Allow>, calls: seq<Call>)
    requires c.senders != [] && calls != [] && InStep(c, history, calls)
    ensures InStep(c, history, [calls[0]]) && InStep(c, history, calls[1..])
  {
    assert [calls[0]][0] == calls[0];
    assert forall p :: 1 <= p < |calls| ==> calls[p] == calls[1..][p - 1];
  }

  lemma OneMoreInStep(c: Campaign, history: seq<Allow>, call: Call, calls: seq<Call>)
    requires c.senders != [] && InStep(c, history, [call]) && InStep(c, history, calls)
    requires forall p :: 0 <= p < |calls| ==> call.now <= calls[p].now
    requires call.sender in c.senders ==>
               forall p :: 0 <= p < |calls| && calls[p].sender in c.senders ==> call.caller != calls[p].caller
    ensures InStep(c, history + [Allow(call.caller, call.sender, call.now)], calls)
  {
    assert [call][0] == call;
    assert call.sender in c.senders ==> IsJobAllow(c, Allow(call.caller, call.sender, call.now));
  }

  lemma NextInStep(c: Campaign, history: seq<Allow>, calls: seq<Call>)
    requires c.senders != [] && calls != [] && InStep(c, history, calls) && OneClock(calls)
    ensures InStep(c, history + [Allow(calls[0].caller, calls[0].sender, calls[0].now)], calls[1..])
  {
    StillInStep(c, history, calls);
    OneMoreInStep(c, history, calls[0], calls[1..]);
  }

  lemma FirstIsAllowed(policy: Policy, c: Campaign, limit: nat, history: seq<Allow>, calls: seq<Call>)
    requires Fits(policy, c, limit) && calls != [] && InStep(c, history, calls) && calls[0].sender in c.senders
    ensures ReferenceAllows(policy, history, calls[0].sender, calls[0].now)
  {
    StillInStep(c, history, calls);
    JobIsAllowed(policy, c, limit, history, calls[0].caller);
  }

  lemma {:induction false} RestIsAllowed(policy: Policy, c: Campaign, limit: nat, history: seq<Allow>, calls: seq<Call>)
    requires Fits(policy, c, limit) && InStep(c, history, calls) && OneClock(calls)
    ensures var decisions := ReferenceDecisions(policy, history, calls);
            |decisions| == |calls| && forall p :: 0 <= p < |calls| && calls[p].sender in c.senders ==> decisions[p]
    decreases |calls|
  {
    if calls != [] {
      var first := calls[0];
      if first.sender in c.senders {
        FirstIsAllowed(policy, c, limit, history, calls);
      }
      StillInStep(c, history, calls);
      NextInStep(c, history, calls);
      hide InStep, Fits, ReferenceAllows;
      if ReferenceAllows(policy, history, first.sender, first.now) {
        RestIsAllowed(policy, c, limit, history + [Allow(first.caller, first.sender, first.now)], calls[1..]);
      } else {
        RestIsAllowed(policy, c, limit, history, calls[1..]);
      }
    }
  }

  /** Every call of the campaign's senders is allowed, in any run of calls on one clock. */
  lemma FittingJobsAreAllowed(policy: Policy, c: Campaign, limit: nat, calls: seq<Call>)
    requires policy.Faithful() && Fits(policy, c, limit)
    requires OneClock(calls) && FiresAsPlanned(c, calls)
    ensures |Decisions(policy, map[], calls)| == |calls|
    ensures forall p :: 0 <= p < |calls| && calls[p].sender in c.senders ==> Decisions(policy, map[], calls)[p]
  {
    ExpiringKeysRefineHistory(policy, calls);
    RestIsAllowed(policy, c, limit, [], calls);
  }

  // ---- The planner's times fit -----------------------------------------------------------------

  lemma PlanIsApart(startAt: int, i: nat, j: nat, delayMs: nat, limit: nat)
    requires limit >= 1 && i < j
    ensures Planner.Planned(startAt, i, delayMs, limit) + delayMs <= Planner.Planned(startAt, j, delayMs, limit)
  {
    Planner.PlanIsMonotone(startAt, i, j, delayMs, limit);
    Planner.MulLe(1, j - i, delayMs);
  }

  /**
   Jobs that fire exactly at their planned times are never denied, by the gap or by the cap, when the
   k distinct senders are the campaign's alone and each may send a k-th (rounded up) of its limit.  Any
   other campaigns on other senders may call the limiter in between.
   */
  lemma PlannedJobsAreNeverDenied(policy: Policy, c: Campaign, startAt: nat, delayMs: nat, limit: nat, calls: seq<Call>)
    requires policy.Faithful() && limit >= 1 && delayMs >= policy.minGapMs
    requires c.senders != [] && Distinct(c.senders)
    requires forall s :: s in c.senders ==> limit <= policy.Cap(s) * |c.senders|
    requires forall n :: 0 <= n < |c.times| ==> c.times[n] == Planner.Planned(startAt, n, delayMs, limit)
    requires OneClock(calls) && FiresAsPlanned(c, calls)
    ensures |Decisions(policy, map[], calls)| == |calls|
    ensures forall p :: 0 <= p < |calls| && calls[p].sender in c.senders ==> Decisions(policy, map[], calls)[p]
  {
    forall i, j | 0 <= i < j < |c.times|
      ensures c.times[i] <= c.times[j] && policy.minGapMs <= c.times[j] - c.times[i]
    {
      PlanIsApart(startAt, i, j, delayMs, limit);
    }
    forall i, j | 0 <= i && i + limit <= j < |c.times|
      ensures c.times[i] + MS_PER_HOUR <= c.times[j]
    {
      Planner.PlanAfterWindow(startAt, i, j, delayMs, limit);
    }
    FittingJobsAreAllowed(policy, c, limit, calls);
  }
}
