/**
 Exactly which rows can still reach SMTP.

 From a reachable state, a row can be accepted by SMTP in some continuation if and only if it is
 SCHEDULED or some run holds it and may still send (`Sendable`).  Two exact results follow: the one
 event that makes a duplicate possible, and what a committed cancellation leaves possible.
 */
module LedgerReach {
  import opened Ledger
  import opened LedgerSafety
  import opened RateLimiter
  import opened Schema
  import opened Wrappers

  /** A holder with a way to a first acceptance: now, or after handing its PROCESSING row back. */
  ghost predicate Sender(s: State, r: RunId, id: JobId)
  {
    && Holder(s, r, id)
    && MayStillSend(s, r)
    && (s.runs[r].pc.ToReleaseDenied? ==> HasStatus(s.rows, id, Processing))
  }

  ghost predicate Sendable(s: State, id: JobId)
  {
    HasStatus(s.rows, id, Scheduled) || exists r :: Sender(s, r, id)
  }

  // ---- A row that is not sendable stays so -------------------------------------------------------

  ghost predicate NewAcceptance(s: State, s': State, id: JobId)
  {
    exists i :: |s.accepts| <= i < |s'.accepts| && s'.accepts[i].job == id
  }

  lemma WorkKeepsUnscheduled(policy: Policy, s: State, r: RunId, input: Input, id: JobId)
    requires Inv(s) && r in s.runs && id in s.rows && !Sendable(s, id)
    ensures var s' := WorkStep(policy, s, r, input);
            id in s'.rows && !HasStatus(s'.rows, id, Scheduled) && !NewAcceptance(s, s', id)
  {
    hide WorkStep;
    assert RunOk(s, r);
    assert !Sender(s, r, id);
    WorkHasEffect(policy, s, r, input);
  }

  lemma OtherMakesNoSender(policy: Policy, s: State, r: RunId, input: Input, id: JobId, r2: RunId)
    requires Inv(s) && r in s.runs && id in s.rows && !Sendable(s, id) && r2 != r
    ensures !Sender(WorkStep(policy, s, r, input), r2, id)
  {
    hide WorkStep;
    assert !Sender(s, r2, id) && RunOk(s, r);
    WorkHasEffect(policy, s, r, input);
  }

  lemma SelfMakesNoSender(policy: Policy, s: State, r: RunId, input: Input, id: JobId)
    requires Inv(s) && r in s.runs && id in s.rows && !Sendable(s, id)
    ensures !Sender(WorkStep(policy, s, r, input), r, id)
  {
    hide WorkStep, Inv, CampaignEffect, Accepted;
    RunIsOk(s, r);
    assert !Sender(s, r, id);
    WorkHasEffect(policy, s, r, input);
    var pc' := WorkStep(policy, s, r, input).runs[r].pc;
    assert Holds(pc') ==> Holds(s.runs[r].pc) || s.runs[r].pc == ToClaim;
  }

  lemma WorkMakesNoSender(policy: Policy, s: State, r: RunId, input: Input, id: JobId, r2: RunId)
    requires Inv(s) && r in s.runs && id in s.rows && !Sendable(s, id)
    ensures !Sender(WorkStep(policy, s, r, input), r2, id)
  {
    if r2 == r {
      SelfMakesNoSender(policy, s, r, input, id);
    } else {
      OtherMakesNoSender(policy, s, r, input, id, r2);
    }
  }

  lemma NextMakesNoSender(policy: Policy, s: State, a: Action, id: JobId, r2: RunId)
    requires Inv(s) && !Hazard(s, a) && id in s.rows && !Sendable(s, id)
    ensures !Sender(Next(policy, s, a), r2, id)
  {
    hide WorkStep;
    assert !Sender(s, r2, id);
    if a.Work? && a.run in s.runs {
      WorkMakesNoSender(policy, s, a.run, a.input, id, r2);
    }
  }

  lemma NextCannotRevive(policy: Policy, s: State, a: Action, id: JobId)
    requires Inv(s) && !Hazard(s, a) && id in s.rows && !Sendable(s, id)
    ensures var s' := Next(policy, s, a);
            id in s'.rows && !Sendable(s', id) && !NewAcceptance(s, s', id)
  {
    if a.Work? && a.run in s.runs {
      WorkKeepsUnscheduled(policy, s, a.run, a.input, id);
    }
    forall r2
      ensures !Sender(Next(policy, s, a), r2, id)
    {
      NextMakesNoSender(policy, s, a, id, r2);
    }
  }

  lemma {:induction false} RunCannotRevive(policy: Policy, s: State, trace: seq<Action>, id: JobId)
    requires Inv(s) && NoHazard(policy, s, trace) && id in s.rows && !Sendable(s, id)
    ensures s.accepts <= Exec(policy, s, trace).accepts
    ensures !NewAcceptance(s, Exec(policy, s, trace), id)
    decreases |trace|
  {
    if trace != [] {
      var s' := Next(policy, s, trace[0]);
      NextKeepsInv(policy, s, trace[0]);
      NextCannotRevive(policy, s, trace[0], id);
      AcceptsGrow(policy, s, trace[0]);
      RunCannotRevive(policy, s', trace[1..], id);
    }
  }

  lemma AcceptsGrow(policy: Policy, s: State, a: Action)
    ensures s.accepts <= Next(policy, s, a).accepts
  {
    hide WorkStep;
    if a.Work? && a.run in s.runs {
      WorkHasEffect(policy, s, a.run, a.input);
    }
  }

  // ---- A sendable row can be sent -----------------------------------------------------------------

  ghost predicate Reaches(policy: Policy, s: State, s': State)
  {
    exists trace :: NoHazard(policy, s, trace) && Exec(policy, s, trace) == s'
  }

  lemma ReachStep(policy: Policy, s: State, a: Action, s': State)
    requires !Hazard(s, a) && Reaches(policy, Next(policy, s, a), s')
    ensures Reaches(policy, s, s')
  {
    var trace :| NoHazard(policy, Next(policy, s, a), trace) && Exec(policy, Next(policy, s, a), trace) == s';
    var longer := [a] + trace;
    assert longer[0] == a && longer[1..] == trace;
    assert NoHazard(policy, s, longer) && Exec(policy, s, longer) == s';
  }

  lemma ReachSelf(policy: Policy, s: State)
    ensures Reaches(policy, s, s)
  {
    assert NoHazard(policy, s, []) && Exec(policy, s, []) == s;
  }

  ghost predicate AllExpire(keys: Redis.Keys)
  {
    forall k :: k in keys ==> keys[k].expiresAt.Some?
  }

  lemma CheckKeepsExpiry(policy: Policy, keys: Redis.Keys, call: Call)
    requires AllExpire(keys)
    ensures AllExpire(Check(policy, keys, call).0)
  {
  }

  lemma NextKeepsExpiry(policy: Policy, s: State, a: Action)
    requires AllExpire(s.redis)
    ensures AllExpire(Next(policy, s, a).redis)
  {
    if a.Work? && a.run in s.runs {
      if s.runs[a.run].pc.ToCheckRate? {
        CheckRateKeepsExpiry(policy, s, a.run, a.input);
      } else {
        WorkHasEffect(policy, s, a.run, a.input);
      }
    }
  }

  lemma CheckRateKeepsExpiry(policy: Policy, s: State, r: RunId, input: Input)
    requires AllExpire(s.redis) && r in s.runs
    ensures AllExpire(CheckRate(policy, s, r, input).redis)
  {
    if s.runs[r].job in s.rows {
      CheckKeepsExpiry(policy, s.redis, LimiterCall(s, r, input));
    }
    hide Check;
  }

  lemma {:induction false} RunKeepsExpiry(policy: Policy, s: State, trace: seq<Action>)
    requires AllExpire(s.redis)
    ensures AllExpire(Exec(policy, s, trace).redis)
    decreases |trace|
  {
    if trace != [] {
      NextKeepsExpiry(policy, s, trace[0]);
      RunKeepsExpiry(policy, Next(policy, s, trace[0]), trace[1..]);
    }
  }

  lemma LatestExpiry(keys: Redis.Keys) returns (t: nat)
    requires AllExpire(keys)
    ensures forall k :: k in keys ==> keys[k].expiresAt.value < t
    decreases |keys|
  {
    t := 0;
    if keys != map[] {
      var k :| k in keys;
      var rest := keys - {k};
      assert k !in rest && rest.Keys < keys.Keys;
      assert |rest| < |keys|;
      t := LatestExpiry(rest);
      if keys[k].expiresAt.value >= t {
        t := keys[k].expiresAt.value + 1;
      }
      assert forall k2 :: k2 in keys ==> k2 == k || (k2 in rest && rest[k2] == keys[k2]);
    }
  }

  /** Once every key has expired, a sender with a positive cap is allowed. */
  lemma AllowedWhenAllExpired(policy: Policy, keys: Redis.Keys, call: Call)
    requires AllExpire(keys) && policy.Cap(call.sender) >= 1
    requires forall k :: k in keys ==> keys[k].expiresAt.value < call.at
    ensures Check(policy, keys, call).1.allowed
  {
  }

  lemma LateInput(s: State) returns (input: Input)
    requires AllExpire(s.redis)
    ensures input.redisTime >= s.clock && input.smtpAccepts
    ensures forall k :: k in s.redis ==> s.redis[k].expiresAt.value < input.redisTime
  {
    var t := LatestExpiry(s.redis);
    var later: nat := if t >= s.clock then t else s.clock;
    input := Input(later, later, true);
  }

  lemma FreshRun(s: State) returns (r: RunId)
    ensures r !in s.runs
  {
    r := FreshNat(s.runs.Keys);
  }

  lemma {:induction false} FreshNat(used: set<nat>) returns (n: nat)
    ensures n !in used
    ensures forall i :: i in used ==> i < n
    decreases |used|
  {
    n := 0;
    if used != {} {
      var i :| i in used;
      n := FreshNat(used - {i});
      n := if i >= n then i + 1 else n;
      assert forall j :: j in used ==> j == i || j in used - {i};
    }
  }

  /** What one acceptance adds to a state. */
  ghost predicate Extends(s: State, s': State, id: JobId)
  {
    |s'.accepts| == |s.accepts| + 1 && s.accepts <= s'.accepts && s'.accepts[|s.accepts|].job == id
  }

  ghost predicate CanBeSent(policy: Policy, s: State, id: JobId)
  {
    exists s' :: Reaches(policy, s, s') && Extends(s, s', id)
  }

  lemma ReadyCanSend(policy: Policy, s: State, r: RunId)
    requires r in s.runs && s.runs[r].pc.ToSend? && s.runs[r].job in s.rows
    ensures CanBeSent(policy, s, s.runs[r].job)
  {
    var a := Work(r, Input(0, 0, true));
    var s' := Next(policy, s, a);
    ReachSelf(policy, s');
    ReachStep(policy, s, a, s');
    assert Extends(s, s', s.runs[r].job);
  }

  /** A step that accepts nothing leaves what can be sent afterwards possible before it. */
  lemma SilentStep(policy: Policy, s: State, a: Action, id: JobId)
    requires !Hazard(s, a) && Next(policy, s, a).accepts == s.accepts
    requires CanBeSent(policy, Next(policy, s, a), id)
    ensures CanBeSent(policy, s, id)
  {
    var s' :| Reaches(policy, Next(policy, s, a), s') && Extends(Next(policy, s, a), s', id);
    ReachStep(policy, s, a, s');
    assert Extends(s, s', id);
  }

  lemma ClaimedCanBeSent(policy: Policy, s: State, r: RunId)
    requires r in s.runs && s.runs[r].pc.ToCheckRate? && s.runs[r].job in s.rows
    requires AllExpire(s.redis) && policy.Cap(s.rows[s.runs[r].job].sender) >= 1
    ensures CanBeSent(policy, s, s.runs[r].job)
  {
    var input := LateInput(s);
    AllowedWhenAllExpired(policy, s.redis, LimiterCall(s, r, input));
    ReadyCanSend(policy, Next(policy, s, Work(r, input)), r);
    SilentStep(policy, s, Work(r, input), s.runs[r].job);
  }

  lemma ScheduledCanBeSent(policy: Policy, s: State, id: JobId)
    requires HasStatus(s.rows, id, Scheduled) && AllExpire(s.redis) && policy.Cap(s.rows[id].sender) >= 1
    ensures CanBeSent(policy, s, id)
  {
    var r := FreshRun(s);
    var a0, a1 := Start(r, id, 0, 1), Work(r, Input(0, 0, true));
    var s1 := Next(policy, s, a0);
    var s2 := Next(policy, s1, a1);
    var s3 := Next(policy, s2, a1);
    assert s3.runs[r].pc == ToCheckRate;
    ClaimedCanBeSent(policy, s3, r);
    SilentStep(policy, s2, a1, id);
    SilentStep(policy, s1, a1, id);
    SilentStep(policy, s, a0, id);
  }

  lemma SendableCanBeSent(policy: Policy, s: State, id: JobId)
    requires Inv(s) && Sendable(s, id) && AllExpire(s.redis)
    requires id in s.rows ==> policy.Cap(s.rows[id].sender) >= 1
    ensures CanBeSent(policy, s, id)
  {
    if HasStatus(s.rows, id, Scheduled) {
      ScheduledCanBeSent(policy, s, id);
    } else {
      var r :| Sender(s, r, id);
      assert RunOk(s, r);
      if s.runs[r].pc.ToSend? {
        ReadyCanSend(policy, s, r);
      } else if s.runs[r].pc.ToCheckRate? {
        ClaimedCanBeSent(policy, s, r);
      } else {
        var a := Work(r, Input(0, 0, true));
        assert HasStatus(Next(policy, s, a).rows, id, Scheduled);
        ScheduledCanBeSent(policy, Next(policy, s, a), id);
        SilentStep(policy, s, a, id);
      }
    }
  }

  // ---- The exact results ----------------------------------------------------------------------------

  /** States that a hazard-free run can bring about. */
  ghost predicate Reachable(policy: Policy, s: State)
  {
    Reaches(policy, EMPTY, s)
  }

  lemma ReachableIsSound(policy: Policy, s: State)
    requires Reachable(policy, s)
    ensures Inv(s) && AllExpire(s.redis)
  {
    var trace :| NoHazard(policy, EMPTY, trace) && Exec(policy, EMPTY, trace) == s;
    RunKeepsInv(policy, EMPTY, trace);
    RunKeepsExpiry(policy, EMPTY, trace);
  }

  /** A stored row can still be accepted by SMTP exactly when it is sendable. */
  lemma CanBeSentIffSendable(policy: Policy, s: State, id: JobId)
    requires Inv(s) && AllExpire(s.redis) && id in s.rows && policy.Cap(s.rows[id].sender) >= 1
    ensures CanBeSent(policy, s, id) <==> Sendable(s, id)
  {
    if Sendable(s, id) {
      SendableCanBeSent(policy, s, id);
    } else if CanBeSent(policy, s, id) {
      var s' :| Reaches(policy, s, s') && Extends(s, s', id);
      var trace :| NoHazard(policy, s, trace) && Exec(policy, s, trace) == s';
      RunCannotRevive(policy, s, trace, id);
      ExtendingIsNew(s, s', id);
      assert false;
    }
  }

  lemma ExtendingIsNew(s: State, s': State, id: JobId)
    requires Extends(s, s', id)
    ensures NewAcceptance(s, s', id)
  {
    assert s'.accepts[|s.accepts|].job == id;
  }

  ghost predicate DuplicateAhead(policy: Policy, s: State)
  {
    exists s' :: Reaches(policy, s, s') && !AcceptedOnce(s')
  }

  /**
   The hazard is the only way to a duplicate: after one more action a second acceptance of some row
   is possible without further hazards, if and only if that action was the hazard.
   */
  lemma HazardIsExact(policy: Policy, s: State, a: Action)
    requires Reachable(policy, s)
    requires forall id :: id in s.rows ==> policy.Cap(s.rows[id].sender) >= 1
    ensures DuplicateAhead(policy, Next(policy, s, a)) <==> Hazard(s, a)
  {
    ReachableIsSound(policy, s);
    var s1 := Next(policy, s, a);
    if Hazard(s, a) {
      HazardAllowsDuplicate(policy, s, a.run);
    } else if DuplicateAhead(policy, s1) {
      NextKeepsInv(policy, s, a);
      var s' :| Reaches(policy, s1, s') && !AcceptedOnce(s');
      var trace :| NoHazard(policy, s1, trace) && Exec(policy, s1, trace) == s';
      RunKeepsInv(policy, s1, trace);
      assert false;
    }
  }

  lemma HazardReleasesRow(policy: Policy, s: State, r: RunId)
    requires Inv(s) && AllExpire(s.redis) && Hazard(s, Throw(r))
    requires policy.Cap(s.rows[s.runs[r].job].sender) >= 1
    ensures CanBeSent(policy, Next(policy, s, Throw(r)), s.runs[r].job)
  {
    var id, s1 := s.runs[r].job, Next(policy, s, Throw(r));
    var a := Work(r, Input(0, 0, true));
    assert HasStatus(Next(policy, s1, a).rows, id, Scheduled);
    ScheduledCanBeSent(policy, Next(policy, s1, a), id);
    SilentStep(policy, s1, a, id);
  }

  lemma HazardAllowsDuplicate(policy: Policy, s: State, r: RunId)
    requires Inv(s) && AllExpire(s.redis) && Hazard(s, Throw(r))
    requires policy.Cap(s.rows[s.runs[r].job].sender) >= 1
    ensures DuplicateAhead(policy, Next(policy, s, Throw(r)))
  {
    var id, s1 := s.runs[r].job, Next(policy, s, Throw(r));
    assert RunOk(s, r) && Accepted(s, id);
    var i :| 0 <= i < |s.accepts| && s.accepts[i].job == id;
    HazardReleasesRow(policy, s, r);
    assert s1.accepts == s.accepts;
    hide Next, Reaches;
    var s' :| Reaches(policy, s1, s') && Extends(s1, s', id);
    assert s'.accepts[i] == s.accepts[i] && s'.accepts[|s.accepts|].job == id;
    assert !AcceptedOnce(s');
  }

  /**
   After a cancellation commits, a row of the campaign can still reach SMTP exactly when a run held
   it at that moment and may still send: the row was PROCESSING, or was failed as stale under a live run.
   */
  lemma AfterCancelOnlyHeldRowsAreSent(policy: Policy, s: State, caller: CallerId, id: JobId)
    requires Reachable(policy, s)
    requires caller in s.cancels && id in s.rows && s.rows[id].campaign == s.cancels[caller]
    requires policy.Cap(s.rows[id].sender) >= 1
    ensures CanBeSent(policy, Next(policy, s, CancelCommit(caller)), id) <==> exists r :: Sender(s, r, id)
    ensures CanBeSent(policy, Next(policy, s, CancelCommit(caller)), id) ==>
              HasStatus(s.rows, id, Processing) || HasStatus(s.rows, id, Failed)
  {
    ReachableIsSound(policy, s);
    var s1 := Next(policy, s, CancelCommit(caller));
    NextKeepsInv(policy, s, CancelCommit(caller));
    CanBeSentIffSendable(policy, s1, id);
    assert !HasStatus(s1.rows, id, Scheduled);
    forall r
      ensures Sender(s, r, id) <==> Sender(s1, r, id)
    {
      if r in s.runs {
        assert RunOk(s, r);
      }
    }
    if r :| Sender(s, r, id) {
      assert RunOk(s, r);
    }
  }

  lemma ReachableStep(policy: Policy, s: State, a: Action)
    requires Reachable(policy, s) && !Hazard(s, a)
    ensures Reachable(policy, Next(policy, s, a))
  {
    var trace :| NoHazard(policy, EMPTY, trace) && Exec(policy, EMPTY, trace) == s;
    AlongAppend(policy, EMPTY, trace, [a], (t: State, b: Action) => !Hazard(t, b));
    ExecAppend(policy, EMPTY, trace, [a]);
    assert [a][1..] == [] && Exec(policy, s, [a]) == Next(policy, s, a);
    assert Along(policy, s, [a], (t: State, b: Action) => !Hazard(t, b));
  }

  const ONE_ROW := Row(1, "s", 0, 0, Scheduled, None, 0, None)

  /**
   A cancellation does not only let PROCESSING rows through: here a slow worker's row was failed as
   stale before the cancellation commits, and the worker still sends it afterwards.
   */
  lemma FailedRowIsSentAfterCancel(policy: Policy)
    requires policy.Cap("s") >= 1
    ensures exists s, caller, id ::
              && Reachable(policy, s) && caller in s.cancels
              && id in s.rows && s.rows[id].campaign == s.cancels[caller]
              && HasStatus(s.rows, id, Failed)
              && CanBeSent(policy, Next(policy, s, CancelCommit(caller)), id)
  {
    var s := ClaimedState(policy, false);
    var s1 := Next(policy, s, FailStale(1));
    ReachableStep(policy, s, FailStale(1));
    assert HasStatus(s1.rows, 5, Failed);
    var s2 := Next(policy, s1, CancelLoad(0, 1));
    ReachableStep(policy, s1, CancelLoad(0, 1));
    assert 0 in s2.cancels && Sender(s2, 7, 5);
    AfterCancelOnlyHeldRowsAreSent(policy, s2, 0, 5);
  }

  /** A reachable state: run 7 has been started on row 5, the only row of campaign 1. */
  lemma StartedState(policy: Policy, last: bool) returns (s: State)
    ensures Reachable(policy, s)
    ensures s.rows == map[5 := ONE_ROW] && s.campaigns == map[1 := CampaignScheduled]
    ensures s.runs == map[7 := Run(5, last, ToLoad)] && s.cancels == map[]
    ensures s.redis == map[] && s.clock == 0 && s.allows == [] && s.accepts == []
  {
    ReachSelf(policy, EMPTY);
    var rows: Rows := map[5 := ONE_ROW];
    var create, start := Create(1, rows), Start(7, 5, 0, if last then 1 else 3);
    assert 5 in rows && CanCreate(EMPTY, 1, rows);
    var s1 := Next(policy, EMPTY, create);
    ReachableStep(policy, EMPTY, create);
    assert s1.rows == rows;
    s := Next(policy, s1, start);
    ReachableStep(policy, s1, start);
  }

  /** A reachable state: run 7 has claimed row 5, the only row of campaign 1. */
  lemma ClaimedState(policy: Policy, last: bool) returns (s: State)
    ensures Reachable(policy, s)
    ensures s.rows == map[5 := ONE_ROW.(status := Processing, startedAt := Some(0), attempts := 1)]
    ensures s.campaigns == map[1 := CampaignScheduled] && s.cancels == map[] && s.accepts == []
    ensures s.runs == map[7 := Run(5, last, ToCheckRate)] && s.redis == map[] && s.clock == 0
  {
    var s0 := StartedState(policy, last);
    var work := Work(7, Input(0, 0, true));
    var s1 := Next(policy, s0, work);
    ReachableStep(policy, s0, work);
    s := Next(policy, s1, work);
    ReachableStep(policy, s1, work);
  }

  lemma ReadyState(policy: Policy, last: bool) returns (s: State)
    requires policy.Cap("s") >= 1
    ensures Reachable(policy, s) && s.cancels == map[]
    ensures s.rows == map[5 := ONE_ROW.(status := Processing, startedAt := Some(0), attempts := 1)]
    ensures s.campaigns == map[1 := CampaignScheduled] && s.runs == map[7 := Run(5, last, ToSend(0))]
  {
    var s0 := ClaimedState(policy, last);
    var input := Input(0, 0, true);
    assert LimiterCall(s0, 7, input) == Call(7, "s", 0, 0);
    AllowedWhenAllExpired(policy, s0.redis, LimiterCall(s0, 7, input));
    s := Next(policy, s0, Work(7, input));
    ReachableStep(policy, s0, Work(7, input));
  }

  /** And one where SMTP has accepted the message and SENT is still to be written. */
  lemma AcceptedState(policy: Policy, last: bool) returns (s: State)
    requires policy.Cap("s") >= 1
    ensures Reachable(policy, s) && s.cancels == map[]
    ensures s.rows == map[5 := ONE_ROW.(status := Processing, startedAt := Some(0), attempts := 1)]
    ensures s.campaigns == map[1 := CampaignScheduled] && s.runs == map[7 := Run(5, last, ToMarkSent(0))]
  {
    var s0 := ReadyState(policy, last);
    var work := Work(7, Input(0, 0, true));
    s := Next(policy, s0, work);
    ReachableStep(policy, s0, work);
  }

  /** And one where the run has written SENT and is about to count. */
  lemma CountingState(policy: Policy, last: bool) returns (s: State)
    requires policy.Cap("s") >= 1
    ensures Reachable(policy, s) && s.cancels == map[]
    ensures s.rows.Keys == {5} && s.rows[5].campaign == 1 && s.rows[5].status == Sent
    ensures s.campaigns == map[1 := CampaignScheduled] && s.runs == map[7 := Run(5, last, ToCountPending(true))]
  {
    var s0 := AcceptedState(policy, last);
    var work := Work(7, Input(0, 0, true));
    s := Next(policy, s0, work);
    ReachableStep(policy, s0, work);
  }

  /** Without the assumption there is a run in which one row is accepted twice. */
  lemma LateThrowSendsTwice(policy: Policy)
    requires policy.Cap("s") >= 1
    ensures exists trace :: !AcceptedOnce(Exec(policy, EMPTY, trace))
  {
    var s := AcceptedState(policy, false);
    HazardIsExact(policy, s, Throw(7));
    var first :| NoHazard(policy, EMPTY, first) && Exec(policy, EMPTY, first) == s;
    var s1 := Next(policy, s, Throw(7));
    var s' :| Reaches(policy, s1, s') && !AcceptedOnce(s');
    var rest :| NoHazard(policy, s1, rest) && Exec(policy, s1, rest) == s';
    ExecAppend(policy, EMPTY, first, [Throw(7)] + rest);
    assert ([Throw(7)] + rest)[0] == Throw(7) && ([Throw(7)] + rest)[1..] == rest;
    assert Exec(policy, EMPTY, first + ([Throw(7)] + rest)) == s';
  }
}
