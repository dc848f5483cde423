/**
 The job ledger as a concurrent protocol.

 Any number of worker runs, cancellations and reconciler passes act on shared rows.  One action is
 one database statement, one transaction, one Lua script or one SMTP conversation of one actor, and
 actions of different actors may interleave in any order.  A worker run can start at any time on any
 job id, so duplicate deliveries, stalled re-runs and retries are all covered, whatever the queue
 holds.  A run can crash, or its next statement can throw, at every point.

 Worker runs follow `processEmailJob` and `maybeFinalizeCampaign` (backend/src/queue/emailProcessor.ts).
 An action that is not possible in a state leaves the state unchanged.
 */
module Ledger {
  import opened LimiterTheory
  import opened RateLimiter
  import opened Schema

  type RunId = nat
  type CallerId = nat

  datatype SkipReason = RowMissing | WasCancelled | AlreadySent | NotClaimed
  datatype Outcome = SentOutcome | FailedOutcome | SkippedOutcome(reason: SkipReason) | DeferredOutcome | ThrewOutcome

  /**
   What a run does next; `sent` records that the run has written SENT and is still in its `try`.  A run
   that has written its last statement still has to return: a throw there is a write that commits and
   then reports an error, as for every other statement a throw after its `Work`.
   */
  datatype Pc =
    | ToLoad
    | ToClaim
    | ToCheckRate
    | ToReleaseDenied
    | ToSend(decidedAt: nat)
    | ToMarkSent(decidedAt: nat)
    | ToHandleFailure(sent: bool)
    | ToCountPending(sent: bool)
    | ToMarkProcessing(sent: bool)
    | ToCountFailed(sent: bool)
    | ToWriteCampaign(sent: bool, verdict: CampaignStatus)
    | ToReturn(sent: bool)
    | Done(outcome: Outcome)

  datatype Run = Run(job: JobId, isLastAttempt: bool, pc: Pc)

  /** An SMTP acceptance, with the instant of the limiter decision that permitted it. */
  datatype Accept = Accept(run: RunId, job: JobId, sender: string, decidedAt: nat)

  datatype State = State(
    rows: Rows,
    campaigns: Campaigns,
    runs: map<RunId, Run>,
    cancels: map<CallerId, CampaignId>,
    redis: Redis.Keys,
    clock: int,
    allows: seq<Allow>,
    accepts: seq<Accept>)

  const EMPTY := State(map[], map[], map[], map[], map[], 0, [], [])

  /** Clock readings and the SMTP server's answer, for the one step that uses each. */
  datatype Input = Input(now: nat, redisTime: int, smtpAccepts: bool)

  datatype Action =
    | Create(campaign: CampaignId, newRows: Rows)
    | Start(run: RunId, job: JobId, attemptsMade: nat, attempts: nat)
    | Work(run: RunId, input: Input)
    | Throw(run: RunId)
    | Crash(run: RunId)
    | FailStale(cutoff: int)
    | CancelLoad(caller: CallerId, campaign: CampaignId)
    | CancelCommit(caller: CallerId)

  // ---- Worker steps -----------------------------------------------------------------------------

  function SetPc(s: State, r: RunId, pc: Pc): State
    requires r in s.runs
  {
    s.(runs := s.runs[r := s.runs[r].(pc := pc)])
  }

  /** Gate 1. */
  function Load(s: State, r: RunId): State
    requires r in s.runs
  {
    var job := s.runs[r].job;
    SetPc(s, r, if job !in s.rows then Done(SkippedOutcome(RowMissing))
                else if s.rows[job].status == Cancelled then Done(SkippedOutcome(WasCancelled))
                else if s.rows[job].status == Sent then Done(SkippedOutcome(AlreadySent))
                else ToClaim)
  }

  /** Gate 2. */
  function Claim(s: State, r: RunId, now: nat): State
    requires r in s.runs
  {
    var job := s.runs[r].job;
    var won := HasStatus(s.rows, job, Scheduled);
    SetPc(s.(rows := Claimed(s.rows, job, now)), r, if won then ToCheckRate else Done(SkippedOutcome(NotClaimed)))
  }

  function LimiterCall(s: State, r: RunId, input: Input): Call
    requires r in s.runs && s.runs[r].job in s.rows
  {
    Call(r, s.rows[s.runs[r].job].sender, input.now, input.redisTime)
  }

  /** Gate 3: the script runs at Redis's own time, which never goes back. */
  function CheckRate(policy: Policy, s: State, r: RunId, input: Input): State
    requires r in s.runs
  {
    if s.runs[r].job !in s.rows || input.redisTime < s.clock then s
    else
      var call := LimiterCall(s, r, input);
      var (keys, decision) := Check(policy, s.redis, call);
      SetPc(s.(redis := keys, clock := input.redisTime, allows := Record(policy, s.redis, s.allows, call)),
            r, if decision.allowed then ToSend(input.now) else ToReleaseDenied)
  }

  /** Gate 4: the SMTP conversation. */
  function Send(s: State, r: RunId, decidedAt: nat, accepted: bool): State
    requires r in s.runs
  {
    var job := s.runs[r].job;
    if job !in s.rows then s
    else if accepted then
      SetPc(s.(accepts := s.accepts + [Accept(r, job, s.rows[job].sender, decidedAt)]), r, ToMarkSent(decidedAt))
    else SetPc(s, r, ToHandleFailure(false))
  }

  /** The `catch` block: release the row for a retry, or record the failure. */
  function HandleFailure(s: State, r: RunId): State
    requires r in s.runs
  {
    var job := s.runs[r].job;
    if job !in s.rows then s
    else if !s.runs[r].isLastAttempt then SetPc(s.(rows := Released(s.rows, job)), r, Done(ThrewOutcome))
    else SetPc(s.(rows := MarkedFailed(s.rows, job)), r, ToCountPending(false))
  }

  function OutcomeOf(sent: bool): Outcome
  {
    if sent then SentOutcome else FailedOutcome
  }

  function CampaignOf(s: State, r: RunId): CampaignId
    requires r in s.runs && s.runs[r].job in s.rows
  {
    s.rows[s.runs[r].job].campaign
  }

  /** One statement of `maybeFinalizeCampaign`. */
  function Finalize(s: State, r: RunId): State
    requires r in s.runs
  {
    if s.runs[r].job !in s.rows then s
    else
      var c := CampaignOf(s, r);
      match s.runs[r].pc
      case ToCountPending(sent) =>
        SetPc(s, r, if PendingIds(s.rows, c) != {} then ToMarkProcessing(sent) else ToCountFailed(sent))
      case ToMarkProcessing(sent) =>
        var waiting := c in s.campaigns && s.campaigns[c] == CampaignScheduled;
        SetPc(if waiting then s.(campaigns := s.campaigns[c := CampaignProcessing]) else s, r, ToReturn(sent))
      case ToCountFailed(sent) =>
        SetPc(s, r, ToWriteCampaign(sent, if FailedIds(s.rows, c) != {} then PartiallyFailed else Completed))
      case ToWriteCampaign(sent, verdict) =>
        SetPc(s.(campaigns := s.campaigns[c := verdict]), r, ToReturn(sent))
      case _ => s
  }

  function WorkStep(policy: Policy, s: State, r: RunId, input: Input): State
    requires r in s.runs
  {
    match s.runs[r].pc
    case ToLoad => Load(s, r)
    case ToClaim => Claim(s, r, input.now)
    case ToCheckRate => CheckRate(policy, s, r, input)
    case ToReleaseDenied => SetPc(s.(rows := Released(s.rows, s.runs[r].job)), r, Done(DeferredOutcome))
    case ToSend(decidedAt) => Send(s, r, decidedAt, input.smtpAccepts)
    case ToMarkSent(_) =>
      if s.runs[r].job in s.rows
      then SetPc(s.(rows := MarkedSent(s.rows, s.runs[r].job, input.now)), r, ToCountPending(true)) else s
    case ToHandleFailure(_) => HandleFailure(s, r)
    case ToReturn(sent) => SetPc(s, r, Done(OutcomeOf(sent)))
    case Done(_) => s
    case _ => Finalize(s, r)
  }

  /** Where a throw from the run's next statement leads: into the `catch` block, or out of the run. */
  function ThrowTarget(pc: Pc): Pc
  {
    match pc
    case ToSend(_) => ToHandleFailure(false)
    case ToMarkSent(_) => ToHandleFailure(false)
    case ToCountPending(true) => ToHandleFailure(true)
    case ToMarkProcessing(true) => ToHandleFailure(true)
    case ToCountFailed(true) => ToHandleFailure(true)
    case ToWriteCampaign(true, _) => ToHandleFailure(true)
    case ToReturn(true) => ToHandleFailure(true)
    case Done(o) => Done(o)
    case _ => Done(ThrewOutcome)
  }

  // ---- All actions --------------------------------------------------------------------------------

  predicate IsNew(row: Row)
  {
    row.status == Scheduled && row.startedAt.None? && row.attempts == 0 && row.sentAt.None?
  }

  /** A transaction that adds a campaign and its SCHEDULED rows, numbered apart, under fresh ids. */
  predicate CanCreate(s: State, campaign: CampaignId, newRows: Rows)
  {
    && campaign !in s.campaigns
    && newRows != map[]
    && newRows.Keys !! s.rows.Keys
    && (forall id :: id in newRows ==> newRows[id].campaign == campaign && IsNew(newRows[id]))
    && DistinctPositions(newRows, campaign)
  }

  function Next(policy: Policy, s: State, a: Action): State
  {
    match a
    case Create(campaign, newRows) =>
      if CanCreate(s, campaign, newRows)
      then s.(rows := s.rows + newRows, campaigns := s.campaigns[campaign := CampaignScheduled]) else s
    case Start(r, job, attemptsMade, attempts) =>
      if r in s.runs then s else s.(runs := s.runs[r := Run(job, attemptsMade + 1 >= attempts, ToLoad)])
    case Work(r, input) => if r in s.runs then WorkStep(policy, s, r, input) else s
    case Throw(r) => if r in s.runs then SetPc(s, r, ThrowTarget(s.runs[r].pc)) else s
    case Crash(r) => if r in s.runs && !s.runs[r].pc.Done? then SetPc(s, r, Done(ThrewOutcome)) else s
    case FailStale(cutoff) => s.(rows := StaleFailed(s.rows, cutoff))
    case CancelLoad(caller, campaign) =>
      if caller !in s.cancels && campaign in s.campaigns && !Finished(s.campaigns[campaign])
      then s.(cancels := s.cancels[caller := campaign]) else s
    case CancelCommit(caller) =>
      if caller in s.cancels
      then
        var c := s.cancels[caller];
        s.(rows := ScheduledCancelled(s.rows, c), campaigns := s.campaigns[c := CampaignCancelled],
           cancels := s.cancels - {caller})
      else s
  }

  ghost function Exec(policy: Policy, s: State, trace: seq<Action>): State
    decreases |trace|
  {
    if trace == [] then s else Exec(policy, Next(policy, s, trace[0]), trace[1..])
  }

  /** The action commits a cancellation of campaign `c`. */
  predicate Cancels(s: State, a: Action, c: CampaignId)
  {
    a.CancelCommit? && a.caller in s.cancels && s.cancels[a.caller] == c
  }

  /** Every step of the trace satisfies `ok` in the state it is taken from. */
  ghost predicate Along(policy: Policy, s: State, trace: seq<Action>, ok: (State, Action) -> bool)
    decreases |trace|
  {
    trace == [] || (ok(s, trace[0]) && Along(policy, Next(policy, s, trace[0]), trace[1..], ok))
  }

  // ---- What a worker statement may do ---------------------------------------------------------------

  /** Where a run may go from one statement to the next. */
  predicate Follows(from: Pc, to: Pc)
  {
    from == to ||
    match from
    case ToLoad => to == ToClaim || (to.Done? && to.outcome.SkippedOutcome?)
    case ToClaim => to == ToCheckRate || to == Done(SkippedOutcome(NotClaimed))
    case ToCheckRate => to.ToSend? || to == ToReleaseDenied
    case ToReleaseDenied => to == Done(DeferredOutcome)
    case ToSend(decidedAt) => to == ToMarkSent(decidedAt) || to == ToHandleFailure(false)
    case ToMarkSent(_) => to == ToCountPending(true)
    case ToHandleFailure(_) => to == ToCountPending(false) || to == Done(ThrewOutcome)
    case ToCountPending(sent) => to == ToMarkProcessing(sent) || to == ToCountFailed(sent)
    case ToCountFailed(sent) => to == ToWriteCampaign(sent, PartiallyFailed) || to == ToWriteCampaign(sent, Completed)
    case ToMarkProcessing(sent) => to == ToReturn(sent)
    case ToWriteCampaign(sent, _) => to == ToReturn(sent)
    case ToReturn(sent) => to == Done(OutcomeOf(sent))
    case Done(_) => false
  }

  /** The table after the next statement of run `r`: only its own row can change. */
  function RowsAfter(s: State, r: RunId, now: nat): Rows
    requires r in s.runs
  {
    var job := s.runs[r].job;
    match s.runs[r].pc
    case ToClaim => Claimed(s.rows, job, now)
    case ToReleaseDenied => Released(s.rows, job)
    case ToMarkSent(_) => if job in s.rows then MarkedSent(s.rows, job, now) else s.rows
    case ToHandleFailure(_) =>
      if job !in s.rows then s.rows
      else if s.runs[r].isLastAttempt then MarkedFailed(s.rows, job) else Released(s.rows, job)
    case _ => s.rows
  }

  /** A worker statement moves its own run along and no other run, and writes at most its own row. */
  ghost predicate WorkEffect(s: State, r: RunId, now: nat, s': State)
    requires r in s.runs
  {
    && r in s'.runs
    && s'.runs == s.runs[r := s.runs[r].(pc := s'.runs[r].pc)]
    && Follows(s.runs[r].pc, s'.runs[r].pc)
    && (s.runs[r].pc == ToClaim && s'.runs[r].pc == ToCheckRate ==> HasStatus(s.rows, s.runs[r].job, Scheduled))
    && (s.runs[r].pc == ToLoad && s'.runs[r].pc == ToClaim ==> s.runs[r].job in s.rows)
    && (s.runs[r].pc.ToHandleFailure? && s'.runs[r].pc.ToCountPending? ==> s.runs[r].isLastAttempt)
    && s'.rows == RowsAfter(s, r, now)
    && CampaignEffect(s, r, s')
    && (s.runs[r].pc != ToCheckRate ==> s'.redis == s.redis && s'.clock == s.clock && s'.allows == s.allows)
    && (s'.accepts == s.accepts || (Accepts(s, r, s') && s'.runs[r].pc.ToMarkSent?))
    && s'.cancels == s.cancels
  }

  /** A run writes its own campaign only: the PROCESSING mark, or its verdict. */
  ghost predicate CampaignEffect(s: State, r: RunId, s': State)
    requires r in s.runs
  {
    || s'.campaigns == s.campaigns
    || (s.runs[r].job in s.rows
        && var c := CampaignOf(s, r);
           || (s.runs[r].pc.ToMarkProcessing? && c in s.campaigns && s.campaigns[c] == CampaignScheduled
               && s'.campaigns == s.campaigns[c := CampaignProcessing])
           || (s.runs[r].pc.ToWriteCampaign? && s'.campaigns == s.campaigns[c := s.runs[r].pc.verdict]))
  }

  /** The SMTP server accepts the row of run `r`, which is at its send. */
  ghost predicate Accepts(s: State, r: RunId, s': State)
    requires r in s.runs
  {
    && s.runs[r].pc.ToSend?
    && s.runs[r].job in s.rows
    && s'.accepts == s.accepts + [Accept(r, s.runs[r].job, s.rows[s.runs[r].job].sender, s.runs[r].pc.decidedAt)]
  }

  lemma GateEffect(s: State, r: RunId, now: nat)
    requires r in s.runs
    ensures s.runs[r].pc == ToLoad ==> WorkEffect(s, r, now, Load(s, r))
    ensures s.runs[r].pc == ToClaim ==> WorkEffect(s, r, now, Claim(s, r, now))
  {
  }

  lemma CheckRateEffect(policy: Policy, s: State, r: RunId, input: Input)
    requires r in s.runs && s.runs[r].pc == ToCheckRate
    ensures WorkEffect(s, r, input.now, CheckRate(policy, s, r, input))
  {
  }

  lemma SendEffect(s: State, r: RunId, decidedAt: nat, accepted: bool, now: nat)
    requires r in s.runs && s.runs[r].pc == ToSend(decidedAt)
    ensures WorkEffect(s, r, now, Send(s, r, decidedAt, accepted))
  {
  }

  lemma HandleFailureEffect(s: State, r: RunId, now: nat)
    requires r in s.runs && s.runs[r].pc.ToHandleFailure?
    ensures WorkEffect(s, r, now, HandleFailure(s, r))
  {
  }

  /** A statement of `maybeFinalizeCampaign` moves the run along and may write its campaign's status. */
  lemma FinalizeIsMove(s: State, r: RunId)
    requires r in s.runs
    requires s.runs[r].pc.ToCountPending? || s.runs[r].pc.ToMarkProcessing? || s.runs[r].pc.ToCountFailed?
          || s.runs[r].pc.ToWriteCampaign?
    ensures r in Finalize(s, r).runs
    ensures Finalize(s, r) == SetPc(s.(campaigns := Finalize(s, r).campaigns), r, Finalize(s, r).runs[r].pc)
    ensures Follows(s.runs[r].pc, Finalize(s, r).runs[r].pc) && CampaignEffect(s, r, Finalize(s, r))
  {
    hide PendingIds, FailedIds;
    match s.runs[r].pc {
      case ToCountPending(_) =>
      case ToMarkProcessing(_) =>
      case ToCountFailed(_) =>
      case ToWriteCampaign(_, _) =>
    }
    if s.runs[r].job !in s.rows {
      assert SetPc(s.(campaigns := s.campaigns), r, s.runs[r].pc).runs == s.runs;
    }
  }

  lemma FinalizeEffect(s: State, r: RunId, now: nat)
    requires r in s.runs
    requires s.runs[r].pc.ToCountPending? || s.runs[r].pc.ToMarkProcessing? || s.runs[r].pc.ToCountFailed?
          || s.runs[r].pc.ToWriteCampaign?
    ensures WorkEffect(s, r, now, Finalize(s, r))
  {
    hide Finalize, CampaignEffect;
    FinalizeIsMove(s, r);
  }

  lemma OwnRowEffect(policy: Policy, s: State, r: RunId, input: Input)
    requires r in s.runs && (s.runs[r].pc.ToReleaseDenied? || s.runs[r].pc.ToMarkSent?)
    ensures WorkEffect(s, r, input.now, WorkStep(policy, s, r, input))
  {
  }

  lemma LastEffect(policy: Policy, s: State, r: RunId, input: Input)
    requires r in s.runs && (s.runs[r].pc.ToReturn? || s.runs[r].pc.Done?)
    ensures WorkEffect(s, r, input.now, WorkStep(policy, s, r, input))
  {
  }

  lemma WorkHasEffect(policy: Policy, s: State, r: RunId, input: Input)
    requires r in s.runs
    ensures WorkEffect(s, r, input.now, WorkStep(policy, s, r, input))
  {
    hide Load, Claim, CheckRate, Send, HandleFailure, Finalize, WorkEffect;
    match s.runs[r].pc {
      case ToLoad => GateEffect(s, r, input.now);
      case ToClaim => GateEffect(s, r, input.now);
      case ToCheckRate => CheckRateEffect(policy, s, r, input);
      case ToReleaseDenied => OwnRowEffect(policy, s, r, input);
      case ToSend(decidedAt) => SendEffect(s, r, decidedAt, input.smtpAccepts, input.now);
      case ToMarkSent(_) => OwnRowEffect(policy, s, r, input);
      case ToHandleFailure(_) => HandleFailureEffect(s, r, input.now);
      case ToReturn(_) => LastEffect(policy, s, r, input);
      case Done(_) => LastEffect(policy, s, r, input);
      case _ => FinalizeEffect(s, r, input.now);
    }
  }

  // ---- What any action may do to a run ----------------------------------------------------------------

  /** How an action may move run `r`: only its own statement, throw or crash moves it at all. */
  predicate Moves(a: Action, r: RunId, from: Pc, to: Pc)
  {
    match a
    case Work(run, _) => if run == r then Follows(from, to) else to == from
    case Throw(run) => if run == r then to == ThrowTarget(from) else to == from
    case Crash(run) => if run == r then to == (if from.Done? then from else Done(ThrewOutcome)) else to == from
    case _ => to == from
  }

  lemma NextOnRun(policy: Policy, s: State, a: Action, r: RunId)
    requires r in s.runs
    ensures var s' := Next(policy, s, a);
            r in s'.runs && s'.runs[r] == s.runs[r].(pc := s'.runs[r].pc) && Moves(a, r, s.runs[r].pc, s'.runs[r].pc)
  {
    hide WorkStep;
    if a.Work? && a.run in s.runs {
      WorkHasEffect(policy, s, a.run, a.input);
    }
  }

  lemma NewRunIsNew(policy: Policy, s: State, a: Action, r: RunId)
    requires r !in s.runs && r in Next(policy, s, a).runs
    ensures Next(policy, s, a).runs[r].pc == ToLoad
  {
    hide WorkStep;
    if a.Work? && a.run in s.runs {
      WorkHasEffect(policy, s, a.run, a.input);
    }
  }

  lemma {:induction false} ExecAppend(policy: Policy, s: State, t: seq<Action>, u: seq<Action>)
    ensures Exec(policy, s, t + u) == Exec(policy, Exec(policy, s, t), u)
    decreases |t|
  {
    if t == [] {
      assert t + u == u;
    } else {
      assert (t + u)[0] == t[0] && (t + u)[1..] == t[1..] + u;
      ExecAppend(policy, Next(policy, s, t[0]), t[1..], u);
    }
  }

  lemma ExecOneMore(policy: Policy, s: State, trace: seq<Action>, a: Action)
    ensures Exec(policy, s, trace + [a]) == Next(policy, Exec(policy, s, trace), a)
  {
    ExecAppend(policy, s, trace, [a]);
    assert [a][1..] == [];
    assert Exec(policy, Exec(policy, s, trace), [a]) == Next(policy, Exec(policy, s, trace), a);
  }

  lemma {:induction false} AlongAppend(policy: Policy, s: State, t: seq<Action>, u: seq<Action>,
                                       ok: (State, Action) -> bool)
    ensures Along(policy, s, t + u, ok) <==> Along(policy, s, t, ok) && Along(policy, Exec(policy, s, t), u, ok)
    decreases |t|
  {
    if t == [] {
      assert t + u == u;
    } else {
      assert (t + u)[0] == t[0] && (t + u)[1..] == t[1..] + u;
      AlongAppend(policy, Next(policy, s, t[0]), t[1..], u, ok);
    }
  }
}
