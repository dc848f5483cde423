/**
 The worker as it runs (backend/src/queue/emailProcessor.ts): `ProcessEmailJob` executes its
 statements one by one against the shared stores, and between any two of them other actors may take
 any number of steps of any kind.  Every statement may throw, or be the one its worker dies at.  Every
 execution is a run of the ledger protocol.
 */
module EmailProcessor {
  import opened Ledger
  import opened LedgerAnswers
  import opened LedgerCalls
  import opened LedgerLimits
  import opened LedgerOutcomes
  import opened LedgerRows
  import opened LedgerSafety
  import opened LimiterTheory
  import opened RateLimiter
  import opened Schema
  import opened Wrappers

  predicate Mentions(a: Action, r: RunId)
  {
    match a
    case Start(run, _, _, _) => run == r
    case Work(run, _) => run == r
    case Throw(run) => run == r
    case Crash(run) => run == r
    case _ => false
  }

  /** The statements of a run. */
  datatype Point =
    | AtLoad | AtClaim | AtCheck | AtRelease | AtSend | AtRecord | AtCount | AtClassify | AtClose | AtReturn | AtCatch

  /** Where a run's statements throw, and where its worker dies. */
  datatype Faults = Faults(throws: set<Point>, deaths: set<Point>)
  {
    predicate None()
    {
      throws == {} && deaths == {}
    }
  }

  /**
   What one run meets: clock readings, the SMTP answer, and faults, those of the `catch` block apart.  An
   SMTP call that throws has not been accepted.
   */
  datatype Io = Io(claimedAt: nat, checkedAt: nat, redisTime: int, smtpAccepts: bool, sentAt: nat,
                   faults: Faults, catchFaults: Faults)
  {
    predicate Accepts()
    {
      smtpAccepts && AtSend !in faults.throws && AtSend !in faults.deaths
    }
  }

  /** What the other actors do before each statement of `maybeFinalizeCampaign` and the return after it. */
  datatype Gaps = Gaps(
    beforeCount: seq<Action>, beforeClassify: seq<Action>, beforeClose: seq<Action>, beforeReturn: seq<Action>)
  {
    ghost predicate Spares(me: RunId)
    {
      && NoneMentions(beforeCount, me) && NoneMentions(beforeClassify, me)
      && NoneMentions(beforeClose, me) && NoneMentions(beforeReturn, me)
    }
  }

  /** What they do before each of a run's statements, in the `try` block and in the `catch` block. */
  datatype Schedule = Schedule(
    beforeLoad: seq<Action>, beforeClaim: seq<Action>, beforeCheck: seq<Action>, beforeRelease: seq<Action>,
    beforeSend: seq<Action>, beforeRecord: seq<Action>, inTry: Gaps, beforeCatch: seq<Action>, inCatch: Gaps)
  {
    ghost predicate Spares(me: RunId)
    {
      && NoneMentions(beforeLoad, me) && NoneMentions(beforeClaim, me) && NoneMentions(beforeCheck, me)
      && NoneMentions(beforeRelease, me) && NoneMentions(beforeSend, me) && NoneMentions(beforeRecord, me)
      && NoneMentions(beforeCatch, me) && inTry.Spares(me) && inCatch.Spares(me)
    }
  }

  ghost predicate NoneMentions(actions: seq<Action>, me: RunId)
  {
    forall i :: 0 <= i < |actions| ==> !Mentions(actions[i], me)
  }

  /** True of every state that any run of the protocol brings about. */
  ghost predicate Sound(s: State)
  {
    LiveRunsHaveRows(s) && AcceptsAreByRuns(s)
  }

  lemma {:induction false} RunKeepsSound(policy: Policy, s: State, trace: seq<Action>)
    requires Sound(s)
    ensures Sound(Exec(policy, s, trace))
    decreases |trace|
  {
    if trace != [] {
      NextKeepsCallers(policy, s, trace[0]);
      RunKeepsSound(policy, Next(policy, s, trace[0]), trace[1..]);
    }
  }

  /** One delivery of a queue job. */
  datatype Delivery = Delivery(me: RunId, job: JobId, attemptsMade: nat, attempts: nat)
  {
    function StartAction(): Action
    {
      Start(me, job, attemptsMade, attempts)
    }

    function NewRun(): Run
    {
      Run(job, attemptsMade + 1 >= attempts, ToLoad)
    }
  }

  /** A statement of a run, a throw from one, or the death of its worker. */
  predicate IsOwn(a: Action)
  {
    a.Work? || a.Throw? || a.Crash?
  }

  /** The run's own part of a trace: its start, then its statements. */
  ghost predicate OwnPart(trace: seq<Action>, d: Delivery)
  {
    && trace != [] && trace[0] == d.StartAction()
    && forall i :: 1 <= i < |trace| && Mentions(trace[i], d.me) ==> IsOwn(trace[i])
  }

  /** What a run has done so far: whether its message was accepted, and what it has stamped on its row. */
  datatype Past = Past(accepted: bool, claimedAt: Option<nat>, sentAt: Option<nat>)

  const NOTHING := Past(false, None, None)

  /** The run's past after one more action, of anybody. */
  ghost function PastAfter(policy: Policy, s: State, a: Action, d: Delivery, past: Past): Past
  {
    if a.Work? && a.run == d.me && d.me in s.runs && d.me in Next(policy, s, a).runs then
      match Next(policy, s, a).runs[d.me].pc
      case ToCheckRate => if s.runs[d.me].pc.ToClaim? then past.(claimedAt := Some(a.input.now)) else past
      case ToMarkSent(_) => if s.runs[d.me].pc.ToSend? then past.(accepted := true) else past
      case ToCountPending(true) => if s.runs[d.me].pc.ToMarkSent? then past.(sentAt := Some(a.input.now)) else past
      case _ => past
    else past
  }

  /** The row carries the stamps of the run: its claim, unless the row is SCHEDULED again, and its sending. */
  ghost predicate Stamps(rows: Rows, id: JobId, past: Past)
  {
    && (past.claimedAt.Some? ==> id in rows && (rows[id].status == Scheduled || rows[id].startedAt == past.claimedAt))
    && (past.sentAt.Some? ==> id in rows && rows[id].sentAt == past.sentAt)
  }

  /** Some run of the protocol, of which `d`'s part is its start and its statements, leads from `start` to `s`. */
  ghost predicate LeadsBy(policy: Policy, start: State, trace: seq<Action>, s: State, d: Delivery, past: Past)
  {
    && OwnPart(trace, d) && Exec(policy, start, trace) == s
    && (SureInv(start) && NoHazard(policy, start, trace) ==> SureInv(s) && Stamps(s.rows, d.job, past))
  }

  ghost predicate Leads(policy: Policy, start: State, s: State, d: Delivery, past: Past)
  {
    exists trace :: LeadsBy(policy, start, trace, s, d, past)
  }

  ghost predicate OnTrack(policy: Policy, start: State, s: State, d: Delivery, past: Past)
  {
    && LiveRunsHaveRows(s)
    && Leads(policy, start, s, d, past)
    && d.me in s.runs
    && s.runs[d.me] == d.NewRun().(pc := s.runs[d.me].pc)
    && (AcceptedFor(s, d.me, d.job) <==> past.accepted)
    && (past.claimedAt.Some? ==> !s.runs[d.me].pc.ToLoad? && !s.runs[d.me].pc.ToClaim?)
  }

  /** A live run that has claimed its row finds it not SCHEDULED. */
  lemma ClaimedIsNotScheduled(s: State, r: RunId)
    requires SureInv(s) && r in s.runs && Live(s.runs[r].pc) && !s.runs[r].pc.ToClaim?
    ensures s.runs[r].job in s.rows && s.rows[s.runs[r].job].status != Scheduled
  {
    hide Accepted, AcceptedFor, HeldBySomeone;
    RunIsSure(s, r);
    assert Holds(s.runs[r].pc) || WroteSent(s.runs[r].pc) || FailedForGood(s.runs[r].pc);
    hide SureInv, Inv;
  }

  lemma OwnClaimStamps(policy: Policy, s: State, r: RunId, input: Input)
    requires r in s.runs && s.runs[r].pc.ToClaim? && r in WorkStep(policy, s, r, input).runs
    requires WorkStep(policy, s, r, input).runs[r].pc == ToCheckRate
    ensures HasStatus(s.rows, s.runs[r].job, Scheduled)
    ensures HasStatus(WorkStep(policy, s, r, input).rows, s.runs[r].job, Processing)
  {
    hide WorkStep;
    WorkHasEffect(policy, s, r, input);
  }

  lemma OwnSentStamps(policy: Policy, s: State, r: RunId, input: Input)
    requires r in s.runs && s.runs[r].job in s.rows && r in WorkStep(policy, s, r, input).runs
    requires WorkStep(policy, s, r, input).runs[r].pc == ToCountPending(true) != s.runs[r].pc
    ensures s.runs[r].job in WorkStep(policy, s, r, input).rows
    ensures WorkStep(policy, s, r, input).rows[s.runs[r].job].sentAt == Some(input.now)
  {
    hide WorkStep;
    WorkHasEffect(policy, s, r, input);
  }

  lemma StampsStay(policy: Policy, s: State, a: Action, d: Delivery, past: Past)
    requires SureInv(s) && Stamps(s.rows, d.job, past)
    requires past.claimedAt.Some? ==> s.rows[d.job].status != Scheduled
    ensures Stamps(Next(policy, s, a).rows, d.job, past)
  {
    hide Next, SureInv;
    if d.job in s.rows {
      StepOnRow(policy, s, a, d.job);
      ClaimStep(policy, s, a, d.job);
    }
  }

  lemma StampsStep(policy: Policy, s: State, a: Action, d: Delivery, past: Past)
    requires SureInv(s) && Stamps(s.rows, d.job, past) && d.me in s.runs && s.runs[d.me].job == d.job
    requires !s.runs[d.me].pc.Done? && (past.claimedAt.Some? ==> !s.runs[d.me].pc.ToLoad? && !s.runs[d.me].pc.ToClaim?)
    ensures Stamps(Next(policy, s, a).rows, d.job, PastAfter(policy, s, a, d, past))
  {
    hide WorkStep, SureInv;
    if past.claimedAt.Some? {
      ClaimedIsNotScheduled(s, d.me);
    }
    StampsStay(policy, s, a, d, past);
    var past' := PastAfter(policy, s, a, d, past);
    if past'.claimedAt != past.claimedAt {
      OwnClaimStamps(policy, s, d.me, a.input);
      ClaimStep(policy, s, a, d.job);
    }
    if past'.sentAt != past.sentAt {
      RunIsSure(s, d.me);
      OwnSentStamps(policy, s, d.me, a.input);
    }
  }

  lemma LeadsOn(policy: Policy, start: State, s: State, d: Delivery, past: Past, a: Action)
    requires OnTrack(policy, start, s, d, past) && !s.runs[d.me].pc.Done? && (Mentions(a, d.me) ==> IsOwn(a))
    ensures Leads(policy, start, Next(policy, s, a), d, PastAfter(policy, s, a, d, past))
  {
    hide Next, Stamps, SureInv, PastAfter, AcceptedFor;
    var trace :| LeadsBy(policy, start, trace, s, d, past);
    ExecOneMore(policy, start, trace, a);
    assert OwnPart(trace + [a], d);
    if SureInv(start) && NoHazard(policy, start, trace + [a]) {
      NoHazardSoFar(policy, start, trace, a);
      NextKeepsSure(policy, s, a);
      StampsStep(policy, s, a, d, past);
    }
    assert LeadsBy(policy, start, trace + [a], Next(policy, s, a), d, PastAfter(policy, s, a, d, past));
  }

  lemma NoHazardSoFar(policy: Policy, start: State, trace: seq<Action>, a: Action)
    requires NoHazard(policy, start, trace + [a])
    ensures NoHazard(policy, start, trace) && !Hazard(Exec(policy, start, trace), a)
  {
    AlongAppend(policy, start, trace, [a], (t: State, b: Action) => !Hazard(t, b));
    hide Next;
  }

  /** An action of anybody: only the run's own statements add to its past. */
  lemma TrackStep(policy: Policy, start: State, s: State, d: Delivery, past: Past, a: Action)
    requires OnTrack(policy, start, s, d, past) && !s.runs[d.me].pc.Done? && (Mentions(a, d.me) ==> IsOwn(a))
    ensures d.me in Next(policy, s, a).runs
    ensures OnTrack(policy, start, Next(policy, s, a), d, PastAfter(policy, s, a, d, past))
    ensures !Mentions(a, d.me) ==> Next(policy, s, a).runs[d.me] == s.runs[d.me] && PastAfter(policy, s, a, d, past) == past
  {
    hide Next, Leads, AcceptedFor, LiveRunsHaveRows;
    LeadsOn(policy, start, s, d, past, a);
    NextKeepsLiveRows(policy, s, a);
    NextOnRun(policy, s, a, d.me);
    AcceptanceStep(policy, s, a, d.me, d.job);
  }

  /** Every own statement but the claim, the send and the write of SENT leaves the past as it is. */
  lemma TrackQuietly(policy: Policy, start: State, s: State, d: Delivery, past: Past, a: Action)
    requires OnTrack(policy, start, s, d, past) && !s.runs[d.me].pc.Done? && (Mentions(a, d.me) ==> IsOwn(a))
    requires a.Work? ==> !s.runs[d.me].pc.ToClaim? && !s.runs[d.me].pc.ToSend? && !s.runs[d.me].pc.ToMarkSent?
    ensures OnTrack(policy, start, Next(policy, s, a), d, past)
  {
    hide Next, OnTrack;
    TrackStep(policy, start, s, d, past, a);
    assert PastAfter(policy, s, a, d, past) == past;
  }

  /** A throw outside the `try`, or out of the `catch` block, ends the run just as a crash does. */
  lemma ThrowOutIsCrash(policy: Policy, s: State, r: RunId)
    requires r in s.runs && !s.runs[r].pc.Done? && ThrowTarget(s.runs[r].pc).Done?
    ensures Next(policy, s, Throw(r)) == Next(policy, s, Crash(r))
  {
  }

  lemma TrackStart(policy: Policy, start: State, d: Delivery)
    requires Sound(start) && d.me !in start.runs
    ensures OnTrack(policy, start, Next(policy, start, d.StartAction()), d, NOTHING)
  {
    var trace, s := [d.StartAction()], Next(policy, start, d.StartAction());
    assert trace[1..] == [] && Exec(policy, start, trace) == Next(policy, start, trace[0]);
    NextKeepsLiveRows(policy, start, d.StartAction());
    if SureInv(start) {
      NextKeepsSure(policy, start, d.StartAction());
    }
    assert LeadsBy(policy, start, trace, s, d, NOTHING);
  }

  /** The answer against what the run met and did: its clock readings, the SMTP reply, and the faults. */
  predicate Answers(d: Delivery, io: Io, outcome: Outcome, past: Past)
  {
    match outcome
    case SentOutcome => io.Accepts() && past == Past(true, Some(io.claimedAt), Some(io.sentAt))
    case FailedOutcome =>
      && d.attemptsMade + 1 >= d.attempts && past.claimedAt == Some(io.claimedAt)
      && (past.accepted <==> io.Accepts()) && (past.accepted ==> io.faults.throws != {})
    case ThrewOutcome =>
      && (past.claimedAt.Some? ==> past.claimedAt == Some(io.claimedAt))
      && (past.accepted ==> io.Accepts())
      && (!io.faults.None() || !io.catchFaults.None() || (!io.Accepts() && d.attemptsMade + 1 < d.attempts))
    case DeferredOutcome => past == Past(false, Some(io.claimedAt), None)
    case SkippedOutcome(_) => past == NOTHING
  }

  /** What the answer means for the row: over hazard-free runs, whatever the other actors did. */
  ghost predicate OutcomeHolds(s: State, d: Delivery, outcome: Outcome, past: Past)
  {
    && (outcome == SentOutcome ==> HasStatus(s.rows, d.job, Sent) && AcceptCount(s.accepts, d.job) == 1)
    && (outcome == FailedOutcome ==>
          HasStatus(s.rows, d.job, Failed) && AcceptCount(s.accepts, d.job) == if past.accepted then 1 else 0)
    && Stamps(s.rows, d.job, past)
  }

  lemma DoneMeansOutcome(policy: Policy, start: State, s: State, d: Delivery, outcome: Outcome, past: Past)
    requires OnTrack(policy, start, s, d, past) && s.runs[d.me].pc == Done(outcome)
    requires SureInv(s) && Stamps(s.rows, d.job, past)
    ensures OutcomeHolds(s, d, outcome, past)
  {
    assert RunSure(s, d.me);
    CountsAcceptance(s.accepts, d.job);
    assert AcceptedFor(s, d.me, d.job) ==> Accepted(s, d.job);
    assert Accepted(s, d.job) <==> exists i :: 0 <= i < |s.accepts| && s.accepts[i].job == d.job;
  }

  /** A row that the run left PROCESSING is failed by a pass exactly when the run's claim is before the cutoff. */
  lemma LeftRowGoesStale(policy: Policy, s: State, d: Delivery, past: Past, cutoff: int)
    requires Stamps(s.rows, d.job, past) && past.claimedAt.Some? && HasStatus(s.rows, d.job, Processing)
    ensures HasStatus(Next(policy, s, FailStale(cutoff)).rows, d.job, Failed) <==> past.claimedAt.value < cutoff
  {
    PassFailsTheStale(policy, s, cutoff);
    hide Next;
  }

  /** How a block of statements ends. */
  datatype Ending = Finished | Thrown | Died

  class Backend {
    const policy: Policy
    const redis: Redis.Server
    var rows: Rows
    var campaigns: Campaigns
    var runs: map<RunId, Run>
    var cancels: map<CallerId, CampaignId>
    var allows: seq<Allow>
    var accepts: seq<Accept>

    constructor (policy: Policy, redis: Redis.Server)
      requires redis.keys == map[] && redis.clock == 0
      ensures this.policy == policy && this.redis == redis && View() == EMPTY
    {
      this.policy, this.redis := policy, redis;
      rows, campaigns, runs, cancels, allows, accepts := map[], map[], map[], map[], [], [];
    }

    function View(): State
      reads this, redis
    {
      State(rows, campaigns, runs, cancels, redis.keys, redis.clock, allows, accepts)
    }

    predicate AtPc(me: RunId, pc: Pc)
      reads this
    {
      me in runs && runs[me].pc == pc
    }

    method Advance(me: RunId, pc: Pc)
      requires me in runs
      modifies this`runs
      ensures runs == old(runs)[me := old(runs[me]).(pc := pc)]
    {
      runs := runs[me := runs[me].(pc := pc)];
    }

    /** One action of some actor, as the protocol defines it. */
    method TakeStep(a: Action)
      modifies this, redis
      ensures View() == Next(policy, old(View()), a)
    {
      var s := Next(policy, View(), a);
      rows, campaigns, runs, cancels := s.rows, s.campaigns, s.runs, s.cancels;
      allows, accepts := s.allows, s.accepts;
      redis.keys, redis.clock := s.redis, s.clock;
    }

    /** Other actors run. */
    method Others(d: Delivery, schedule: seq<Action>, ghost start: State, ghost past: Past)
      requires OnTrack(policy, start, View(), d, past) && !runs[d.me].pc.Done?
      requires NoneMentions(schedule, d.me)
      modifies this, redis
      ensures Running(start, d, old(runs[d.me].pc), past)
    {
      for i := 0 to |schedule|
        invariant OnTrack(policy, start, View(), d, past) && runs[d.me] == old(runs[d.me])
      {
        TrackStep(policy, start, View(), d, past, schedule[i]);
        TakeStep(schedule[i]);
      }
    }

    method Begin(me: RunId, job: JobId, attemptsMade: nat, attempts: nat)
      requires me !in runs
      modifies this`runs
      ensures View() == Next(policy, old(View()), Start(me, job, attemptsMade, attempts))
      ensures me in runs && runs[me] == Run(job, attemptsMade + 1 >= attempts, ToLoad)
    {
      runs := runs[me := Run(job, attemptsMade + 1 >= attempts, ToLoad)];
    }

    /** Gate 1: read the row, and stand down if it is gone, cancelled or already sent. */
    method LoadRow(me: RunId, ghost input: Input) returns (skip: Option<SkipReason>)
      requires AtPc(me, ToLoad)
      modifies this`runs
      ensures View() == Next(policy, old(View()), Work(me, input))
      ensures var job := old(runs[me].job);
              skip == if job !in rows then Some(RowMissing)
                      else match rows[job].status
                        case Cancelled => Some(WasCancelled)
                        case Sent => Some(AlreadySent)
                        case _ => None
      ensures AtPc(me, if skip.Some? then Done(SkippedOutcome(skip.value)) else ToClaim)
    {
      var job := runs[me].job;
      skip := None;
      if job !in rows {
        skip := Some(RowMissing);
      } else if rows[job].status == Cancelled {
        skip := Some(WasCancelled);
      } else if rows[job].status == Sent {
        skip := Some(AlreadySent);
      }
      Advance(me, if skip.Some? then Done(SkippedOutcome(skip.value)) else ToClaim);
    }

    /** Gate 2: the compare-and-swap claim, and how many rows it changed. */
    method ClaimRow(me: RunId, now: nat, ghost input: Input) returns (count: nat)
      requires AtPc(me, ToClaim) && input.now == now
      modifies this`rows, this`runs
      ensures View() == Next(policy, old(View()), Work(me, input))
      ensures count == if HasStatus(old(rows), old(runs[me].job), Scheduled) then 1 else 0
      ensures count == 0 ==> rows == old(rows)
      ensures count == 1 ==>
                var job := old(runs[me].job);
                && rows.Keys == old(rows).Keys && (forall id :: id in rows && id != job ==> rows[id] == old(rows)[id])
                && rows[job].status == Processing && rows[job].startedAt == Some(now)
                && rows[job].attempts == old(rows)[job].attempts + 1
      ensures AtPc(me, if count == 0 then Done(SkippedOutcome(NotClaimed)) else ToCheckRate)
    {
      var job := runs[me].job;
      count := 0;
      if job in rows && rows[job].status == Scheduled {
        rows := rows[job := rows[job].(status := Processing, startedAt := Some(now), attempts := rows[job].attempts + 1)];
        count := 1;
      }
      Advance(me, if count == 0 then Done(SkippedOutcome(NotClaimed)) else ToCheckRate);
    }

    /** Gate 3: the per-sender limiter, at Redis's own time. */
    method CheckRate(me: RunId, now: nat, redisTime: int) returns (decision: Decision)
      requires AtPc(me, ToCheckRate) && runs[me].job in rows
      modifies this`runs, this`allows, redis
      ensures redis.clock >= redisTime
      ensures View() == Next(policy, old(View()), Work(me, Input(now, redis.clock, false)))
      ensures AtPc(me, if decision.allowed then ToSend(now) else ToReleaseDenied)
    {
      if redisTime > redis.clock {
        redis.clock := redisTime;
      }
      var sender := rows[runs[me].job].sender;
      decision := CheckSenderRateLimit(redis, policy, me, sender, now);
      if decision.allowed {
        allows := allows + [Allow(me, sender, now)];
      }
      Advance(me, if decision.allowed then ToSend(now) else ToReleaseDenied);
    }

    /** Gives the claim back: PROCESSING to SCHEDULED. */
    method ReleaseRow(id: JobId)
      modifies this`rows
      ensures rows == Released(old(rows), id)
    {
      if id in rows && rows[id].status == Processing {
        rows := rows[id := rows[id].(status := Scheduled, startedAt := None)];
      }
    }

    method Defer(me: RunId, ghost input: Input)
      requires AtPc(me, ToReleaseDenied)
      modifies this`rows, this`runs
      ensures View() == Next(policy, old(View()), Work(me, input))
      ensures AtPc(me, Done(DeferredOutcome))
    {
      ReleaseRow(runs[me].job);
      Advance(me, Done(DeferredOutcome));
    }

    /** Gate 4: the SMTP server accepts the message, or the call throws. */
    method SendEmail(me: RunId, decidedAt: nat, smtpAccepts: bool, ghost input: Input)
      requires AtPc(me, ToSend(decidedAt)) && runs[me].job in rows && input.smtpAccepts == smtpAccepts
      modifies this`runs, this`accepts
      ensures View() == Next(policy, old(View()), Work(me, input))
      ensures AtPc(me, if smtpAccepts then ToMarkSent(decidedAt) else ToHandleFailure(false))
    {
      if smtpAccepts {
        accepts := accepts + [Accept(me, runs[me].job, rows[runs[me].job].sender, decidedAt)];
        Advance(me, ToMarkSent(decidedAt));
      } else {
        Advance(me, ToHandleFailure(false));
      }
    }

    method MarkSent(me: RunId, now: nat, ghost input: Input)
      requires me in runs && runs[me].pc.ToMarkSent? && runs[me].job in rows && input.now == now
      modifies this`rows, this`runs
      ensures View() == Next(policy, old(View()), Work(me, input))
      ensures var job := old(runs[me].job);
              && rows.Keys == old(rows).Keys && (forall id :: id in rows && id != job ==> rows[id] == old(rows)[id])
              && rows[job].status == Sent && rows[job].sentAt == Some(now)
      ensures AtPc(me, ToCountPending(true))
    {
      var job := runs[me].job;
      rows := rows[job := rows[job].(status := Sent, sentAt := Some(now))];
      Advance(me, ToCountPending(true));
    }

    /** The `catch` block: release for a retry, or FAILED on the last attempt, whatever the row says. */
    method RecordFailure(me: RunId, sent: bool, ghost input: Input) returns (terminal: bool)
      requires AtPc(me, ToHandleFailure(sent)) && runs[me].job in rows
      modifies this`rows, this`runs
      ensures View() == Next(policy, old(View()), Work(me, input))
      ensures terminal == old(runs[me].isLastAttempt)
      ensures var job := old(runs[me].job);
              && rows.Keys == old(rows).Keys && (forall id :: id in rows && id != job ==> rows[id] == old(rows)[id])
              && rows[job].status == if terminal then Failed
                                     else if old(rows)[job].status == Processing then Scheduled else old(rows)[job].status
      ensures AtPc(me, if terminal then ToCountPending(false) else Done(ThrewOutcome))
    {
      var job := runs[me].job;
      terminal := runs[me].isLastAttempt;
      if !terminal {
        ReleaseRow(job);
        Advance(me, Done(ThrewOutcome));
      } else {
        rows := rows[job := rows[job].(status := Failed)];
        Advance(me, ToCountPending(false));
      }
    }

    method CountPending(me: RunId, sent: bool, ghost input: Input) returns (pending: nat)
      requires AtPc(me, ToCountPending(sent)) && runs[me].job in rows
      modifies this`runs
      ensures View() == Next(policy, old(View()), Work(me, input))
      ensures pending == |PendingIds(old(rows), old(rows[runs[me].job].campaign))|
      ensures AtPc(me, if pending > 0 then ToMarkProcessing(sent) else ToCountFailed(sent))
    {
      pending := |PendingIds(rows, rows[runs[me].job].campaign)|;
      Advance(me, if pending > 0 then ToMarkProcessing(sent) else ToCountFailed(sent));
    }

    method MarkProcessing(me: RunId, sent: bool, ghost input: Input)
      requires AtPc(me, ToMarkProcessing(sent)) && runs[me].job in rows
      modifies this`campaigns, this`runs
      ensures View() == Next(policy, old(View()), Work(me, input))
      ensures AtPc(me, ToReturn(sent))
    {
      var c := rows[runs[me].job].campaign;
      if c in campaigns && campaigns[c] == CampaignScheduled {
        campaigns := campaigns[c := CampaignProcessing];
      }
      Advance(me, ToReturn(sent));
    }

    method CountFailed(me: RunId, sent: bool, ghost input: Input) returns (verdict: CampaignStatus)
      requires AtPc(me, ToCountFailed(sent)) && runs[me].job in rows
      modifies this`runs
      ensures View() == Next(policy, old(View()), Work(me, input))
      ensures AtPc(me, ToWriteCampaign(sent, verdict))
    {
      var failed := |FailedIds(rows, rows[runs[me].job].campaign)|;
      verdict := if failed > 0 then PartiallyFailed else Completed;
      Advance(me, ToWriteCampaign(sent, verdict));
    }

    method WriteCampaign(me: RunId, sent: bool, verdict: CampaignStatus, ghost input: Input)
      requires AtPc(me, ToWriteCampaign(sent, verdict)) && runs[me].job in rows
      modifies this`campaigns, this`runs
      ensures View() == Next(policy, old(View()), Work(me, input))
      ensures AtPc(me, ToReturn(sent))
    {
      campaigns := campaigns[rows[runs[me].job].campaign := verdict];
      Advance(me, ToReturn(sent));
    }

    method Return(me: RunId, sent: bool, ghost input: Input)
      requires AtPc(me, ToReturn(sent))
      modifies this`runs
      ensures View() == Next(policy, old(View()), Work(me, input))
      ensures AtPc(me, Done(OutcomeOf(sent)))
    {
      Advance(me, Done(OutcomeOf(sent)));
    }

    // ---- The whole job ----------------------------------------------------------------------------

    ghost predicate Running(start: State, d: Delivery, pc: Pc, past: Past)
      reads this, redis
    {
      OnTrack(policy, start, View(), d, past) && runs[d.me].pc == pc
    }

    /** The worker dies. */
    method Die(d: Delivery, ghost start: State, ghost pc: Pc, ghost past: Past)
      requires Running(start, d, pc, past) && !pc.Done?
      modifies this`runs
      ensures Running(start, d, Done(ThrewOutcome), past)
    {
      TrackQuietly(policy, start, View(), d, past, Crash(d.me));
      Advance(d.me, Done(ThrewOutcome));
    }

    /** The next statement throws. */
    method Fail(d: Delivery, ghost start: State, ghost pc: Pc, ghost past: Past)
      requires Running(start, d, pc, past) && !pc.Done?
      modifies this`runs
      ensures Running(start, d, ThrowTarget(pc), past)
    {
      TrackQuietly(policy, start, View(), d, past, Throw(d.me));
      Advance(d.me, ThrowTarget(runs[d.me].pc));
    }

    /** Others run, and then the run's next statement is reached, throws, or is where its worker dies. */
    method Meet(d: Delivery, at: Point, faults: Faults, before: seq<Action>, ghost start: State, ghost pc: Pc,
                ghost past: Past) returns (ending: Ending)
      requires Running(start, d, pc, past) && !pc.Done? && NoneMentions(before, d.me)
      modifies this, redis
      ensures ending == if at in faults.deaths then Died else if at in faults.throws then Thrown else Finished
      ensures Running(start, d, match ending case Finished => pc case Thrown => ThrowTarget(pc) case Died => Done(ThrewOutcome),
                      past)
    {
      Others(d, before, start, past);
      hide Running;
      if at in faults.deaths {
        Die(d, start, pc, past);
        ending := Died;
      } else if at in faults.throws {
        Fail(d, start, pc, past);
        ending := Thrown;
      } else {
        ending := Finished;
      }
    }

    method Gate1(d: Delivery, ghost start: State) returns (skip: Option<SkipReason>)
      requires Running(start, d, ToLoad, NOTHING)
      modifies this`runs
      ensures Running(start, d, if skip.Some? then Done(SkippedOutcome(skip.value)) else ToClaim, NOTHING)
    {
      ghost var input := Input(0, 0, false);
      TrackQuietly(policy, start, View(), d, NOTHING, Work(d.me, input));
      skip := LoadRow(d.me, input);
    }

    method Gate2(d: Delivery, now: nat, ghost start: State) returns (count: nat)
      requires Running(start, d, ToClaim, NOTHING)
      modifies this`rows, this`runs
      ensures count == 0 ==> Running(start, d, Done(SkippedOutcome(NotClaimed)), NOTHING)
      ensures count > 0 ==> Running(start, d, ToCheckRate, Past(false, Some(now), None))
    {
      ghost var input := Input(now, 0, false);
      TrackStep(policy, start, View(), d, NOTHING, Work(d.me, input));
      count := ClaimRow(d.me, now, input);
    }

    method Gate3(d: Delivery, now: nat, redisTime: int, ghost start: State, ghost past: Past) returns (decision: Decision)
      requires Running(start, d, ToCheckRate, past)
      modifies this`runs, this`allows, redis
      ensures Running(start, d, if decision.allowed then ToSend(now) else ToReleaseDenied, past)
    {
      ghost var s := View();
      decision := CheckRate(d.me, now, redisTime);
      TrackQuietly(policy, start, s, d, past, Work(d.me, Input(now, redis.clock, false)));
    }

    method Deferral(d: Delivery, ghost start: State, ghost past: Past)
      requires Running(start, d, ToReleaseDenied, past)
      modifies this`rows, this`runs
      ensures Running(start, d, Done(DeferredOutcome), past)
    {
      ghost var input := Input(0, 0, false);
      TrackQuietly(policy, start, View(), d, past, Work(d.me, input));
      Defer(d.me, input);
    }

    method Gate4(d: Delivery, decidedAt: nat, smtpAccepts: bool, ghost start: State, ghost past: Past)
      requires Running(start, d, ToSend(decidedAt), past) && !past.accepted
      modifies this`runs, this`accepts
      ensures Running(start, d, if smtpAccepts then ToMarkSent(decidedAt) else ToHandleFailure(false),
                      past.(accepted := smtpAccepts))
    {
      ghost var input := Input(0, 0, smtpAccepts);
      TrackStep(policy, start, View(), d, past, Work(d.me, input));
      SendEmail(d.me, decidedAt, smtpAccepts, input);
    }

    method RecordSent(d: Delivery, decidedAt: nat, now: nat, ghost start: State, ghost past: Past)
      requires Running(start, d, ToMarkSent(decidedAt), past)
      modifies this`rows, this`runs
      ensures Running(start, d, ToCountPending(true), past.(sentAt := Some(now)))
    {
      ghost var input := Input(now, 0, false);
      TrackStep(policy, start, View(), d, past, Work(d.me, input));
      MarkSent(d.me, now, input);
    }

    method CatchFailure(d: Delivery, sent: bool, ghost start: State, ghost past: Past) returns (terminal: bool)
      requires Running(start, d, ToHandleFailure(sent), past)
      modifies this`rows, this`runs
      ensures Running(start, d, if terminal then ToCountPending(false) else Done(ThrewOutcome), past)
      ensures terminal <==> d.attemptsMade + 1 >= d.attempts
    {
      ghost var input := Input(0, 0, false);
      TrackQuietly(policy, start, View(), d, past, Work(d.me, input));
      terminal := RecordFailure(d.me, sent, input);
    }

    method Count(d: Delivery, sent: bool, ghost start: State, ghost past: Past) returns (pending: nat)
      requires Running(start, d, ToCountPending(sent), past)
      modifies this`runs
      ensures Running(start, d, if pending > 0 then ToMarkProcessing(sent) else ToCountFailed(sent), past)
    {
      ghost var input := Input(0, 0, false);
      TrackQuietly(policy, start, View(), d, past, Work(d.me, input));
      pending := CountPending(d.me, sent, input);
    }

    method Mark(d: Delivery, sent: bool, ghost start: State, ghost past: Past)
      requires Running(start, d, ToMarkProcessing(sent), past)
      modifies this`campaigns, this`runs
      ensures Running(start, d, ToReturn(sent), past)
    {
      ghost var input := Input(0, 0, false);
      TrackQuietly(policy, start, View(), d, past, Work(d.me, input));
      MarkProcessing(d.me, sent, input);
    }

    method Classify(d: Delivery, sent: bool, ghost start: State, ghost past: Past) returns (verdict: CampaignStatus)
      requires Running(start, d, ToCountFailed(sent), past)
      modifies this`runs
      ensures Running(start, d, ToWriteCampaign(sent, verdict), past)
    {
      ghost var input := Input(0, 0, false);
      TrackQuietly(policy, start, View(), d, past, Work(d.me, input));
      verdict := CountFailed(d.me, sent, input);
    }

    method Close(d: Delivery, sent: bool, verdict: CampaignStatus, ghost start: State, ghost past: Past)
      requires Running(start, d, ToWriteCampaign(sent, verdict), past)
      modifies this`campaigns, this`runs
      ensures Running(start, d, ToReturn(sent), past)
    {
      ghost var input := Input(0, 0, false);
      TrackQuietly(policy, start, View(), d, past, Work(d.me, input));
      WriteCampaign(d.me, sent, verdict, input);
    }

    method Answer(d: Delivery, sent: bool, ghost start: State, ghost past: Past)
      requires Running(start, d, ToReturn(sent), past)
      modifies this`runs
      ensures Running(start, d, Done(OutcomeOf(sent)), past)
    {
      ghost var input := Input(0, 0, false);
      TrackQuietly(policy, start, View(), d, past, Work(d.me, input));
      Return(d.me, sent, input);
    }

    /** Where `maybeFinalizeCampaign` and the return after it lead: a throw inside the `try` is caught. */
    ghost function After(ending: Ending, sent: bool): Pc
    {
      match ending
      case Finished => Done(OutcomeOf(sent))
      case Thrown => if sent then ToHandleFailure(true) else Done(ThrewOutcome)
      case Died => Done(ThrewOutcome)
    }

    /** `maybeFinalizeCampaign` and the return: count, then mark or classify, each a statement of its own. */
    method MaybeFinalizeCampaign(d: Delivery, sent: bool, faults: Faults, gaps: Gaps, ghost start: State,
                                 ghost past: Past) returns (ending: Ending)
      requires Running(start, d, ToCountPending(sent), past) && gaps.Spares(d.me)
      modifies this, redis
      ensures Running(start, d, After(ending, sent), past)
      ensures (ending.Thrown? ==> faults.throws != {}) && (ending.Died? ==> faults.deaths != {})
    {
      hide Running;
      ending := Meet(d, AtCount, faults, gaps.beforeCount, start, ToCountPending(sent), past);
      if !ending.Finished? {
        return;
      }
      var pending := Count(d, sent, start, past);
      ending := MarkOrClose(d, sent, pending, faults, gaps, start, past);
      if ending.Finished? {
        ending := Meet(d, AtReturn, faults, gaps.beforeReturn, start, ToReturn(sent), past);
        if ending.Finished? {
          Answer(d, sent, start, past);
        }
      }
    }

    /** The rest of it, after the count. */
    method MarkOrClose(d: Delivery, sent: bool, pending: nat, faults: Faults, gaps: Gaps, ghost start: State,
                       ghost past: Past) returns (ending: Ending)
      requires Running(start, d, if pending > 0 then ToMarkProcessing(sent) else ToCountFailed(sent), past)
      requires gaps.Spares(d.me)
      modifies this, redis
      ensures Running(start, d, if ending.Finished? then ToReturn(sent) else After(ending, sent), past)
      ensures (ending.Thrown? ==> faults.throws != {}) && (ending.Died? ==> faults.deaths != {})
    {
      hide Running;
      ending := Meet(d, AtClassify, faults, gaps.beforeClassify, start,
                     if pending > 0 then ToMarkProcessing(sent) else ToCountFailed(sent), past);
      if !ending.Finished? {
        return;
      }
      if pending > 0 {
        Mark(d, sent, start, past);
        return;
      }
      var verdict := Classify(d, sent, start, past);
      ending := Meet(d, AtClose, faults, gaps.beforeClose, start, ToWriteCampaign(sent, verdict), past);
      if ending.Finished? {
        Close(d, sent, verdict, start, past);
      }
    }

    /**
     One delivery, from its start to its answer, with any actions of other actors before every statement,
     and any of its statements throwing or being where its worker dies.  The execution is a run of the
     protocol.  The answer fits what the run met and did, `past`.  If no hazard occurs the answer is true of
     the stores, and the row carries the run's own clock readings: a row that the run claimed and left
     PROCESSING is failed by a pass if and only if `io.claimedAt` is before the pass's cutoff.
     */
    method ProcessEmailJob(d: Delivery, io: Io, schedule: Schedule)
      returns (outcome: Outcome, ghost past: Past, ghost trace: seq<Action>)
      requires Sound(View()) && d.me !in runs && schedule.Spares(d.me)
      modifies this, redis
      ensures OwnPart(trace, d) && View() == Exec(policy, old(View()), trace) && Sound(View())
      ensures d.me in runs && runs[d.me] == d.NewRun().(pc := Done(outcome))
      ensures past.accepted <==> AcceptedFor(View(), d.me, d.job)
      ensures Answers(d, io, outcome, past)
      ensures SureInv(old(View())) && NoHazard(policy, old(View()), trace) ==> OutcomeHolds(View(), d, outcome, past)
      ensures SureInv(old(View())) && NoHazard(policy, old(View()), trace) && past.claimedAt.Some?
              && HasStatus(rows, d.job, Processing) ==>
                forall cutoff ::
                  HasStatus(Next(policy, View(), FailStale(cutoff)).rows, d.job, Failed) <==> io.claimedAt < cutoff
    {
      ghost var start := View();
      TrackStart(policy, start, d);
      Begin(d.me, d.job, d.attemptsMade, d.attempts);
      outcome, past := RunGates(d, io, schedule, start);
      trace :| LeadsBy(policy, start, trace, View(), d, past);
      RunKeepsSound(policy, start, trace);
      if SureInv(start) && NoHazard(policy, start, trace) {
        DoneMeansOutcome(policy, start, View(), d, outcome, past);
        if past.claimedAt.Some? && HasStatus(rows, d.job, Processing) {
          forall cutoff
            ensures HasStatus(Next(policy, View(), FailStale(cutoff)).rows, d.job, Failed) <==> io.claimedAt < cutoff
          {
            LeftRowGoesStale(policy, View(), d, past, cutoff);
          }
        }
      }
    }

    /** Gates 1 and 2. */
    method RunGates(d: Delivery, io: Io, schedule: Schedule, ghost start: State)
      returns (outcome: Outcome, ghost past: Past)
      requires Running(start, d, ToLoad, NOTHING) && schedule.Spares(d.me)
      modifies this, redis
      ensures Running(start, d, Done(outcome), past) && Answers(d, io, outcome, past)
    {
      hide Running;
      past := NOTHING;
      var ending := Meet(d, AtLoad, io.faults, schedule.beforeLoad, start, ToLoad, past);
      if !ending.Finished? {
        return ThrewOutcome, past;
      }
      var skip := Gate1(d, start);
      if skip.Some? {
        return SkippedOutcome(skip.value), past;
      }
      ending := Meet(d, AtClaim, io.faults, schedule.beforeClaim, start, ToClaim, past);
      if !ending.Finished? {
        return ThrewOutcome, past;
      }
      var count := Gate2(d, io.claimedAt, start);
      if count == 0 {
        return SkippedOutcome(NotClaimed), past;
      }
      outcome, past := RunClaimed(d, io, schedule, start);
    }

    /** Gate 3, and Gate 4 with its `catch` block, on a claimed row. */
    method RunClaimed(d: Delivery, io: Io, schedule: Schedule, ghost start: State)
      returns (outcome: Outcome, ghost past: Past)
      requires Running(start, d, ToCheckRate, Past(false, Some(io.claimedAt), None)) && schedule.Spares(d.me)
      modifies this, redis
      ensures Running(start, d, Done(outcome), past) && Answers(d, io, outcome, past)
    {
      hide Running;
      past := Past(false, Some(io.claimedAt), None);
      var ending := Meet(d, AtCheck, io.faults, schedule.beforeCheck, start, ToCheckRate, past);
      if !ending.Finished? {
        return ThrewOutcome, past;
      }
      var decision := Gate3(d, io.checkedAt, io.redisTime, start, past);
      if !decision.allowed {
        ending := Meet(d, AtRelease, io.faults, schedule.beforeRelease, start, ToReleaseDenied, past);
        if !ending.Finished? {
          return ThrewOutcome, past;
        }
        Deferral(d, start, past);
        return DeferredOutcome, past;
      }
      var sent: bool;
      ending, sent, past := TrySend(d, io, schedule, start);
      match ending {
        case Finished => outcome := SentOutcome;
        case Died => outcome := ThrewOutcome;
        case Thrown => outcome := HandleThrow(d, io, sent, schedule, start, past);
      }
    }

    /** The `try` block: the send, the write of SENT, and the campaign's status. */
    method TrySend(d: Delivery, io: Io, schedule: Schedule, ghost start: State)
      returns (ending: Ending, sent: bool, ghost past: Past)
      requires Running(start, d, ToSend(io.checkedAt), Past(false, Some(io.claimedAt), None)) && schedule.Spares(d.me)
      modifies this, redis
      ensures Running(start, d, match ending case Finished => Done(SentOutcome) case Thrown => ToHandleFailure(sent)
                                case Died => Done(ThrewOutcome), past)
      ensures past.claimedAt == Some(io.claimedAt) && (past.accepted ==> io.Accepts())
      ensures ending.Finished? ==> past == Past(true, Some(io.claimedAt), Some(io.sentAt))
      ensures ending.Thrown? ==> (past.accepted <==> io.Accepts()) && (past.accepted ==> io.faults.throws != {})
      ensures ending.Died? ==> io.faults.deaths != {}
    {
      hide Running;
      sent, past := false, Past(false, Some(io.claimedAt), None);
      ending := Meet(d, AtSend, io.faults, schedule.beforeSend, start, ToSend(io.checkedAt), past);
      if !ending.Finished? {
        return;
      }
      Gate4(d, io.checkedAt, io.smtpAccepts, start, past);
      past := past.(accepted := io.smtpAccepts);
      if !io.smtpAccepts {
        ending := Thrown;
        return;
      }
      ending := Meet(d, AtRecord, io.faults, schedule.beforeRecord, start, ToMarkSent(io.checkedAt), past);
      if !ending.Finished? {
        return;
      }
      RecordSent(d, io.checkedAt, io.sentAt, start, past);
      sent, past := true, past.(sentAt := Some(io.sentAt));
      ending := MaybeFinalizeCampaign(d, true, io.faults, schedule.inTry, start, past);
    }

    /** The `catch` block. */
    method HandleThrow(d: Delivery, io: Io, sent: bool, schedule: Schedule, ghost start: State, ghost past: Past)
      returns (outcome: Outcome)
      requires Running(start, d, ToHandleFailure(sent), past) && schedule.Spares(d.me)
      requires past.claimedAt == Some(io.claimedAt)
      requires (past.accepted <==> io.Accepts()) && (past.accepted ==> io.faults.throws != {})
      modifies this, redis
      ensures Running(start, d, Done(outcome), past) && Answers(d, io, outcome, past)
    {
      hide Running;
      var ending := Meet(d, AtCatch, io.catchFaults, schedule.beforeCatch, start, ToHandleFailure(sent), past);
      if !ending.Finished? {
        return ThrewOutcome;
      }
      var terminal := CatchFailure(d, sent, start, past);
      if !terminal {
        return ThrewOutcome;
      }
      ending := MaybeFinalizeCampaign(d, false, io.catchFaults, schedule.inCatch, start, past);
      outcome := if ending.Finished? then FailedOutcome else ThrewOutcome;
    }
  }
}
