/**
 Whose SMTP call it is: every call, accepted or not, was permitted by an allow of its own, which the
 limiter made for the calling run while that run held the row.
 */
module LedgerCalls {
  import opened Ledger
  import opened LedgerLimits
  import opened LedgerSafety
  import opened LimiterTheory
  import opened RateLimiter
  import opened Schema

  /** The run may have talked to SMTP; a run that was skipped or deferred has not. */
  predicate PastSend(pc: Pc)
  {
    && !pc.ToLoad? && !pc.ToClaim? && !pc.ToCheckRate? && !pc.ToReleaseDenied? && !pc.ToSend?
    && (pc.Done? ==> !pc.outcome.SkippedOutcome? && !pc.outcome.DeferredOutcome?)
  }

  lemma PastSendStays(policy: Policy, s: State, a: Action, r: RunId)
    requires r in s.runs && PastSend(s.runs[r].pc)
    ensures r in Next(policy, s, a).runs && Next(policy, s, a).runs[r].job == s.runs[r].job
    ensures PastSend(Next(policy, s, a).runs[r].pc)
  {
    hide Next;
    NextOnRun(policy, s, a, r);
  }

  /** After its call, a run is past its send. */
  lemma CallerIsPast(policy: Policy, s: State, a: Action)
    requires CallOf(s, a) != []
    ensures a.run in s.runs && !PastSend(s.runs[a.run].pc)
    ensures a.run in Next(policy, s, a).runs && Next(policy, s, a).runs[a.run].job == s.runs[a.run].job
    ensures PastSend(Next(policy, s, a).runs[a.run].pc)
  {
    hide WorkStep;
    if a.Work? {
      WorkHasEffect(policy, s, a.run, a.input);
      SendMovesOn(policy, s, a.run, a.input);
    }
  }

  // ---- What acceptances say about runs ------------------------------------------------------------

  ghost predicate AcceptsAreByRuns(s: State)
  {
    forall i :: 0 <= i < |s.accepts| ==>
      var a := s.accepts[i];
      a.run in s.runs && s.runs[a.run].job == a.job && PastSend(s.runs[a.run].pc)
  }

  lemma NextKeepsCallers(policy: Policy, s: State, a: Action)
    requires LiveRunsHaveRows(s) && AcceptsAreByRuns(s)
    ensures LiveRunsHaveRows(Next(policy, s, a)) && AcceptsAreByRuns(Next(policy, s, a))
  {
    var s' := Next(policy, s, a);
    NextKeepsLiveRows(policy, s, a);
    AcceptStep(policy, s, a);
    forall i | 0 <= i < |s'.accepts|
      ensures var acc := s'.accepts[i];
              acc.run in s'.runs && s'.runs[acc.run].job == acc.job && PastSend(s'.runs[acc.run].pc)
    {
      if i < |s.accepts| {
        PastSendStays(policy, s, a, s.accepts[i].run);
      } else {
        CallerIsPast(policy, s, a);
      }
    }
  }

  // ---- The decision behind a call -------------------------------------------------------------------

  /** Step `k` of the trace is the limiter's allow for run `r`, made while that run holds the row. */
  ghost predicate DecidedAt(policy: Policy, trace: seq<Action>, k: nat, r: RunId, job: JobId, sender: string, at: nat)
  {
    && k < |trace|
    && trace[k].Work? && trace[k].run == r
    && AllowsHolder(policy, Exec(policy, EMPTY, trace[..k]), trace[k], r, job, sender, at)
  }

  ghost predicate AllowsHolder(policy: Policy, s: State, a: Action, r: RunId, job: JobId, sender: string, at: nat)
  {
    && Holder(s, r, job)
    && s.runs[r].pc == ToCheckRate
    && job in s.rows && s.rows[job].sender == sender
    && Next(policy, s, a).allows == s.allows + [Allow(r, sender, at)]
    && r in Next(policy, s, a).runs && Next(policy, s, a).runs[r].pc == ToSend(at)
  }

  /** Some step of the trace made that allow. */
  ghost predicate Decided(policy: Policy, trace: seq<Action>, r: RunId, job: JobId, sender: string, at: nat)
  {
    exists k: nat :: DecidedAt(policy, trace, k, r, job, sender, at)
  }

  lemma DecidedStays(policy: Policy, trace: seq<Action>, a: Action, r: RunId, job: JobId, sender: string, at: nat)
    requires Decided(policy, trace, r, job, sender, at)
    ensures Decided(policy, trace + [a], r, job, sender, at)
  {
    var k: nat :| DecidedAt(policy, trace, k, r, job, sender, at);
    assert (trace + [a])[..k] == trace[..k] && (trace + [a])[k] == trace[k];
    assert DecidedAt(policy, trace + [a], k, r, job, sender, at);
  }

  lemma {:induction false} LogSnoc(policy: Policy, s: State, trace: seq<Action>, a: Action)
    ensures SmtpLog(policy, s, trace + [a]) == SmtpLog(policy, s, trace) + CallOf(Exec(policy, s, trace), a)
    decreases |trace|
  {
    if trace == [] {
      assert trace + [a] == [a] && [a][1..] == [];
      assert SmtpLog(policy, s, [a]) == CallOf(s, a) + SmtpLog(policy, Next(policy, s, a), []);
    } else {
      assert (trace + [a])[0] == trace[0] && (trace + [a])[1..] == trace[1..] + [a];
      LogSnoc(policy, Next(policy, s, trace[0]), trace[1..], a);
    }
  }

  /** A run that is about to send was allowed to. */
  ghost predicate ReadyIsDecided(policy: Policy, trace: seq<Action>, s: State)
  {
    forall r :: r in s.runs && s.runs[r].pc.ToSend? && s.runs[r].job in s.rows ==>
      Decided(policy, trace, r, s.runs[r].job, s.rows[s.runs[r].job].sender, s.runs[r].pc.decidedAt)
  }

  ghost predicate LogIsDecided(policy: Policy, trace: seq<Action>, log: seq<SmtpCall>)
  {
    forall i :: 0 <= i < |log| ==> Decided(policy, trace, log[i].run, log[i].job, log[i].sender, log[i].decidedAt)
  }

  /** The callers are different runs, each past its send. */
  ghost predicate CallersDiffer(s: State, log: seq<SmtpCall>)
  {
    && (forall i :: 0 <= i < |log| ==> log[i].run in s.runs && PastSend(s.runs[log[i].run].pc))
    && (forall i, j :: 0 <= i < j < |log| ==> log[i].run != log[j].run)
  }

  lemma AllowOfCheck(policy: Policy, s: State, r: RunId, input: Input)
    requires r in s.runs && s.runs[r].pc.ToCheckRate? && CheckRate(policy, s, r, input).runs[r].pc.ToSend?
    ensures s.runs[r].job in s.rows
    ensures AllowsHolder(policy, s, Work(r, input), r, s.runs[r].job, s.rows[s.runs[r].job].sender, input.now)
    ensures CheckRate(policy, s, r, input).runs[r].pc == ToSend(input.now)
    ensures CheckRate(policy, s, r, input).rows == s.rows
    ensures CheckRate(policy, s, r, input).runs[r].job == s.runs[r].job
  {
    assert Next(policy, s, Work(r, input)) == CheckRate(policy, s, r, input);
  }

  lemma ReadyStaysDecided(policy: Policy, trace: seq<Action>, a: Action, s: State, r: RunId)
    requires s == Exec(policy, EMPTY, trace) && LiveRunsHaveRows(s) && ReadyIsDecided(policy, trace, s)
    requires r in Next(policy, s, a).runs && Next(policy, s, a).runs[r].pc.ToSend?
    requires Next(policy, s, a).runs[r].job in Next(policy, s, a).rows
    ensures var s' := Next(policy, s, a);
            Decided(policy, trace + [a], r, s'.runs[r].job, s'.rows[s'.runs[r].job].sender, s'.runs[r].pc.decidedAt)
  {
    if a.Work? && a.run == r && r in s.runs && s.runs[r].pc.ToCheckRate? {
      AllowOfCheck(policy, s, r, a.input);
      assert (trace + [a])[..|trace|] == trace && (trace + [a])[|trace|] == a;
      assert DecidedAt(policy, trace + [a], |trace|, r, s.runs[r].job, s.rows[s.runs[r].job].sender, a.input.now);
    } else {
      ReadyWasReady(policy, s, a, r);
      SenderIsStable(policy, s, a, s.runs[r].job);
      DecidedStays(policy, trace, a, r, s.runs[r].job, s.rows[s.runs[r].job].sender, s.runs[r].pc.decidedAt);
    }
  }

  lemma CallIsDecided(policy: Policy, trace: seq<Action>, a: Action, s: State, log: seq<SmtpCall>)
    requires s == Exec(policy, EMPTY, trace) && ReadyIsDecided(policy, trace, s) && LogIsDecided(policy, trace, log)
    ensures LogIsDecided(policy, trace + [a], log + CallOf(s, a))
  {
    var longer := log + CallOf(s, a);
    forall i | 0 <= i < |longer|
      ensures Decided(policy, trace + [a], longer[i].run, longer[i].job, longer[i].sender, longer[i].decidedAt)
    {
      assert i < |log| ==> longer[i] == log[i];
      DecidedStays(policy, trace, a, longer[i].run, longer[i].job, longer[i].sender, longer[i].decidedAt);
    }
  }

  lemma NextCallerDiffers(policy: Policy, s: State, a: Action, log: seq<SmtpCall>)
    requires CallersDiffer(s, log)
    ensures CallersDiffer(Next(policy, s, a), log + CallOf(s, a))
  {
    var s', longer := Next(policy, s, a), log + CallOf(s, a);
    forall i | 0 <= i < |longer|
      ensures longer[i].run in s'.runs && PastSend(s'.runs[longer[i].run].pc)
      ensures i >= |log| ==> longer[i].run in s.runs && !PastSend(s.runs[longer[i].run].pc)
    {
      if i < |log| {
        PastSendStays(policy, s, a, log[i].run);
      } else {
        CallerIsPast(policy, s, a);
      }
    }
  }

  lemma {:induction false} RunDecidesCalls(policy: Policy, trace: seq<Action>)
    ensures var s, log := Exec(policy, EMPTY, trace), SmtpLog(policy, EMPTY, trace);
            && LiveRunsHaveRows(s) && ReadyIsDecided(policy, trace, s)
            && LogIsDecided(policy, trace, log) && CallersDiffer(s, log)
    decreases |trace|
  {
    if trace != [] {
      var init, a := trace[..|trace| - 1], trace[|trace| - 1];
      assert trace == init + [a];
      RunDecidesCalls(policy, init);
      DecidesOneMore(policy, init, a);
    }
  }

  lemma DecidesOneMore(policy: Policy, trace: seq<Action>, a: Action)
    requires var s, log := Exec(policy, EMPTY, trace), SmtpLog(policy, EMPTY, trace);
             && LiveRunsHaveRows(s) && ReadyIsDecided(policy, trace, s)
             && LogIsDecided(policy, trace, log) && CallersDiffer(s, log)
    ensures var s, log := Exec(policy, EMPTY, trace + [a]), SmtpLog(policy, EMPTY, trace + [a]);
            && LiveRunsHaveRows(s) && ReadyIsDecided(policy, trace + [a], s)
            && LogIsDecided(policy, trace + [a], log) && CallersDiffer(s, log)
  {
    var s, log := Exec(policy, EMPTY, trace), SmtpLog(policy, EMPTY, trace);
    ExecOneMore(policy, EMPTY, trace, a);
    LogSnoc(policy, EMPTY, trace, a);
    NextKeepsLiveRows(policy, s, a);
    NextCallerDiffers(policy, s, a, log);
    CallIsDecided(policy, trace, a, s, log);
    var s' := Next(policy, s, a);
    forall r | r in s'.runs && s'.runs[r].pc.ToSend? && s'.runs[r].job in s'.rows
      ensures Decided(policy, trace + [a], r, s'.runs[r].job, s'.rows[s'.runs[r].job].sender, s'.runs[r].pc.decidedAt)
    {
      ReadyStaysDecided(policy, trace, a, s, r);
    }
  }

  /**
   Every SMTP call, accepted or not, has an allow of its own: the limiter made it for the calling run,
   its sender and the deciding instant, while that run held the row; and no run calls twice.
   */
  lemma EveryCallHasItsOwnAllow(policy: Policy, trace: seq<Action>)
    ensures var log := SmtpLog(policy, EMPTY, trace);
            && (forall i :: 0 <= i < |log| ==>
                  Decided(policy, trace, log[i].run, log[i].job, log[i].sender, log[i].decidedAt))
            && (forall i, j :: 0 <= i < j < |log| ==> log[i].run != log[j].run)
            && (forall i, j, k: nat :: 0 <= i < j < |log|
                  && DecidedAt(policy, trace, k, log[i].run, log[i].job, log[i].sender, log[i].decidedAt)
                  ==> !DecidedAt(policy, trace, k, log[j].run, log[j].job, log[j].sender, log[j].decidedAt))
  {
    RunDecidesCalls(policy, trace);
  }

  /** In a hazard-free run nobody else held the row at that moment, and it was PROCESSING or FAILED. */
  lemma CallerHeldAlone(policy: Policy, trace: seq<Action>, k: nat, r: RunId, job: JobId, sender: string, at: nat, r2: RunId)
    requires NoHazard(policy, EMPTY, trace) && DecidedAt(policy, trace, k, r, job, sender, at)
    ensures var s := Exec(policy, EMPTY, trace[..k]);
            && (Holder(s, r2, job) ==> r2 == r)
            && (HasStatus(s.rows, job, Processing) || HasStatus(s.rows, job, Failed))
  {
    assert trace == trace[..k] + trace[k..];
    AlongAppend(policy, EMPTY, trace[..k], trace[k..], (t: State, a: Action) => !Hazard(t, a));
    OneHolderPerRow(policy, trace[..k], r, r, job);
    if Holder(Exec(policy, EMPTY, trace[..k]), r2, job) {
      OneHolderPerRow(policy, trace[..k], r, r2, job);
    }
  }
}
