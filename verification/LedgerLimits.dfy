/**
 The hourly cap end to end: the SMTP calls made for a sender whose limiter decision fell in a given
 UTC hour never exceed the sender's cap, over all workers and any interleaving, crashes and throws
 included.  The callers' clocks may differ from Redis's, within the tolerance.
 */
module LedgerLimits {
  import opened Calendar
  import opened Ledger
  import opened LedgerSafety
  import opened LimiterTheory
  import opened RateLimiter
  import opened Schema
  import Sets

  /** One call to the SMTP server, with the limiter decision that permitted it. */
  datatype SmtpCall = SmtpCall(run: RunId, job: JobId, sender: string, decidedAt: nat, accepted: bool)

  /**
   The SMTP call that an action makes, if any.  A run makes its call when it leaves the send: the message
   is accepted, or refused, or the call throws, or the worker dies during it.
   */
  function CallOf(s: State, a: Action): seq<SmtpCall>
  {
    if (a.Work? || a.Throw? || a.Crash?) && a.run in s.runs && s.runs[a.run].pc.ToSend? && s.runs[a.run].job in s.rows
    then
      var run := s.runs[a.run];
      [SmtpCall(a.run, run.job, s.rows[run.job].sender, run.pc.decidedAt, a.Work? && a.input.smtpAccepts)]
    else []
  }

  /** Every SMTP call of a run of the protocol, in order. */
  ghost function SmtpLog(policy: Policy, s: State, trace: seq<Action>): seq<SmtpCall>
    decreases |trace|
  {
    if trace == [] then [] else CallOf(s, trace[0]) + SmtpLog(policy, Next(policy, s, trace[0]), trace[1..])
  }

  function CountCalls(log: seq<SmtpCall>, sender: string, hour: nat): nat
  {
    if log == [] then 0
    else
      var last := log[|log| - 1];
      CountCalls(log[..|log| - 1], sender, hour)
      + if last.sender == sender && last.decidedAt / MS_PER_HOUR == hour then 1 else 0
  }

  lemma CountCallsAppend(log: seq<SmtpCall>, c: SmtpCall, sender: string, hour: nat)
    ensures CountCalls(log + [c], sender, hour) == CountCalls(log, sender, hour)
         + if c.sender == sender && c.decidedAt / MS_PER_HOUR == hour then 1 else 0
  {
    assert (log + [c])[..|log|] == log;
  }

  function CountAccepts(accepts: seq<Accept>, sender: string, hour: nat): nat
  {
    if accepts == [] then 0
    else
      var last := accepts[|accepts| - 1];
      CountAccepts(accepts[..|accepts| - 1], sender, hour)
      + if last.sender == sender && last.decidedAt / MS_PER_HOUR == hour then 1 else 0
  }

  /** The calls that the server accepted. */
  function Acceptances(log: seq<SmtpCall>): seq<Accept>
  {
    if log == [] then []
    else
      var c := log[|log| - 1];
      Acceptances(log[..|log| - 1]) + if c.accepted then [Accept(c.run, c.job, c.sender, c.decidedAt)] else []
  }

  lemma {:induction false} AcceptancesConcat(a: seq<SmtpCall>, b: seq<SmtpCall>)
    ensures Acceptances(a + b) == Acceptances(a) + Acceptances(b)
  {
    if b == [] {
      assert a + b == a;
    } else {
      assert (a + b)[..|a + b| - 1] == a + b[..|b| - 1];
      AcceptancesConcat(a, b[..|b| - 1]);
    }
  }

  lemma {:induction false} AcceptancesAreFewer(log: seq<SmtpCall>, sender: string, hour: nat)
    ensures CountAccepts(Acceptances(log), sender, hour) <= CountCalls(log, sender, hour)
  {
    if log != [] {
      var init, c := log[..|log| - 1], log[|log| - 1];
      AcceptancesAreFewer(init, sender, hour);
      if c.accepted {
        var accept := Accept(c.run, c.job, c.sender, c.decidedAt);
        assert (Acceptances(init) + [accept])[..|Acceptances(init)|] == Acceptances(init);
      } else {
        assert Acceptances(log) == Acceptances(init);
      }
    }
  }

  predicate IsReady(s: State, r: RunId, sender: string, hour: nat)
  {
    && r in s.runs
    && s.runs[r].pc.ToSend?
    && s.runs[r].job in s.rows
    && s.rows[s.runs[r].job].sender == sender
    && s.runs[r].pc.decidedAt / MS_PER_HOUR == hour
  }

  /** The runs that have been allowed and have not talked to SMTP yet. */
  ghost function Ready(s: State, sender: string, hour: nat): set<RunId>
  {
    set r | r in s.runs && IsReady(s, r, sender, hour)
  }

  /** The calls made so far and the runs about to call are no more than the allows. */
  ghost predicate Covered(s: State, log: seq<SmtpCall>, sender: string, hour: nat)
  {
    CountCalls(log, sender, hour) + |Ready(s, sender, hour)| <= CountInHour(s.allows, sender, hour)
  }

  ghost predicate LiveRunsHaveRows(s: State)
  {
    forall r :: r in s.runs && Live(s.runs[r].pc) ==> s.runs[r].job in s.rows
  }

  ghost predicate LimitInv(policy: Policy, s: State, log: seq<SmtpCall>, lo: int)
  {
    && LiveRunsHaveRows(s)
    && CountersOk(policy, s.redis, s.allows, lo, lo + TOLERANCE)
    && WithinCaps(policy, s.allows)
    && forall sender: string, hour: nat :: Covered(s, log, sender, hour)
  }

  /** A limiter call reads a valid Date, and clocks that differ by `lo` to `lo + TOLERANCE`. */
  predicate TimelyStep(s: State, a: Action, lo: int)
  {
    a.Work? && a.run in s.runs && s.runs[a.run].pc.ToCheckRate? ==>
      a.input.now <= MAX_TIME && lo <= a.input.redisTime - a.input.now <= lo + TOLERANCE
  }

  // ---- Steps ------------------------------------------------------------------------------------

  lemma SenderIsStable(policy: Policy, s: State, a: Action, id: JobId)
    requires id in s.rows
    ensures id in Next(policy, s, a).rows && Next(policy, s, a).rows[id].sender == s.rows[id].sender
  {
    hide WorkStep;
    if a.Work? && a.run in s.runs {
      WorkHasEffect(policy, s, a.run, a.input);
    }
  }

  /** Only a rate check moves the limiter's keys and the allows. */
  lemma QuietStep(policy: Policy, s: State, a: Action)
    requires !(a.Work? && a.run in s.runs && s.runs[a.run].pc.ToCheckRate?)
    ensures Next(policy, s, a).redis == s.redis && Next(policy, s, a).allows == s.allows
  {
    hide WorkStep;
    if a.Work? && a.run in s.runs {
      WorkHasEffect(policy, s, a.run, a.input);
    }
  }

  /** A run comes to its send only by its own rate check. */
  lemma ReadyWasReady(policy: Policy, s: State, a: Action, r: RunId)
    requires LiveRunsHaveRows(s) && r in Next(policy, s, a).runs && Next(policy, s, a).runs[r].pc.ToSend?
    requires !(a.Work? && a.run == r && r in s.runs && s.runs[r].pc.ToCheckRate?)
    ensures r in s.runs && s.runs[r] == Next(policy, s, a).runs[r] && s.runs[r].job in s.rows
  {
    hide Next;
    if r in s.runs {
      NextOnRun(policy, s, a, r);
    } else {
      NewRunIsNew(policy, s, a, r);
    }
  }

  lemma FewerReady(policy: Policy, s: State, a: Action, sender: string, hour: nat)
    requires LiveRunsHaveRows(s)
    requires !(a.Work? && a.run in s.runs && s.runs[a.run].pc.ToCheckRate?)
    ensures Ready(Next(policy, s, a), sender, hour) <= Ready(s, sender, hour)
  {
    forall r | r in Ready(Next(policy, s, a), sender, hour)
      ensures r in Ready(s, sender, hour)
    {
      ReadyWasReady(policy, s, a, r);
      SenderIsStable(policy, s, a, s.runs[r].job);
    }
  }

  /** A call uses up the allow its run was holding. */
  lemma CallLeavesReady(policy: Policy, s: State, a: Action, sender: string, hour: nat)
    requires LiveRunsHaveRows(s) && CallOf(s, a) != []
    ensures a.run !in Ready(Next(policy, s, a), sender, hour)
    ensures CallOf(s, a)[0].sender == sender && CallOf(s, a)[0].decidedAt / MS_PER_HOUR == hour ==>
              a.run in Ready(s, sender, hour)
  {
    hide WorkStep;
    if a.Work? {
      WorkHasEffect(policy, s, a.run, a.input);
      SendMovesOn(policy, s, a.run, a.input);
    }
  }

  lemma SendMovesOn(policy: Policy, s: State, r: RunId, input: Input)
    requires r in s.runs && s.runs[r].pc.ToSend? && s.runs[r].job in s.rows
    ensures r in WorkStep(policy, s, r, input).runs && !WorkStep(policy, s, r, input).runs[r].pc.ToSend?
  {
  }

  lemma CallKeepsCovered(policy: Policy, s: State, a: Action, log: seq<SmtpCall>, sender: string, hour: nat)
    requires LiveRunsHaveRows(s) && Covered(s, log, sender, hour)
    requires !(a.Work? && a.run in s.runs && s.runs[a.run].pc.ToCheckRate?)
    ensures Covered(Next(policy, s, a), log + CallOf(s, a), sender, hour)
  {
    QuietStep(policy, s, a);
    FewerReady(policy, s, a, sender, hour);
    var before, after := Ready(s, sender, hour), Ready(Next(policy, s, a), sender, hour);
    Sets.SubsetSize(after, before);
    if CallOf(s, a) == [] {
      assert log + CallOf(s, a) == log;
    } else {
      CountCallsAppend(log, CallOf(s, a)[0], sender, hour);
      CallLeavesReady(policy, s, a, sender, hour);
      if a.run in before {
        Sets.SubsetSize(after, before - {a.run});
      }
    }
  }

  lemma CheckKeepsCovered(policy: Policy, s: State, r: RunId, input: Input, log: seq<SmtpCall>, sender: string, hour: nat)
    requires LiveRunsHaveRows(s) && Covered(s, log, sender, hour)
    requires r in s.runs && s.runs[r].pc.ToCheckRate?
    ensures Covered(CheckRate(policy, s, r, input), log, sender, hour)
  {
    var s' := CheckRate(policy, s, r, input);
    var call := LimiterCall(s, r, input);
    var before, after := Ready(s, sender, hour), Ready(s', sender, hour);
    assert r !in before;
    assert after <= before + {r};
    Sets.SubsetSize(after, before + {r});
    if s' != s && Check(policy, s.redis, call).1.allowed {
      CountAppend(s.allows, Allow(r, call.sender, input.now), sender, hour);
      if !IsReady(s', r, sender, hour) {
        assert after <= before;
        Sets.SubsetSize(after, before);
      }
    } else {
      assert after <= before;
      Sets.SubsetSize(after, before);
    }
  }

  lemma NextKeepsLiveRows(policy: Policy, s: State, a: Action)
    requires LiveRunsHaveRows(s)
    ensures LiveRunsHaveRows(Next(policy, s, a))
  {
    var s' := Next(policy, s, a);
    forall r | r in s'.runs && Live(s'.runs[r].pc)
      ensures s'.runs[r].job in s'.rows
    {
      LiveRunHasRow(policy, s, a, r);
    }
  }

  lemma LiveRunHasRow(policy: Policy, s: State, a: Action, r: RunId)
    requires LiveRunsHaveRows(s) && r in Next(policy, s, a).runs && Live(Next(policy, s, a).runs[r].pc)
    ensures Next(policy, s, a).runs[r].job in Next(policy, s, a).rows
  {
    hide WorkStep;
    if r in s.runs {
      NextOnRun(policy, s, a, r);
      if a.Work? && a.run == r {
        LiveByWork(policy, s, r, a.input);
      }
      SenderIsStable(policy, s, a, s.runs[r].job);
    } else {
      NewRunIsNew(policy, s, a, r);
    }
    hide Next;
  }

  lemma LiveByWork(policy: Policy, s: State, r: RunId, input: Input)
    requires LiveRunsHaveRows(s) && r in s.runs && r in WorkStep(policy, s, r, input).runs && Live(WorkStep(policy, s, r, input).runs[r].pc)
    ensures s.runs[r].job in s.rows
  {
    hide WorkStep;
    WorkHasEffect(policy, s, r, input);
  }

  lemma CheckKeepsLimits(policy: Policy, s: State, r: RunId, input: Input, lo: int)
    requires policy.Faithful() && CountersOk(policy, s.redis, s.allows, lo, lo + TOLERANCE) && WithinCaps(policy, s.allows)
    requires r in s.runs && s.runs[r].pc.ToCheckRate? && TimelyStep(s, Work(r, input), lo)
    ensures var s' := CheckRate(policy, s, r, input);
            CountersOk(policy, s'.redis, s'.allows, lo, lo + TOLERANCE) && WithinCaps(policy, s'.allows)
  {
    if s.runs[r].job in s.rows {
      var call := LimiterCall(s, r, input);
      CheckKeepsCounters(policy, s.redis, s.allows, call, lo, lo + TOLERANCE);
      CheckKeepsCaps(policy, s.redis, s.allows, call, lo, lo + TOLERANCE);
    }
  }

  lemma NextKeepsCovered(policy: Policy, s: State, a: Action, log: seq<SmtpCall>, sender: string, hour: nat)
    requires LiveRunsHaveRows(s) && Covered(s, log, sender, hour)
    ensures Covered(Next(policy, s, a), log + CallOf(s, a), sender, hour)
  {
    if a.Work? && a.run in s.runs && s.runs[a.run].pc.ToCheckRate? {
      CheckKeepsCovered(policy, s, a.run, a.input, log, sender, hour);
      assert log + CallOf(s, a) == log;
    } else {
      CallKeepsCovered(policy, s, a, log, sender, hour);
    }
  }

  lemma NextKeepsLimitInv(policy: Policy, s: State, a: Action, log: seq<SmtpCall>, lo: int)
    requires policy.Faithful() && LimitInv(policy, s, log, lo) && TimelyStep(s, a, lo)
    ensures LimitInv(policy, Next(policy, s, a), log + CallOf(s, a), lo)
  {
    NextKeepsLiveRows(policy, s, a);
    forall sender: string, hour: nat
      ensures Covered(Next(policy, s, a), log + CallOf(s, a), sender, hour)
    {
      NextKeepsCovered(policy, s, a, log, sender, hour);
    }
    if a.Work? && a.run in s.runs && s.runs[a.run].pc.ToCheckRate? {
      CheckKeepsLimits(policy, s, a.run, a.input, lo);
    } else {
      QuietStep(policy, s, a);
    }
  }

  ghost predicate TimelyRun(policy: Policy, s: State, trace: seq<Action>, lo: int)
  {
    Along(policy, s, trace, (t: State, a: Action) => TimelyStep(t, a, lo))
  }

  lemma {:induction false} RunKeepsLimitInv(policy: Policy, s: State, trace: seq<Action>, log: seq<SmtpCall>, lo: int)
    requires policy.Faithful() && LimitInv(policy, s, log, lo) && TimelyRun(policy, s, trace, lo)
    ensures LimitInv(policy, Exec(policy, s, trace), log + SmtpLog(policy, s, trace), lo)
    decreases |trace|
  {
    if trace == [] {
      assert log + [] == log;
    } else {
      var s', call := Next(policy, s, trace[0]), CallOf(s, trace[0]);
      NextKeepsLimitInv(policy, s, trace[0], log, lo);
      RunKeepsLimitInv(policy, s', trace[1..], log + call, lo);
      assert log + call + SmtpLog(policy, s', trace[1..]) == log + (call + SmtpLog(policy, s', trace[1..]));
    }
  }

  lemma EmptyIsWithinLimits(policy: Policy, lo: int)
    ensures LimitInv(policy, EMPTY, [], lo)
  {
    forall sender: string, hour: nat
      ensures Covered(EMPTY, [], sender, hour)
    {
      assert Ready(EMPTY, sender, hour) == {};
    }
  }

  /** No sender's SMTP calls decided in one UTC hour, accepted or not, exceed its cap. */
  lemma SmtpCallsWithinHourlyCap(policy: Policy, trace: seq<Action>, lo: int, sender: string, hour: nat)
    requires policy.Faithful() && TimelyRun(policy, EMPTY, trace, lo)
    ensures CountCalls(SmtpLog(policy, EMPTY, trace), sender, hour)
         <= if sender in policy.overrides then policy.overrides[sender] else policy.defaultCap
  {
    EmptyIsWithinLimits(policy, lo);
    RunKeepsLimitInv(policy, EMPTY, trace, [], lo);
    var log := SmtpLog(policy, EMPTY, trace);
    assert [] + log == log;
    assert Covered(Exec(policy, EMPTY, trace), log, sender, hour);
  }

  // ---- Acceptances are calls ------------------------------------------------------------------------

  /** Only a send adds an acceptance, and it is the call the step makes. */
  lemma AcceptStep(policy: Policy, s: State, a: Action)
    ensures Next(policy, s, a).accepts == s.accepts + Acceptances(CallOf(s, a))
  {
    hide WorkStep;
    assert CallOf(s, a) != [] ==> CallOf(s, a)[..0] == [] && Acceptances([]) == [];
    if a.Work? && a.run in s.runs {
      AcceptByWork(policy, s, a.run, a.input);
    }
  }

  lemma AcceptByWork(policy: Policy, s: State, r: RunId, input: Input)
    requires r in s.runs
    ensures WorkStep(policy, s, r, input).accepts == s.accepts
              + if s.runs[r].pc.ToSend? && s.runs[r].job in s.rows && input.smtpAccepts
                then [Accept(r, s.runs[r].job, s.rows[s.runs[r].job].sender, s.runs[r].pc.decidedAt)] else []
  {
    if !s.runs[r].pc.ToSend? {
      WorkHasEffect(policy, s, r, input);
    }
  }

  /** The acceptances of a run are exactly its accepted calls, in order. */
  lemma {:induction false} AcceptancesAreCalls(policy: Policy, s: State, trace: seq<Action>)
    ensures Exec(policy, s, trace).accepts == s.accepts + Acceptances(SmtpLog(policy, s, trace))
    decreases |trace|
  {
    hide Next, CallOf;
    if trace != [] {
      var s' := Next(policy, s, trace[0]);
      AcceptStep(policy, s, trace[0]);
      AcceptancesAreCalls(policy, s', trace[1..]);
      AcceptancesConcat(CallOf(s, trace[0]), SmtpLog(policy, s', trace[1..]));
    }
  }

  /** So no sender's acceptances decided in one UTC hour exceed its cap. */
  lemma AcceptancesWithinHourlyCap(policy: Policy, trace: seq<Action>, lo: int, sender: string, hour: nat)
    requires policy.Faithful() && TimelyRun(policy, EMPTY, trace, lo)
    ensures CountAccepts(Exec(policy, EMPTY, trace).accepts, sender, hour)
         <= if sender in policy.overrides then policy.overrides[sender] else policy.defaultCap
  {
    var log := SmtpLog(policy, EMPTY, trace);
    SmtpCallsWithinHourlyCap(policy, trace, lo, sender, hour);
    AcceptancesAreCalls(policy, EMPTY, trace);
    assert Exec(policy, EMPTY, trace).accepts == Acceptances(log);
    AcceptancesAreFewer(log, sender, hour);
  }
}
