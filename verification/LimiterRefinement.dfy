/**
 With one clock, the expiring-key limiter makes the same decisions as a limiter that remembers every
 allow: refused while an earlier allow of the sender is closer than the gap, or when the sender's
 cap is already used up in the current UTC hour.  Also what a refusal's retry time means.
 */
module LimiterRefinement {
  import opened Calendar
  import opened Redis
  import opened RateLimiter
  import opened LimiterTheory
  import opened Wrappers

  // ---- The full-history limiter ------------------------------------------------------------------

  ghost predicate GapClear(history: seq<Allow>, sender: string, gap: int, t: int)
  {
    forall i :: 0 <= i < |history| && history[i].sender == sender ==> t - history[i].now >= gap
  }

  ghost predicate ReferenceAllows(policy: Policy, history: seq<Allow>, sender: string, t: nat)
  {
    && GapClear(history, sender, policy.minGapMs, t)
    && CountInHour(history, sender, t / MS_PER_HOUR)
       < if sender in policy.overrides then policy.overrides[sender] else policy.defaultCap
  }

  // ---- The coupling between keys and history -------------------------------------------------------

  function LastAllow(history: seq<Allow>, sender: string): Option<nat>
  {
    if history == [] then None
    else if history[|history| - 1].sender == sender then Some(history[|history| - 1].now)
    else LastAllow(history[..|history| - 1], sender)
  }

  lemma LastAllowAppend(history: seq<Allow>, a: Allow, sender: string)
    ensures LastAllow(history + [a], sender)
         == if a.sender == sender then Some(a.now) else LastAllow(history, sender)
  {
    assert (history + [a])[..|history|] == history;
  }

  /** Allows are recorded in time order, none after `clock`. */
  ghost predicate InOrder(history: seq<Allow>, clock: int)
  {
    && (forall i, j :: 0 <= i < j < |history| ==> history[i].now <= history[j].now)
    && (forall i :: 0 <= i < |history| ==> history[i].now <= clock)
  }

  lemma {:induction false} LastAllowIsLatest(history: seq<Allow>, sender: string, clock: int)
    requires InOrder(history, clock)
    ensures LastAllow(history, sender).None? ==> forall i :: 0 <= i < |history| ==> history[i].sender != sender
    ensures LastAllow(history, sender).Some? ==>
              && (exists i :: 0 <= i < |history| && history[i].sender == sender
                              && history[i].now == LastAllow(history, sender).value)
              && (forall i :: 0 <= i < |history| && history[i].sender == sender
                              ==> history[i].now <= LastAllow(history, sender).value)
  {
    if history != [] {
      var n := |history| - 1;
      if history[n].sender == sender {
        assert history[n].now == LastAllow(history, sender).value;
      } else {
        LastAllowIsLatest(history[..n], sender, clock);
        assert forall i :: 0 <= i < n ==> history[..n][i] == history[i];
      }
    }
  }

  ghost predicate GapOk(keys: Keys, history: seq<Allow>, sender: string, gap: int)
  {
    match LastAllow(history, sender)
    case None => GapKey(sender) !in keys
    case Some(last) => GapKey(sender) in keys && keys[GapKey(sender)] == Entry(last, Some(last + gap))
  }

  ghost predicate Coupled(policy: Policy, keys: Keys, history: seq<Allow>, clock: int)
  {
    && policy.Faithful()
    && InOrder(history, clock)
    && CountersOk(policy, keys, history, 0, 0)
    && (policy.minGapMs > 0 ==> forall sender: string :: GapOk(keys, history, sender, policy.minGapMs))
  }

  lemma EmptyIsCoupled(policy: Policy, clock: int)
    requires policy.Faithful()
    ensures Coupled(policy, map[], [], clock)
  {
  }

  /** A call on the one shared clock. */
  predicate OnClock(call: Call, clock: int)
  {
    call.now == call.at && clock <= call.at && call.now <= MAX_TIME
  }

  predicate GapRefuses(policy: Policy, keys: Keys, call: Call)
  {
    var last := Get(keys, GapKey(call.sender), call.at);
    policy.minGapMs > 0 && last.Some? && call.now - last.value < policy.minGapMs
  }

  lemma GapCheckIsExact(policy: Policy, keys: Keys, history: seq<Allow>, clock: int, call: Call)
    requires Coupled(policy, keys, history, clock) && OnClock(call, clock)
    ensures GapRefuses(policy, keys, call) <==> !GapClear(history, call.sender, policy.minGapMs, call.now)
    ensures GapRefuses(policy, keys, call) ==>
              && LastAllow(history, call.sender).Some?
              && Get(keys, GapKey(call.sender), call.at) == LastAllow(history, call.sender)
  {
    LastAllowIsLatest(history, call.sender, clock);
    if policy.minGapMs > 0 {
      assert GapOk(keys, history, call.sender, policy.minGapMs);
    }
  }

  /** The decision of one call, and the state it leaves: the heart of the refinement. */
  lemma CallRefines(policy: Policy, keys: Keys, history: seq<Allow>, clock: int, call: Call)
    requires Coupled(policy, keys, history, clock) && OnClock(call, clock)
    ensures Check(policy, keys, call).1.allowed <==> ReferenceAllows(policy, history, call.sender, call.now)
    ensures Coupled(policy, Check(policy, keys, call).0, Record(policy, keys, history, call), call.at)
  {
    GapCheckIsExact(policy, keys, history, clock, call);
    assert CounterOk(policy, keys, history, call.sender, call.now, 0, 0);
    CounterIsLive(policy, keys, history, call, 0, 0);
    CheckKeepsCounters(policy, keys, history, call, 0, 0);
    if Check(policy, keys, call).1.allowed && policy.minGapMs > 0 {
      forall sender: string
        ensures GapOk(Check(policy, keys, call).0, Record(policy, keys, history, call), sender, policy.minGapMs)
      {
        GapAfterAllow(policy, keys, history, call, sender);
      }
    }
  }

  lemma GapAfterAllow(policy: Policy, keys: Keys, history: seq<Allow>, call: Call, sender: string)
    requires policy.minGapMs > 0 && call.now == call.at && call.now <= MAX_TIME
    requires policy.Faithful() && CounterOk(policy, keys, history, call.sender, call.now, 0, 0)
    requires Check(policy, keys, call).1.allowed && GapOk(keys, history, sender, policy.minGapMs)
    ensures GapOk(Check(policy, keys, call).0, Record(policy, keys, history, call), sender, policy.minGapMs)
  {
    AllowedCall(policy, keys, history, call, 0, 0);
    LastAllowAppend(history, Allow(call.caller, call.sender, call.now), sender);
    GapNamesDiffer(policy, sender, call.sender, call.now);
  }

  // ---- Whole runs ----------------------------------------------------------------------------------

  function Decisions(policy: Policy, keys: Keys, calls: seq<Call>): seq<bool>
    decreases |calls|
  {
    if calls == [] then []
    else
      var (keys', decision) := Check(policy, keys, calls[0]);
      [decision.allowed] + Decisions(policy, keys', calls[1..])
  }

  ghost function ReferenceDecisions(policy: Policy, history: seq<Allow>, calls: seq<Call>): seq<bool>
    decreases |calls|
  {
    if calls == [] then []
    else
      var c := calls[0];
      var allowed := ReferenceAllows(policy, history, c.sender, c.now);
      [allowed] + ReferenceDecisions(policy, if allowed then history + [Allow(c.caller, c.sender, c.now)] else history,
                                     calls[1..])
  }

  predicate OneClock(calls: seq<Call>)
  {
    && (forall i :: 0 <= i < |calls| ==> calls[i].now == calls[i].at && calls[i].now <= MAX_TIME)
    && (forall i, j :: 0 <= i < j < |calls| ==> calls[i].at <= calls[j].at)
  }

  lemma {:induction false} RunRefines(policy: Policy, keys: Keys, history: seq<Allow>, clock: int, calls: seq<Call>)
    requires Coupled(policy, keys, history, clock) && OneClock(calls)
    requires calls != [] ==> clock <= calls[0].at
    ensures Decisions(policy, keys, calls) == ReferenceDecisions(policy, history, calls)
    decreases |calls|
  {
    if calls != [] {
      CallRefines(policy, keys, history, clock, calls[0]);
      RunRefines(policy, Check(policy, keys, calls[0]).0, Record(policy, keys, history, calls[0]), calls[0].at, calls[1..]);
    }
  }

  /** Any mix of senders' calls, from empty keys: the two limiters agree on every call. */
  lemma ExpiringKeysRefineHistory(policy: Policy, calls: seq<Call>)
    requires policy.Faithful() && OneClock(calls)
    ensures Decisions(policy, map[], calls) == ReferenceDecisions(policy, [], calls)
  {
    if calls != [] {
      EmptyIsCoupled(policy, calls[0].at);
      RunRefines(policy, map[], [], calls[0].at, calls);
    }
  }

  /** The allows among the first `i` calls. */
  function AllowedAmong(calls: seq<Call>, decisions: seq<bool>, i: nat): seq<Allow>
    requires i <= |calls| == |decisions|
  {
    if i == 0 then []
    else
      var c := calls[i - 1];
      AllowedAmong(calls, decisions, i - 1) + if decisions[i - 1] then [Allow(c.caller, c.sender, c.now)] else []
  }

  lemma {:induction false} AllowedAmongRest(calls: seq<Call>, decisions: seq<bool>, i: nat)
    requires 1 <= i <= |calls| == |decisions|
    ensures AllowedAmong(calls, decisions, i)
         == (if decisions[0] then [Allow(calls[0].caller, calls[0].sender, calls[0].now)] else [])
          + AllowedAmong(calls[1..], decisions[1..], i - 1)
    decreases i
  {
    if i == 1 {
      assert AllowedAmong(calls, decisions, 0) == [];
    } else {
      AllowedAmongRest(calls, decisions, i - 1);
      assert calls[1..][i - 2] == calls[i - 1] && decisions[1..][i - 2] == decisions[i - 1];
    }
  }

  lemma {:induction false} ReferenceDecides(policy: Policy, history: seq<Allow>, calls: seq<Call>, i: nat)
    requires i < |calls|
    ensures |ReferenceDecisions(policy, history, calls)| == |calls|
    ensures var decisions := ReferenceDecisions(policy, history, calls);
            decisions[i] == ReferenceAllows(policy, history + AllowedAmong(calls, decisions, i), calls[i].sender, calls[i].now)
    decreases |calls|
  {
    hide ReferenceAllows;
    var decisions, c := ReferenceDecisions(policy, history, calls), calls[0];
    var history' := if decisions[0] then history + [Allow(c.caller, c.sender, c.now)] else history;
    assert decisions[1..] == ReferenceDecisions(policy, history', calls[1..]);
    if |calls| == 1 {
      assert calls[1..] == [];
    } else {
      ReferenceDecides(policy, history', calls[1..], if i > 0 then i - 1 else 0);
    }
    if i == 0 {
      assert history + AllowedAmong(calls, decisions, 0) == history;
    } else {
      AllowedAmongRest(calls, decisions, i);
      assert history' + AllowedAmong(calls[1..], decisions[1..], i - 1) == history + AllowedAmong(calls, decisions, i);
    }
  }

  /** Two calls of one sender in one UTC hour. */
  predicate Competes(c: Call, d: Call)
  {
    c.sender == d.sender && c.now / MS_PER_HOUR == d.now / MS_PER_HOUR
  }

  /** The earlier calls that were allowed for the sender of call `i` in its UTC hour. */
  function AllowedInHour(calls: seq<Call>, decisions: seq<bool>, i: nat, n: nat): set<nat>
    requires i < |calls| == |decisions| && n <= |calls|
  {
    set j: nat | j < n && decisions[j] && Competes(calls[j], calls[i])
  }

  lemma OneMoreInHour(calls: seq<Call>, decisions: seq<bool>, i: nat, n: nat)
    requires i < |calls| == |decisions| && 1 <= n <= |calls|
    ensures |AllowedInHour(calls, decisions, i, n)| == |AllowedInHour(calls, decisions, i, n - 1)|
         + if n - 1 in AllowedInHour(calls, decisions, i, n) then 1 else 0
  {
    hide Competes;
    var smaller, larger := AllowedInHour(calls, decisions, i, n - 1), AllowedInHour(calls, decisions, i, n);
    if n - 1 in larger {
      assert larger == smaller + {n - 1};
    } else {
      assert larger == smaller;
    }
  }

  lemma {:induction false} AllowedAmongCounts(calls: seq<Call>, decisions: seq<bool>, i: nat, n: nat)
    requires i < |calls| == |decisions| && n <= |calls|
    ensures CountInHour(AllowedAmong(calls, decisions, n), calls[i].sender, calls[i].now / MS_PER_HOUR)
         == |AllowedInHour(calls, decisions, i, n)|
    decreases n
  {
    if n > 0 {
      var before, c := AllowedAmong(calls, decisions, n - 1), calls[n - 1];
      AllowedAmongCounts(calls, decisions, i, n - 1);
      OneMoreInHour(calls, decisions, i, n);
      CountAppend(before, Allow(c.caller, c.sender, c.now), calls[i].sender, calls[i].now / MS_PER_HOUR);
      assert before + [] == before;
    }
  }

  lemma {:induction false} AllowedAmongGaps(calls: seq<Call>, decisions: seq<bool>, i: nat, n: nat, gap: int)
    requires i < |calls| == |decisions| && n <= |calls|
    ensures GapClear(AllowedAmong(calls, decisions, n), calls[i].sender, gap, calls[i].now) <==>
              forall j :: 0 <= j < n && decisions[j] && calls[j].sender == calls[i].sender
                ==> calls[i].now - calls[j].now >= gap
    decreases n
  {
    if n > 0 {
      hide GapClear;
      var before, c := AllowedAmong(calls, decisions, n - 1), calls[n - 1];
      AllowedAmongGaps(calls, decisions, i, n - 1, gap);
      GapClearAppend(before, Allow(c.caller, c.sender, c.now), calls[i].sender, gap, calls[i].now);
      assert before + [] == before;
    }
  }

  /**
   Every decision, from the calls alone: on one clock a call is allowed exactly when no earlier call allowed
   for its sender is closer than the gap, and fewer of them fall in its UTC hour than the sender's own
   number, or the default for a sender without one.
   */
  lemma DecisionsAreExact(policy: Policy, calls: seq<Call>, i: nat)
    requires policy.Faithful() && OneClock(calls) && i < |calls|
    ensures |Decisions(policy, map[], calls)| == |calls|
    ensures var decisions := Decisions(policy, map[], calls);
            decisions[i] <==>
              && (forall j :: 0 <= j < i && decisions[j] && calls[j].sender == calls[i].sender
                    ==> calls[i].now - calls[j].now >= policy.minGapMs)
              && |AllowedInHour(calls, decisions, i, i)|
                 < if calls[i].sender in policy.overrides then policy.overrides[calls[i].sender] else policy.defaultCap
  {
    hide Competes;
    ExpiringKeysRefineHistory(policy, calls);
    ReferenceDecides(policy, [], calls, i);
    var decisions := Decisions(policy, map[], calls);
    assert [] + AllowedAmong(calls, decisions, i) == AllowedAmong(calls, decisions, i);
    AllowedAmongCounts(calls, decisions, i, i);
    AllowedAmongGaps(calls, decisions, i, i, policy.minGapMs);
  }

  // ---- Retry times -----------------------------------------------------------------------------------

  /** Where the processor reschedules a denied call (it waits at least one millisecond). */
  function RetryAt(call: Call, decision: Decision): int
  {
    call.now + if decision.retryAfterMs > 1 then decision.retryAfterMs else 1
  }

  /** A gap refusal names the first instant at which the gap is over. */
  lemma GapRetryIsExact(policy: Policy, keys: Keys, history: seq<Allow>, clock: int, call: Call, t: int)
    requires Coupled(policy, keys, history, clock) && OnClock(call, clock)
    requires !GapClear(history, call.sender, policy.minGapMs, call.now)
    ensures !Check(policy, keys, call).1.allowed
    ensures GapClear(history, call.sender, policy.minGapMs, t) <==> t >= RetryAt(call, Check(policy, keys, call).1)
  {
    GapCheckIsExact(policy, keys, history, clock, call);
    LastAllowIsLatest(history, call.sender, clock);
  }

  /** An hourly refusal's retry lands between 5 and 6 seconds into the next UTC hour. */
  lemma HourlyRetryLands(policy: Policy, keys: Keys, history: seq<Allow>, clock: int, call: Call)
    requires Coupled(policy, keys, history, clock) && OnClock(call, clock)
    requires GapClear(history, call.sender, policy.minGapMs, call.now)
    requires CountInHour(history, call.sender, call.now / MS_PER_HOUR) >= policy.Cap(call.sender)
    ensures !Check(policy, keys, call).1.allowed
    ensures EndOfHour(call.now) + 5000 <= RetryAt(call, Check(policy, keys, call).1) < EndOfHour(call.now) + 6000
  {
    GapCheckIsExact(policy, keys, history, clock, call);
    assert CounterOk(policy, keys, history, call.sender, call.now, 0, 0);
    CounterIsLive(policy, keys, history, call, 0, 0);
    TtlCoversHour(call.now);
  }

  /**
   It is exactly the instant at which the counter expires, so all refusals of one hour name the same one; only
   when the cap is zero and there is no counter is it reckoned from the call.
   */
  lemma HourlyRetryIsTheExpiry(policy: Policy, keys: Keys, history: seq<Allow>, clock: int, call: Call)
    requires Coupled(policy, keys, history, clock) && OnClock(call, clock)
    requires GapClear(history, call.sender, policy.minGapMs, call.now)
    requires !Check(policy, keys, call).1.allowed
    ensures var counter := "rl:" + call.sender + ":" + policy.bucket(call.now);
            if CountInHour(history, call.sender, call.now / MS_PER_HOUR) > 0
            then counter in keys && keys[counter].expiresAt == Some(call.now + Check(policy, keys, call).1.retryAfterMs)
            else counter !in keys && Check(policy, keys, call).1.retryAfterMs == SecondsToEndOfHour(call.now) * 1000
  {
    GapCheckIsExact(policy, keys, history, clock, call);
    assert CounterOk(policy, keys, history, call.sender, call.now, 0, 0);
    CounterIsLive(policy, keys, history, call, 0, 0);
    TtlCoversHour(call.now);
  }

  function OnlySender(history: seq<Allow>, sender: string): seq<Allow>
  {
    if history == [] then []
    else
      var last := history[|history| - 1];
      OnlySender(history[..|history| - 1], sender) + if last.sender == sender then [last] else []
  }

  lemma {:induction false} OnlySenderMatters(history: seq<Allow>, sender: string, gap: int, t: int, hour: nat)
    ensures GapClear(history, sender, gap, t) <==> GapClear(OnlySender(history, sender), sender, gap, t)
    ensures CountInHour(history, sender, hour) == CountInHour(OnlySender(history, sender), sender, hour)
  {
    if history != [] {
      var n := |history| - 1;
      var init, last := history[..n], history[n];
      OnlySenderMatters(init, sender, gap, t, hour);
      assert history == init + [last];
      GapClearAppend(init, last, sender, gap, t);
      if last.sender == sender {
        GapClearAppend(OnlySender(init, sender), last, sender, gap, t);
        CountAppend(OnlySender(init, sender), last, sender, hour);
      } else {
        assert OnlySender(history, sender) == OnlySender(init, sender);
      }
    }
  }

  lemma GapClearAppend(history: seq<Allow>, a: Allow, sender: string, gap: int, t: int)
    ensures GapClear(history + [a], sender, gap, t)
       <==> GapClear(history, sender, gap, t) && (a.sender == sender ==> t - a.now >= gap)
  {
    var longer := history + [a];
    assert forall i :: 0 <= i < |history| ==> longer[i] == history[i];
    assert longer[|history|] == a;
  }

  lemma {:induction false} NoAllowsAhead(history: seq<Allow>, sender: string, clock: int, hour: nat)
    requires InOrder(history, clock) && clock < hour * MS_PER_HOUR
    ensures CountInHour(history, sender, hour) == 0
  {
    if history != [] {
      NoAllowsAhead(history[..|history| - 1], sender, clock, hour);
    }
  }

  /** One moment at which a sender's job asks the limiter. */
  ghost predicate Asks(policy: Policy, keys: Keys, history: seq<Allow>, call: Call)
  {
    Coupled(policy, keys, history, call.at) && OnClock(call, call.at)
  }

  lemma LaterHour(t: nat, u: nat)
    requires u >= EndOfHour(t)
    ensures u / MS_PER_HOUR * MS_PER_HOUR >= EndOfHour(t) > t
  {
  }

  lemma HourlyRetryIsLater(policy: Policy, keys: Keys, history: seq<Allow>, call: Call, now: nat)
    requires Asks(policy, keys, history, call) && GapClear(history, call.sender, policy.minGapMs, call.now)
    requires CountInHour(history, call.sender, call.now / MS_PER_HOUR) >= policy.Cap(call.sender)
    requires now >= RetryAt(call, Check(policy, keys, call).1)
    ensures CountInHour(history, call.sender, now / MS_PER_HOUR) == 0
  {
    HourlyRetryLands(policy, keys, history, call.at, call);
    LaterHour(call.now, now);
    NoAllowsAhead(history, call.sender, call.at, now / MS_PER_HOUR);
  }

  /** After a refusal, a retry no sooner than told finds a clear gap, or a later hour, or both. */
  lemma RetryMakesProgress(policy: Policy, keys0: Keys, history0: seq<Allow>, call0: Call,
                           history1: seq<Allow>, call1: Call)
    requires Asks(policy, keys0, history0, call0) && !Check(policy, keys0, call0).1.allowed
    requires call1.sender == call0.sender && call1.now >= RetryAt(call0, Check(policy, keys0, call0).1)
    requires OnlySender(history1, call0.sender) == OnlySender(history0, call0.sender)
    ensures GapClear(history1, call0.sender, policy.minGapMs, call1.now)
    ensures GapClear(history0, call0.sender, policy.minGapMs, call0.now) ==>
              CountInHour(history1, call0.sender, call1.now / MS_PER_HOUR) == 0
  {
    hide Check, OnlySender;
    var s := call0.sender;
    OnlySenderMatters(history0, s, policy.minGapMs, call1.now, call1.now / MS_PER_HOUR);
    OnlySenderMatters(history1, s, policy.minGapMs, call1.now, call1.now / MS_PER_HOUR);
    CallRefines(policy, keys0, history0, call0.at, call0);
    if GapClear(history0, s, policy.minGapMs, call0.now) {
      HourlyRetryIsLater(policy, keys0, history0, call0, call1.now);
    } else {
      GapRetryIsExact(policy, keys0, history0, call0.at, call0, call1.now);
    }
  }

  /**
   With a positive cap and no other allow for the sender in between, a job that retries no sooner
   than told is refused at most twice.
   */
  lemma AtMostTwoDeferrals(policy: Policy,
                           keys0: Keys, history0: seq<Allow>, call0: Call,
                           keys1: Keys, history1: seq<Allow>, call1: Call,
                           keys2: Keys, history2: seq<Allow>, call2: Call)
    requires Asks(policy, keys0, history0, call0)
    requires Asks(policy, keys1, history1, call1)
    requires Asks(policy, keys2, history2, call2)
    requires call0.sender == call1.sender == call2.sender && policy.Cap(call0.sender) >= 1
    requires OnlySender(history0, call0.sender) == OnlySender(history1, call0.sender) == OnlySender(history2, call0.sender)
    requires !Check(policy, keys0, call0).1.allowed && call1.now >= RetryAt(call0, Check(policy, keys0, call0).1)
    requires !Check(policy, keys1, call1).1.allowed && call2.now >= RetryAt(call1, Check(policy, keys1, call1).1)
    ensures Check(policy, keys2, call2).1.allowed
  {
    RetryMakesProgress(policy, keys0, history0, call0, history1, call1);
    RetryMakesProgress(policy, keys1, history1, call1, history2, call2);
    CallRefines(policy, keys2, history2, call2.at, call2);
  }
}
