/**
 What the expiring-key limiter guarantees, measured against the whole history of allowed sends.

 A history lists every allowed call in order.  The relation `CounterOk` says that an hourly counter
 holds exactly the number of allows of its sender and hour, and lives long enough past the end of
 that hour; everything else follows from it.
 */
module LimiterTheory {
  import opened Calendar
  import opened Redis
  import opened RateLimiter
  import opened Wrappers

  datatype Allow = Allow(caller: nat, sender: string, now: nat)

  function CountInHour(history: seq<Allow>, sender: string, hour: nat): nat
  {
    if history == [] then 0
    else
      var last := history[|history| - 1];
      CountInHour(history[..|history| - 1], sender, hour)
      + if last.sender == sender && last.now / MS_PER_HOUR == hour then 1 else 0
  }

  lemma CountAppend(history: seq<Allow>, a: Allow, sender: string, hour: nat)
    ensures CountInHour(history + [a], sender, hour)
         == CountInHour(history, sender, hour) + if a.sender == sender && a.now / MS_PER_HOUR == hour then 1 else 0
  {
    assert (history + [a])[..|history|] == history;
  }

  /** The history after one call: an allow is appended, a denial leaves no trace. */
  function Record(policy: Policy, keys: Keys, history: seq<Allow>, call: Call): seq<Allow>
  {
    if Check(policy, keys, call).1.allowed then history + [Allow(call.caller, call.sender, call.now)] else history
  }

  function EndOfHour(t: nat): nat
  {
    (t / MS_PER_HOUR + 1) * MS_PER_HOUR
  }

  lemma TtlCoversHour(now: nat)
    ensures EndOfHour(now) + 5000 <= now + SecondsToEndOfHour(now) * 1000 < EndOfHour(now) + 6000
  {
    assert now == now / MS_PER_HOUR * MS_PER_HOUR + now % MS_PER_HOUR;
  }

  // ---- Counters under clock skew ---------------------------------------------------------------

  /** How far Redis's clock runs ahead of the caller's in this call. */
  function Skew(call: Call): int
  {
    call.at - call.now
  }

  // The spread of skews that a counter's lifetime absorbs: the 5 second buffer, and one more
  // because a key is still readable in the millisecond it expires.
  const TOLERANCE := 5001

  /** The counter of `t`'s hour, when every skew so far lies between `lo` and `hi`. */
  ghost predicate CounterOk(policy: Policy, keys: Keys, history: seq<Allow>, sender: string, t: nat, lo: int, hi: int)
  {
    var key := policy.HourKey(sender, t);
    var n := CountInHour(history, sender, t / MS_PER_HOUR);
    if n == 0 then key !in keys
    else
      && key in keys
      && keys[key].value == n
      && keys[key].expiresAt.Some?
      && EndOfHour(t) + lo + 5000 <= keys[key].expiresAt.value < EndOfHour(t) + hi + 6000
  }

  ghost predicate CountersOk(policy: Policy, keys: Keys, history: seq<Allow>, lo: int, hi: int)
  {
    forall sender: string, t: nat :: t <= MAX_TIME ==> CounterOk(policy, keys, history, sender, t, lo, hi)
  }

  /** A call that names the hour while its skew is tolerated reads the true count. */
  lemma CounterIsLive(policy: Policy, keys: Keys, history: seq<Allow>, call: Call, lo: int, hi: int)
    requires policy.Faithful() && call.now <= MAX_TIME && lo <= Skew(call) <= hi <= lo + TOLERANCE
    requires CounterOk(policy, keys, history, call.sender, call.now, lo, hi)
    ensures var stored := Get(keys, policy.HourKey(call.sender, call.now), call.at);
            (if stored.Some? then stored.value else 0)
            == CountInHour(history, call.sender, call.now / MS_PER_HOUR)
  {
    assert call.now < EndOfHour(call.now);
  }

  lemma AllowedCall(policy: Policy, keys: Keys, history: seq<Allow>, call: Call, lo: int, hi: int)
    requires policy.Faithful() && call.now <= MAX_TIME && lo <= Skew(call) <= hi <= lo + TOLERANCE
    requires CounterOk(policy, keys, history, call.sender, call.now, lo, hi)
    requires Check(policy, keys, call).1.allowed
    ensures CountInHour(history, call.sender, call.now / MS_PER_HOUR) < policy.Cap(call.sender)
    ensures var keys', key := Check(policy, keys, call).0, policy.HourKey(call.sender, call.now);
            && key in keys'
            && keys'[key] == Entry(CountInHour(history, call.sender, call.now / MS_PER_HOUR) + 1,
                                   Some(call.at + SecondsToEndOfHour(call.now) * 1000))
            && forall k :: k != key && k != GapKey(call.sender) ==>
                 (k in keys' <==> k in keys) && (k in keys ==> keys'[k] == keys[k])
  {
    CounterIsLive(policy, keys, history, call, lo, hi);
    GapNamesDiffer(policy, call.sender, call.sender, call.now);
  }

  lemma CheckKeepsCounter(policy: Policy, keys: Keys, history: seq<Allow>, call: Call, lo: int, hi: int,
                          sender: string, t: nat)
    requires policy.Faithful() && call.now <= MAX_TIME && lo <= Skew(call) <= hi <= lo + TOLERANCE
    requires CounterOk(policy, keys, history, call.sender, call.now, lo, hi)
    requires t <= MAX_TIME && CounterOk(policy, keys, history, sender, t, lo, hi)
    ensures CounterOk(policy, Check(policy, keys, call).0, Record(policy, keys, history, call), sender, t, lo, hi)
  {
    if Check(policy, keys, call).1.allowed {
      AllowedCall(policy, keys, history, call, lo, hi);
      CountAppend(history, Allow(call.caller, call.sender, call.now), sender, t / MS_PER_HOUR);
      SameCounterIffSameHour(policy, sender, t, call.sender, call.now);
      GapNamesDiffer(policy, call.sender, sender, t);
      TtlCoversHour(call.now);
    }
  }

  lemma CheckKeepsCounters(policy: Policy, keys: Keys, history: seq<Allow>, call: Call, lo: int, hi: int)
    requires policy.Faithful() && call.now <= MAX_TIME && lo <= Skew(call) <= hi <= lo + TOLERANCE
    requires CountersOk(policy, keys, history, lo, hi)
    ensures CountersOk(policy, Check(policy, keys, call).0, Record(policy, keys, history, call), lo, hi)
  {
    forall sender: string, t: nat | t <= MAX_TIME
      ensures CounterOk(policy, Check(policy, keys, call).0, Record(policy, keys, history, call), sender, t, lo, hi)
    {
      CheckKeepsCounter(policy, keys, history, call, lo, hi, sender, t);
    }
  }

  /** A sender's own number binds it if it has one, and the default otherwise. */
  ghost predicate WithinCaps(policy: Policy, history: seq<Allow>)
  {
    forall sender: string, hour: nat ::
      CountInHour(history, sender, hour) <= if sender in policy.overrides then policy.overrides[sender] else policy.defaultCap
  }

  lemma CheckKeepsCaps(policy: Policy, keys: Keys, history: seq<Allow>, call: Call, lo: int, hi: int)
    requires policy.Faithful() && call.now <= MAX_TIME && lo <= Skew(call) <= hi <= lo + TOLERANCE
    requires CountersOk(policy, keys, history, lo, hi) && WithinCaps(policy, history)
    ensures WithinCaps(policy, Record(policy, keys, history, call))
  {
    if Check(policy, keys, call).1.allowed {
      AllowedCall(policy, keys, history, call, lo, hi);
      forall sender: string, hour: nat
        ensures CountInHour(Record(policy, keys, history, call), sender, hour)
             <= if sender in policy.overrides then policy.overrides[sender] else policy.defaultCap
      {
        CountAppend(history, Allow(call.caller, call.sender, call.now), sender, hour);
      }
    }
  }

  // ---- Runs of calls -----------------------------------------------------------------------------

  function KeysAfter(policy: Policy, keys: Keys, calls: seq<Call>): Keys
    decreases |calls|
  {
    if calls == [] then keys else KeysAfter(policy, Check(policy, keys, calls[0]).0, calls[1..])
  }

  /** The allows of a run, appended to an earlier history. */
  function HistoryAfter(policy: Policy, keys: Keys, history: seq<Allow>, calls: seq<Call>): seq<Allow>
    decreases |calls|
  {
    if calls == [] then history
    else HistoryAfter(policy, Check(policy, keys, calls[0]).0, Record(policy, keys, history, calls[0]), calls[1..])
  }

  predicate ClocksOk(calls: seq<Call>)
  {
    && (forall i :: 0 <= i < |calls| ==> calls[i].now <= MAX_TIME)
    && (forall i, j :: 0 <= i < j < |calls| ==> calls[i].at <= calls[j].at)
  }

  predicate SkewSpread(calls: seq<Call>, width: int)
  {
    forall i, j :: 0 <= i < |calls| && 0 <= j < |calls| ==> Skew(calls[i]) - Skew(calls[j]) <= width
  }

  predicate SkewBetween(calls: seq<Call>, lo: int, hi: int)
  {
    forall i :: 0 <= i < |calls| ==> lo <= Skew(calls[i]) <= hi
  }

  lemma {:induction false} RunKeepsCaps(policy: Policy, keys: Keys, history: seq<Allow>, calls: seq<Call>,
                                        lo: int, hi: int)
    requires policy.Faithful() && forall i :: 0 <= i < |calls| ==> calls[i].now <= MAX_TIME
    requires SkewBetween(calls, lo, hi) && hi <= lo + TOLERANCE
    requires CountersOk(policy, keys, history, lo, hi) && WithinCaps(policy, history)
    ensures CountersOk(policy, KeysAfter(policy, keys, calls), HistoryAfter(policy, keys, history, calls), lo, hi)
    ensures WithinCaps(policy, HistoryAfter(policy, keys, history, calls))
    decreases |calls|
  {
    if calls != [] {
      CheckKeepsCounters(policy, keys, history, calls[0], lo, hi);
      CheckKeepsCaps(policy, keys, history, calls[0], lo, hi);
      RunKeepsCaps(policy, Check(policy, keys, calls[0]).0, Record(policy, keys, history, calls[0]), calls[1..], lo, hi);
    }
  }

  lemma {:induction false} LeastSkew(calls: seq<Call>) returns (lo: int)
    requires calls != []
    ensures forall i :: 0 <= i < |calls| ==> lo <= Skew(calls[i])
    ensures exists i :: 0 <= i < |calls| && lo == Skew(calls[i])
  {
    lo := Skew(calls[0]);
    if |calls| > 1 {
      var rest := LeastSkew(calls[1..]);
      if rest < lo {
        lo := rest;
        var i :| 0 <= i < |calls[1..]| && lo == Skew(calls[1..][i]);
        assert calls[i + 1] == calls[1..][i];
      } else {
        assert Skew(calls[0]) == lo;
      }
      assert forall i :: 1 <= i < |calls| ==> calls[i] == calls[1..][i - 1];
    }
  }

  /**
   No hour of any sender sees more allows than the sender's own number, or the default for a sender without
   one, as long as clock skews differ little.
   */
  lemma CapSurvivesSkew(policy: Policy, calls: seq<Call>)
    requires policy.Faithful() && ClocksOk(calls) && SkewSpread(calls, TOLERANCE)
    ensures WithinCaps(policy, HistoryAfter(policy, map[], [], calls))
    ensures forall sender: string, hour: nat ::
              CountInHour(HistoryAfter(policy, map[], [], calls), sender, hour)
              <= if sender in policy.overrides then policy.overrides[sender] else policy.defaultCap
  {
    if calls != [] {
      var lo := LeastSkew(calls);
      var least :| 0 <= least < |calls| && lo == Skew(calls[least]);
      assert forall i :: 0 <= i < |calls| ==> Skew(calls[i]) - Skew(calls[least]) <= TOLERANCE;
      RunKeepsCaps(policy, map[], [], calls, lo, lo + TOLERANCE);
    }
  }

  // A second caller whose clock is 5002 ms further behind Redis's than the first one's.
  const EARLY := Call(0, "s", 0, 0)
  const SKEWED := Call(1, "s", MS_PER_HOUR - 1, MS_PER_HOUR + 5001)

  lemma EarlyIsAllowed(policy: Policy)
    requires policy.Cap("s") == 1 && policy.minGapMs == 0
    ensures Check(policy, map[], EARLY)
         == (map[policy.HourKey("s", 0) := Entry(1, Some(MS_PER_HOUR + 5000))], Decision(true, 0))
  {
    var key := policy.HourKey("s", 0);
    var none: Keys := map[];
    assert Incr(none, key, 0) == map[key := Entry(1, None)];
    assert Expire(Incr(none, key, 0), key, 3605, 0) == map[key := Entry(1, Some(MS_PER_HOUR + 5000))];
    assert SecondsToEndOfHour(0) == 3605;
  }

  lemma SkewedIsAllowed(policy: Policy)
    requires policy.Faithful() && policy.Cap("s") == 1 && policy.minGapMs == 0
    ensures Check(policy, map[policy.HourKey("s", 0) := Entry(1, Some(MS_PER_HOUR + 5000))], SKEWED).1.allowed
  {
    SameCounterIffSameHour(policy, "s", EARLY.now, "s", SKEWED.now);
  }

  lemma ClocksOfTwo(c: Call, d: Call, width: int)
    requires c.now <= MAX_TIME && d.now <= MAX_TIME && c.at <= d.at
    requires Skew(c) <= Skew(d) <= Skew(c) + width
    ensures ClocksOk([c, d]) && SkewSpread([c, d], width)
  {
  }

  lemma SkewedClocks()
    ensures ClocksOk([EARLY, SKEWED]) && SkewSpread([EARLY, SKEWED], TOLERANCE + 1)
  {
    ClocksOfTwo(EARLY, SKEWED, TOLERANCE + 1);
  }

  lemma SkewedCallsBreakCap(policy: Policy)
    requires policy.Faithful() && policy.Cap("s") == 1 && policy.minGapMs == 0
    ensures !WithinCaps(policy, HistoryAfter(policy, map[], [], [EARLY, SKEWED]))
  {
    EarlyIsAllowed(policy);
    SkewedIsAllowed(policy);
    RunOfTwo(policy, map[], [], EARLY, SKEWED);
    var a, b := Allow(0, "s", 0), Allow(1, "s", MS_PER_HOUR - 1);
    assert HistoryAfter(policy, map[], [], [EARLY, SKEWED]) == [] + [a] + [b];
    TwoInHourZero(a, b);
  }

  lemma TwoInHourZero(a: Allow, b: Allow)
    requires a.sender == b.sender == "s" && a.now < MS_PER_HOUR && b.now < MS_PER_HOUR
    ensures CountInHour([] + [a] + [b], "s", 0) == 2
  {
    assert a.now / MS_PER_HOUR == 0 && b.now / MS_PER_HOUR == 0;
    CountAppend([], a, "s", 0);
    CountAppend([] + [a], b, "s", 0);
  }

  lemma RunOfTwo(policy: Policy, keys: Keys, history: seq<Allow>, c: Call, d: Call)
    ensures HistoryAfter(policy, keys, history, [c, d])
         == Record(policy, Check(policy, keys, c).0, Record(policy, keys, history, c), d)
  {
    assert [c, d][1..] == [d] && [d][1..] == [];
    var (k1, h1) := (Check(policy, keys, c).0, Record(policy, keys, history, c));
    assert HistoryAfter(policy, k1, h1, [d]) == Record(policy, k1, h1, d);
  }

  /** Holds for every policy and every run of calls whose skews spread over at most `width`. */
  ghost predicate CapHolds(policy: Policy, width: int)
  {
    forall calls: seq<Call> :: ClocksOk(calls) && SkewSpread(calls, width)
      ==> WithinCaps(policy, HistoryAfter(policy, map[], [], calls))
  }

  /** The tolerated spread of skews, exactly. */
  lemma SkewToleranceIsExact(bucket: nat -> string, width: nat)
    requires Faithful(bucket)
    ensures (forall overrides: map<string, nat>, cap: nat, gap: nat ::
               CapHolds(Policy(overrides, cap, gap, bucket), width))
        <==> width <= TOLERANCE
  {
    if width <= TOLERANCE {
      forall overrides: map<string, nat>, cap: nat, gap: nat
        ensures CapHolds(Policy(overrides, cap, gap, bucket), width)
      {
        var policy := Policy(overrides, cap, gap, bucket);
        forall calls: seq<Call> | ClocksOk(calls) && SkewSpread(calls, width)
          ensures WithinCaps(policy, HistoryAfter(policy, map[], [], calls))
        {
          CapSurvivesSkew(policy, calls);
        }
      }
    } else {
      SkewedClocks();
      SkewedCallsBreakCap(Policy(map[], 1, 0, bucket));
      assert !CapHolds(Policy(map[], 1, 0, bucket), width);
    }
  }
}
