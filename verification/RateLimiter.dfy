/**
 The per-sender rate limiter (backend/src/queue/rateLimiter.ts): one Lua script over an hourly
 counter and a gap marker, both expiring Redis keys.
 */
module RateLimiter {
  import opened Calendar
  import opened Redis

  datatype Decision = Decision(allowed: bool, retryAfterMs: int)

  /**
   The operator's limits (the default hourly cap, per-sender overrides of it, and the minimum gap),
   and how a UTC hour is named.  The program names hours by `HourBucket`; the results hold for
   every faithful naming.
   */
  datatype Policy = Policy(overrides: map<string, nat>, defaultCap: nat, minGapMs: nat, bucket: nat -> string)
  {
    function Cap(sender: string): nat
    {
      if sender in overrides then overrides[sender] else defaultCap
    }

    function HourKey(sender: string, now: nat): string
    {
      "rl:" + sender + ":" + bucket(now)
    }

    ghost predicate Faithful()
    {
      Calendar.Faithful(bucket)
    }
  }

  /** One call: the caller's clock reading `now`, and Redis's clock `at` when the script runs. */
  datatype Call = Call(caller: nat, sender: string, now: nat, at: int)

  function GapKey(sender: string): string
  {
    "gap:" + sender
  }

  /** Whole seconds to the end of the UTC hour, rounded up, plus a 5 second buffer. */
  function SecondsToEndOfHour(now: nat): nat
  {
    (MS_PER_HOUR - now % MS_PER_HOUR + 999) / 1000 + 5
  }

  /** What the script replies, and the keys it leaves behind. */
  function Script(keys: Keys, at: int, hourKey: string, gapKey: string,
                  maxPerHour: int, minGapMs: int, now: int, hourTtl: int): (Keys, Decision)
  {
    var last := Get(keys, gapKey, at);
    var count := Get(keys, hourKey, at);
    if minGapMs > 0 && last.Some? && now - last.value < minGapMs then
      (keys, Decision(false, minGapMs - (now - last.value)))
    else if (if count.Some? then count.value else 0) >= maxPerHour then
      var pttl := Pttl(keys, hourKey, at);
      (keys, Decision(false, if pttl < 0 then hourTtl * 1000 else pttl))
    else
      var counted := Expire(Incr(keys, hourKey, at), hourKey, hourTtl, at);
      (if minGapMs > 0 then SetPx(counted, gapKey, now, minGapMs, at) else counted, Decision(true, 0))
  }

  function Check(policy: Policy, keys: Keys, call: Call): (Keys, Decision)
  {
    Script(keys, call.at, policy.HourKey(call.sender, call.now), GapKey(call.sender),
           policy.Cap(call.sender), policy.minGapMs, call.now, SecondsToEndOfHour(call.now))
  }

  // ---- The script and its caller, as they run ------------------------------------------------

  method RateLimitScript(redis: Server, hourKey: string, gapKey: string,
                         maxPerHour: int, minGapMs: int, now: int, hourTtl: int)
    returns (reply: Decision)
    modifies redis`keys
    ensures (redis.keys, reply) == Script(old(redis.keys), redis.clock, hourKey, gapKey,
                                          maxPerHour, minGapMs, now, hourTtl)
    ensures !reply.allowed ==> redis.keys == old(redis.keys)
  {
    if minGapMs > 0 {
      var last := redis.GetKey(gapKey);
      if last.Some? {
        var elapsed := now - last.value;
        if elapsed < minGapMs {
          return Decision(false, minGapMs - elapsed);
        }
      }
    }
    var stored := redis.GetKey(hourKey);
    var count := if stored.Some? then stored.value else 0;
    if count >= maxPerHour {
      var pttl := redis.PttlKey(hourKey);
      if pttl < 0 {
        pttl := hourTtl * 1000;
      }
      return Decision(false, pttl);
    }
    redis.IncrKey(hourKey);
    redis.ExpireKey(hourKey, hourTtl);
    if minGapMs > 0 {
      redis.SetKeyPx(gapKey, now, minGapMs);
    }
    reply := Decision(true, 0);
  }

  method CheckSenderRateLimit(redis: Server, policy: Policy, caller: nat, sender: string, now: nat)
    returns (decision: Decision)
    modifies redis`keys
    ensures (redis.keys, decision) == Check(policy, old(redis.keys), Call(caller, sender, now, redis.clock))
    ensures var last := Get(old(redis.keys), "gap:" + sender, redis.clock);
            var count := Get(old(redis.keys), "rl:" + sender + ":" + policy.bucket(now), redis.clock);
            decision.allowed <==>
              && (policy.minGapMs > 0 && last.Some? ==> now - last.value >= policy.minGapMs)
              && (if count.Some? then count.value else 0)
                 < if sender in policy.overrides then policy.overrides[sender] else policy.defaultCap
  {
    decision := RateLimitScript(redis, policy.HourKey(sender, now), GapKey(sender),
                                policy.Cap(sender), policy.minGapMs, now, SecondsToEndOfHour(now));
  }

  // ---- Key names -----------------------------------------------------------------------------

  lemma LastColon(s: string, b: string)
    requires ':' !in b
    ensures var k := s + ":" + b;
            k[|s|] == ':' && forall i :: |s| < i < |k| ==> k[i] != ':'
  {
  }

  lemma ColonSplits(s1: string, b1: string, s2: string, b2: string)
    requires ':' !in b1 && ':' !in b2
    requires s1 + ":" + b1 == s2 + ":" + b2
    ensures s1 == s2 && b1 == b2
  {
    LastColon(s1, b1);
    LastColon(s2, b2);
    var k := s1 + ":" + b1;
    assert |s1| == |s2|;
    assert k[..|s1|] == s1 && k[..|s2|] == s2;
    assert k[|s1| + 1..] == b1 && k[|s2| + 1..] == b2;
  }

  lemma PrefixCancels(p: string, a: string, b: string)
    requires p + a == p + b
    ensures a == b
  {
    assert (p + a)[|p|..] == a && (p + b)[|p|..] == b;
  }

  lemma NameIsPrefixed(s: string, b: string)
    ensures "rl:" + s + ":" + b == "rl:" + (s + ":" + b)
  {
  }

  lemma NamesSplit(s1: string, b1: string, s2: string, b2: string)
    requires ':' !in b1 && ':' !in b2
    requires "rl:" + s1 + ":" + b1 == "rl:" + s2 + ":" + b2
    ensures s1 == s2 && b1 == b2
  {
    NameIsPrefixed(s1, b1);
    NameIsPrefixed(s2, b2);
    PrefixCancels("rl:", s1 + ":" + b1, s2 + ":" + b2);
    ColonSplits(s1, b1, s2, b2);
  }

  /**
   Two calls use the same counter exactly when they have the same sender and fall in the same UTC
   hour, whatever characters a sender id holds.
   */
  lemma SameCounterIffSameHour(policy: Policy, s1: string, t1: nat, s2: string, t2: nat)
    requires policy.Faithful() && t1 <= MAX_TIME && t2 <= MAX_TIME
    ensures policy.HourKey(s1, t1) == policy.HourKey(s2, t2) <==>
            s1 == s2 && t1 / MS_PER_HOUR == t2 / MS_PER_HOUR
  {
    if policy.HourKey(s1, t1) == policy.HourKey(s2, t2) {
      NamesSplit(s1, policy.bucket(t1), s2, policy.bucket(t2));
    }
  }

  lemma GapNamesDiffer(policy: Policy, s1: string, s2: string, now: nat)
    ensures GapKey(s1) == GapKey(s2) <==> s1 == s2
    ensures GapKey(s1) != policy.HourKey(s2, now)
  {
    assert GapKey(s1)[4..] == s1 && GapKey(s2)[4..] == s2;
    assert GapKey(s1)[0] == 'g' && policy.HourKey(s2, now)[0] == 'r';
  }
}
