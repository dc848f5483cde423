/**
 Send-time planning (backend/src/lib/planner.ts).  `PlanSendTime` is the program's closed formula.
 It is characterised here as the least schedule that starts no earlier than `startAt`, keeps
 `delayMs` between consecutive emails and puts at most `hourlyLimit` emails in any half-open hour.
 */
module Planner {
  import opened Calendar
  import opened Wrappers
  import Sets

  datatype PlanError = BadSequenceNumber | BadDelay | BadHourlyLimit

  function Max(a: int, b: int): int
  {
    if a >= b then a else b
  }

  function Planned(startAt: int, n: nat, delayMs: nat, hourlyLimit: nat): int
    requires hourlyLimit >= 1
  {
    startAt + Max(n * delayMs, n / hourlyLimit * MS_PER_HOUR + n % hourlyLimit * delayMs)
  }

  function PlanSendTime(startAt: int, sequenceNumber: int, delayMs: int, hourlyLimit: int): Result<int, PlanError>
  {
    if sequenceNumber < 0 then Err(BadSequenceNumber)
    else if delayMs < 0 then Err(BadDelay)
    else if hourlyLimit < 1 then Err(BadHourlyLimit)
    else Ok(Planned(startAt, sequenceNumber, delayMs, hourlyLimit))
  }

  // ---- What a schedule must satisfy ----------------------------------------------------------

  ghost predicate Spaced(times: seq<int>, delayMs: nat)
  {
    forall i :: 0 <= i < |times| - 1 ==> times[i] + delayMs <= times[i + 1]
  }

  /** The positions whose time falls in the half-open hour that begins at `from`. */
  ghost function InHourFrom(times: seq<int>, from: int): set<nat>
  {
    set i: nat | i < |times| && from <= times[i] < from + MS_PER_HOUR
  }

  ghost predicate HourlyCapped(times: seq<int>, hourlyLimit: nat)
  {
    forall from: int :: |InHourFrom(times, from)| <= hourlyLimit
  }

  ghost predicate IsSchedule(times: seq<int>, startAt: int, delayMs: nat, hourlyLimit: nat)
  {
    && (times != [] ==> startAt <= times[0])
    && Spaced(times, delayMs)
    && HourlyCapped(times, hourlyLimit)
  }

  // ---- The formula: spacing and window recurrence ----------------------------------------------

  lemma MulLe(a: nat, b: nat, c: nat)
    requires a <= b
    ensures a * c <= b * c
  {
  }

  lemma DivModStep(n: nat, limit: nat)
    requires limit >= 1
    ensures n == n / limit * limit + n % limit
    ensures n % limit + 1 < limit ==> (n + 1) / limit == n / limit && (n + 1) % limit == n % limit + 1
    ensures n % limit + 1 == limit ==> (n + 1) / limit == n / limit + 1 && (n + 1) % limit == 0
  {
    var q, r := n / limit, n % limit;
    if r + 1 < limit {
      DivModUnique(n + 1, limit, q, r + 1);
    } else {
      DivModUnique(n + 1, limit, q + 1, 0);
    }
  }

  lemma DivModUnique(n: nat, limit: nat, q: nat, r: nat)
    requires limit >= 1 && r < limit && n == q * limit + r
    ensures n / limit == q && n % limit == r
  {
    var q', r' := n / limit, n % limit;
    assert n == q' * limit + r';
    if q' < q {
      MulLe(q' + 1, q, limit);
    } else if q < q' {
      MulLe(q + 1, q', limit);
    }
  }

  /** The later of spacing and window, for position `r` of window `q`. */
  function Offset(q: nat, r: nat, delayMs: nat, limit: nat): nat
  {
    Max((q * limit + r) * delayMs, q * MS_PER_HOUR + r * delayMs)
  }

  lemma OffsetOf(startAt: int, n: nat, delayMs: nat, limit: nat, q: nat, r: nat)
    requires limit >= 1 && r < limit && n == q * limit + r
    ensures Planned(startAt, n, delayMs, limit) == startAt + Offset(q, r, delayMs, limit)
  {
    DivModUnique(n, limit, q, r);
  }

  lemma MulAdd(a: nat, b: nat, c: nat)
    ensures (a + b) * c == a * c + b * c
  {
  }

  /** The products in `Offset`, in terms of the length of a window's emails, `window`. */
  lemma OffsetParts(q: nat, r: nat, delayMs: nat, limit: nat, window: nat)
    requires window == limit * delayMs
    ensures Offset(q, r, delayMs, limit) == Max(q * window + r * delayMs, q * MS_PER_HOUR + r * delayMs)
    ensures if window >= MS_PER_HOUR then q * window >= q * MS_PER_HOUR else q * window <= q * MS_PER_HOUR
    ensures (q + 1) * window == q * window + window
  {
    MulAdd(q * limit, r, delayMs);
    assert q * limit * delayMs == q * window;
    MulAdd(q, 1, window);
    if window >= MS_PER_HOUR {
      MulLe(MS_PER_HOUR, window, q);
    } else {
      MulLe(window, MS_PER_HOUR, q);
    }
  }

  /** Later terms: both gain `delayMs`, or one window's worth. */
  lemma BothLater(spacing: nat, hours: nat, rest: nat, more: nat)
    ensures Max(spacing + rest, hours + rest) + more <= Max(spacing + (rest + more), hours + (rest + more))
  {
  }

  lemma WindowLater(spacing: nat, hours: nat, rest: nat, window: nat)
    requires if window >= MS_PER_HOUR then spacing >= hours else spacing <= hours
    ensures Max(spacing + rest, hours + rest) + MS_PER_HOUR <= Max(spacing + window + rest, hours + MS_PER_HOUR + rest)
    ensures rest <= window ==>
              Max(spacing + rest, hours + rest) + (window - rest) <= Max(spacing + window, hours + MS_PER_HOUR)
  {
  }

  lemma SpacedInWindow(q: nat, r: nat, delayMs: nat, limit: nat)
    ensures Offset(q, r, delayMs, limit) + delayMs <= Offset(q, r + 1, delayMs, limit)
  {
    hide Offset, Max;
    OffsetParts(q, r, delayMs, limit, limit * delayMs);
    OffsetParts(q, r + 1, delayMs, limit, limit * delayMs);
    MulAdd(r, 1, delayMs);
    BothLater(q * (limit * delayMs), q * MS_PER_HOUR, r * delayMs, delayMs);
  }

  /** From the last email of a window to the next: spacing is the later term, or a window is long enough. */
  lemma SpacedAcrossWindows(q: nat, delayMs: nat, limit: nat)
    requires limit >= 1
    ensures Offset(q, limit - 1, delayMs, limit) + delayMs <= Offset(q + 1, 0, delayMs, limit)
  {
    hide Offset, Max;
    var window, rest := limit * delayMs, (limit - 1) * delayMs;
    OffsetParts(q, limit - 1, delayMs, limit, window);
    OffsetParts(q + 1, 0, delayMs, limit, window);
    MulAdd(limit - 1, 1, delayMs);
    assert window - rest == delayMs && 0 * delayMs == 0;
    WindowLater(q * window, q * MS_PER_HOUR, rest, window);
  }

  lemma NextWindowIsLater(q: nat, r: nat, delayMs: nat, limit: nat)
    ensures Offset(q, r, delayMs, limit) + MS_PER_HOUR <= Offset(q + 1, r, delayMs, limit)
  {
    hide Offset, Max;
    var window := limit * delayMs;
    OffsetParts(q, r, delayMs, limit, window);
    OffsetParts(q + 1, r, delayMs, limit, window);
    WindowLater(q * window, q * MS_PER_HOUR, r * delayMs, window);
  }

  /** Consecutive emails are at least `delayMs` apart. */
  lemma PlanIsSpaced(startAt: int, n: nat, delayMs: nat, limit: nat)
    requires limit >= 1
    ensures Planned(startAt, n, delayMs, limit) + delayMs <= Planned(startAt, n + 1, delayMs, limit)
  {
    hide Planned, Offset;
    var q, r := n / limit, n % limit;
    DivModStep(n, limit);
    OffsetOf(startAt, n, delayMs, limit, q, r);
    if r + 1 < limit {
      OffsetOf(startAt, n + 1, delayMs, limit, q, r + 1);
      SpacedInWindow(q, r, delayMs, limit);
    } else {
      assert n + 1 == (q + 1) * limit;
      OffsetOf(startAt, n + 1, delayMs, limit, q + 1, 0);
      SpacedAcrossWindows(q, delayMs, limit);
    }
  }

  /** The email `hourlyLimit` positions later is at least one hour later. */
  lemma PlanSkipsAnHour(startAt: int, n: nat, delayMs: nat, limit: nat)
    requires limit >= 1
    ensures Planned(startAt, n, delayMs, limit) + MS_PER_HOUR <= Planned(startAt, n + limit, delayMs, limit)
  {
    hide Planned, Offset;
    var q, r := n / limit, n % limit;
    DivModStep(n, limit);
    assert n + limit == (q + 1) * limit + r;
    OffsetOf(startAt, n, delayMs, limit, q, r);
    OffsetOf(startAt, n + limit, delayMs, limit, q + 1, r);
    NextWindowIsLater(q, r, delayMs, limit);
  }

  lemma {:induction false} PlanIsMonotone(startAt: int, m: nat, n: nat, delayMs: nat, limit: nat)
    requires limit >= 1 && m <= n
    ensures Planned(startAt, m, delayMs, limit) + (n - m) * delayMs <= Planned(startAt, n, delayMs, limit)
    decreases n - m
  {
    if m < n {
      PlanIsMonotone(startAt, m, n - 1, delayMs, limit);
      PlanIsSpaced(startAt, n - 1, delayMs, limit);
      assert (n - m) * delayMs == (n - 1 - m) * delayMs + delayMs;
    }
  }

  ghost function Plan(startAt: int, count: nat, delayMs: nat, limit: nat): (times: seq<int>)
    requires limit >= 1
  {
    seq(count, (i: nat) => Planned(startAt, i, delayMs, limit))
  }

  lemma PlanAfterWindow(startAt: int, m: nat, n: nat, delayMs: nat, limit: nat)
    requires limit >= 1 && m + limit <= n
    ensures Planned(startAt, m, delayMs, limit) + MS_PER_HOUR <= Planned(startAt, n, delayMs, limit)
  {
    PlanSkipsAnHour(startAt, m, delayMs, limit);
    PlanIsMonotone(startAt, m + limit, n, delayMs, limit);
    MulLe(0, n - (m + limit), delayMs);
  }

  lemma PlannedAt(startAt: int, count: nat, delayMs: nat, limit: nat, i: nat)
    requires limit >= 1 && i < count
    ensures |Plan(startAt, count, delayMs, limit)| == count
    ensures Plan(startAt, count, delayMs, limit)[i] == Planned(startAt, i, delayMs, limit)
  {
  }

  /** Every half-open hour, wherever it begins, holds at most `hourlyLimit` planned emails. */
  lemma PlanIsCapped(startAt: int, count: nat, delayMs: nat, limit: nat, from: int)
    requires limit >= 1
    ensures |InHourFrom(Plan(startAt, count, delayMs, limit), from)| <= limit
  {
    var plan := Plan(startAt, count, delayMs, limit);
    var s := InHourFrom(plan, from);
    if s != {} {
      var first := Sets.Minimum(s);
      forall i | i in s
        ensures first <= i < first + limit
      {
        if i >= first + limit {
          PlannedAt(startAt, count, delayMs, limit, first);
          PlannedAt(startAt, count, delayMs, limit, i);
          PlanAfterWindow(startAt, first, i, delayMs, limit);
        }
      }
      Sets.SparseSize(s, first, 1, limit);
    }
  }

  // ---- The plan is the least schedule ----------------------------------------------------------

  /** Two emails `hourlyLimit` positions apart cannot share an hour. */
  lemma ScheduleSkipsAnHour(times: seq<int>, startAt: int, delayMs: nat, limit: nat, n: nat)
    requires IsSchedule(times, startAt, delayMs, limit) && n + limit < |times|
    ensures times[n] + MS_PER_HOUR <= times[n + limit]
  {
    if times[n + limit] < times[n] + MS_PER_HOUR {
      var s := InHourFrom(times, times[n]);
      forall i | i in Interval(n, limit + 1)
        ensures i in s
      {
        ScheduleIsMonotone(times, startAt, delayMs, limit, n, i);
        ScheduleIsMonotone(times, startAt, delayMs, limit, i, n + limit);
      }
      Sets.SubsetSize(Interval(n, limit + 1), s);
      assert false;
    }
  }

  ghost function Interval(lo: nat, size: nat): (s: set<nat>)
    ensures |s| == size && forall i :: i in s <==> lo <= i < lo + size
  {
    if size == 0 then {} else Interval(lo, size - 1) + {lo + size - 1}
  }

  lemma {:induction false} ScheduleIsMonotone(times: seq<int>, startAt: int, delayMs: nat, limit: nat, m: nat, n: nat)
    requires IsSchedule(times, startAt, delayMs, limit) && m <= n < |times|
    ensures times[m] + (n - m) * delayMs <= times[n]
    ensures times[m] <= times[n]
    decreases n - m
  {
    if m < n {
      ScheduleIsMonotone(times, startAt, delayMs, limit, m, n - 1);
      assert times[n - 1] + delayMs <= times[n - 1 + 1];
      assert (n - m) * delayMs == (n - 1 - m) * delayMs + delayMs;
    }
  }

  lemma {:induction false} ScheduleFillsWindows(times: seq<int>, startAt: int, delayMs: nat, limit: nat, q: nat, r: nat)
    requires limit >= 1 && IsSchedule(times, startAt, delayMs, limit) && q * limit + r < |times|
    ensures startAt + q * MS_PER_HOUR + r * delayMs <= times[q * limit + r]
    decreases q
  {
    if q == 0 {
      ScheduleIsMonotone(times, startAt, delayMs, limit, 0, r);
    } else {
      assert q * limit + r == (q - 1) * limit + r + limit;
      ScheduleFillsWindows(times, startAt, delayMs, limit, q - 1, r);
      ScheduleSkipsAnHour(times, startAt, delayMs, limit, (q - 1) * limit + r);
    }
  }

  /** Every schedule is at or after the plan, position by position. */
  lemma PlanIsLeast(times: seq<int>, startAt: int, delayMs: nat, limit: nat, n: nat)
    requires limit >= 1 && IsSchedule(times, startAt, delayMs, limit) && n < |times|
    ensures Planned(startAt, n, delayMs, limit) <= times[n]
  {
    ScheduleIsMonotone(times, startAt, delayMs, limit, 0, n);
    assert n == n / limit * limit + n % limit;
    ScheduleFillsWindows(times, startAt, delayMs, limit, n / limit, n % limit);
  }

  /** The plan is itself a schedule, so it is the least one. */
  lemma PlanIsLeastSchedule(startAt: int, count: nat, delayMs: nat, limit: nat)
    requires limit >= 1
    ensures IsSchedule(Plan(startAt, count, delayMs, limit), startAt, delayMs, limit)
    ensures forall times: seq<int> :: |times| == count && IsSchedule(times, startAt, delayMs, limit) ==>
              forall i :: 0 <= i < count ==> Plan(startAt, count, delayMs, limit)[i] <= times[i]
  {
    var plan := Plan(startAt, count, delayMs, limit);
    forall i | 0 <= i < |plan| - 1
      ensures plan[i] + delayMs <= plan[i + 1]
    {
      PlanIsSpaced(startAt, i, delayMs, limit);
    }
    forall from: int
      ensures |InHourFrom(plan, from)| <= limit
    {
      PlanIsCapped(startAt, count, delayMs, limit, from);
    }
    forall times: seq<int>, i | |times| == count && IsSchedule(times, startAt, delayMs, limit) && 0 <= i < count
      ensures plan[i] <= times[i]
    {
      PlanIsLeast(times, startAt, delayMs, limit, i);
    }
  }

  /** A schedule for positions 0 to `n`. */
  ghost predicate SchedulesTo(times: seq<int>, startAt: int, n: nat, delayMs: nat, limit: nat)
  {
    |times| == n + 1 && IsSchedule(times, startAt, delayMs, limit)
  }

  lemma NoScheduleWithoutQuota(times: seq<int>, startAt: int, n: nat, delayMs: nat)
    ensures !SchedulesTo(times, startAt, n, delayMs, 0)
  {
    if |times| == n + 1 {
      assert 0 in InHourFrom(times, times[0]);
    }
  }

  /** Some schedule exists exactly when the quota is positive, and the plan ends earliest of all. */
  lemma PlanEndsEarliest(startAt: int, n: nat, delayMs: nat, limit: nat)
    ensures limit >= 1 <==> exists times :: SchedulesTo(times, startAt, n, delayMs, limit)
    ensures limit >= 1 ==>
              var t := Planned(startAt, n, delayMs, limit);
              && (forall times :: SchedulesTo(times, startAt, n, delayMs, limit) ==> t <= times[n])
              && (exists times :: SchedulesTo(times, startAt, n, delayMs, limit) && times[n] == t)
  {
    if limit == 0 {
      forall times: seq<int>
        ensures !SchedulesTo(times, startAt, n, delayMs, limit)
      {
        NoScheduleWithoutQuota(times, startAt, n, delayMs);
      }
    } else {
      var plan := Plan(startAt, n + 1, delayMs, limit);
      PlanIsLeastSchedule(startAt, n + 1, delayMs, limit);
      assert SchedulesTo(plan, startAt, n, delayMs, limit);
      forall times | SchedulesTo(times, startAt, n, delayMs, limit)
        ensures plan[n] <= times[n]
      {
        PlanIsLeast(times, startAt, delayMs, limit, n);
      }
    }
  }

  /**
   The planner answers exactly when the arguments are not negative and some schedule reaches position
   `n`.  Its answer is at or before the time of position `n` in every schedule, and some schedule attains it.
   */
  lemma PlanSendTimeMeaning(startAt: int, n: int, delayMs: int, limit: int)
    ensures PlanSendTime(startAt, n, delayMs, limit).Ok? <==>
              n >= 0 && delayMs >= 0 && limit >= 0 && exists times :: SchedulesTo(times, startAt, n, delayMs, limit)
    ensures PlanSendTime(startAt, n, delayMs, limit).Ok? ==>
              var t := PlanSendTime(startAt, n, delayMs, limit).value;
              && (forall times :: SchedulesTo(times, startAt, n, delayMs, limit) ==> t <= times[n])
              && (exists times :: SchedulesTo(times, startAt, n, delayMs, limit) && times[n] == t)
    ensures PlanSendTime(startAt, n, delayMs, limit).Err? ==>
              PlanSendTime(startAt, n, delayMs, limit).error
              == if n < 0 then BadSequenceNumber else if delayMs < 0 then BadDelay else BadHourlyLimit
  {
    if n >= 0 && delayMs >= 0 && limit >= 0 {
      PlanEndsEarliest(startAt, n, delayMs, limit);
    }
  }
}
