/**
 The UTC hour bucket that names a rate-limit counter.

 `hourBucket` (backend/src/queue/rateLimiter.ts) reads the UTC fields of a JavaScript `Date` and
 concatenates them, zero padded.  The fields follow section 21.4.1 of ECMA-262 (days, years and
 months of the proleptic Gregorian calendar).  The result of this module is that the name is a
 faithful code for the hour: `HourOfBucket` reads the hour number back from the string.
 */
module Calendar {
  const MS_PER_HOUR := 60 * 60 * 1000
  const MS_PER_DAY := 24 * MS_PER_HOUR
  // Largest time value of a valid Date (TimeClip in ECMA-262); later Dates are NaN.
  const MAX_TIME := 8_640_000_000_000_000

  // ---- Dates -------------------------------------------------------------------------------

  predicate IsLeap(y: nat)
  {
    y % 4 == 0 && (y % 100 != 0 || y % 400 == 0)
  }

  /** Days from the epoch to the first day of year `y`. */
  function DayFromYear(y: nat): nat
  {
    if y <= 1970 then 0 else DayFromYear(y - 1) + if IsLeap(y - 1) then 366 else 365
  }

  lemma StepFour(y: nat)
    ensures (y - 1968) / 4 == (y - 1969) / 4 + if y % 4 == 0 then 1 else 0
  {
  }

  lemma StepHundred(y: nat)
    ensures (y - 1900) / 100 == (y - 1901) / 100 + if y % 100 == 0 then 1 else 0
  {
  }

  lemma StepFourHundred(y: nat)
    ensures (y - 1600) / 400 == (y - 1601) / 400 + if y % 400 == 0 then 1 else 0
  {
  }

  lemma MultiplesNest(y: nat)
    ensures y % 400 == 0 ==> y % 100 == 0
    ensures y % 100 == 0 ==> y % 4 == 0
  {
    if y % 400 == 0 {
      assert y == 100 * (4 * (y / 400));
    }
    if y % 100 == 0 {
      assert y == 4 * (25 * (y / 100));
    }
  }

  /** Leap years from 1970 up to, but without, year `y`. */
  function LeapsBefore(y: nat): int
  {
    (y - 1969) / 4 - (y - 1901) / 100 + (y - 1601) / 400
  }

  lemma LeapsStep(y: nat)
    ensures LeapsBefore(y + 1) == LeapsBefore(y) + if IsLeap(y) then 1 else 0
  {
    StepFour(y);
    StepHundred(y);
    StepFourHundred(y);
    MultiplesNest(y);
  }

  /** The closed formula of ECMA-262, section 21.4.1. */
  lemma {:induction false} DayFromYearFormula(y: nat)
    requires y >= 1970
    ensures DayFromYear(y) == 365 * (y - 1970) + LeapsBefore(y)
  {
    if y > 1970 {
      DayFromYearFormula(y - 1);
      LeapsStep(y - 1);
    }
  }

  /** The largest year at or after `y` that has begun on `day`. */
  function YearFrom(day: nat, y: nat): (year: nat)
    requires y >= 1970 && DayFromYear(y) <= day
    ensures year >= 1970 && DayFromYear(year) <= day < DayFromYear(year + 1)
    decreases day - DayFromYear(y)
  {
    if DayFromYear(y + 1) <= day then YearFrom(day, y + 1) else y
  }

  function YearOf(t: nat): nat
  {
    YearFrom(t / MS_PER_DAY, 1970)
  }

  function DayWithinYear(t: nat): (d: nat)
    ensures d < if IsLeap(YearOf(t)) then 366 else 365
  {
    t / MS_PER_DAY - DayFromYear(YearOf(t))
  }

  /** Days of the year that come before month `m` (0 is January). */
  function DaysBefore(m: nat, leap: bool): nat
  {
    var extra := if leap then 1 else 0;
    if m == 0 then 0
    else if m == 1 then 31
    else if m == 2 then 59 + extra
    else if m == 3 then 90 + extra
    else if m == 4 then 120 + extra
    else if m == 5 then 151 + extra
    else if m == 6 then 181 + extra
    else if m == 7 then 212 + extra
    else if m == 8 then 243 + extra
    else if m == 9 then 273 + extra
    else if m == 10 then 304 + extra
    else if m == 11 then 334 + extra
    else 365 + extra
  }

  function MonthFrom(d: nat, leap: bool, m: nat): (month: nat)
    requires m <= 11 && DaysBefore(m, leap) <= d < DaysBefore(12, leap)
    ensures month <= 11 && DaysBefore(month, leap) <= d < DaysBefore(month + 1, leap)
    decreases 11 - m
  {
    if DaysBefore(m + 1, leap) <= d then MonthFrom(d, leap, m + 1) else m
  }

  function MonthOf(t: nat): (month: nat)
    ensures month <= 11
  {
    MonthFrom(DayWithinYear(t), IsLeap(YearOf(t)), 0)
  }

  function DateOf(t: nat): (date: nat)
    ensures 1 <= date <= 31
  {
    DayWithinYear(t) - DaysBefore(MonthOf(t), IsLeap(YearOf(t))) + 1
  }

  function HourOfDay(t: nat): (h: nat)
    ensures h <= 23
  {
    t / MS_PER_HOUR % 24
  }

  /** The hour number (hours since the epoch) of a calendar hour. */
  function HourNumber(year: nat, month: nat, date: nat, hour: nat): int
  {
    24 * (DayFromYear(year) + DaysBefore(month, IsLeap(year)) + date - 1) + hour
  }

  lemma FieldsDetermineHour(t: nat)
    ensures HourNumber(YearOf(t), MonthOf(t), DateOf(t), HourOfDay(t)) == t / MS_PER_HOUR
  {
    var day := t / MS_PER_DAY;
    assert DayFromYear(YearOf(t)) + DayWithinYear(t) == day;
    assert t / MS_PER_HOUR / 24 == day;
  }

  // ---- Decimal strings ---------------------------------------------------------------------

  function Digit(n: nat): char
    requires n < 10
  {
    "0123456789"[n]
  }

  function Decimal(n: nat): string
  {
    if n < 10 then [Digit(n)] else Decimal(n / 10) + [Digit(n % 10)]
  }

  function PadStart(s: string, len: nat): string
    decreases len - |s|
  {
    if |s| >= len then s else PadStart("0" + s, len)
  }

  function DigitValue(c: char): nat
  {
    if '0' <= c <= '9' then (c - '0') as nat else 0
  }

  function Value(s: string): nat
  {
    if s == "" then 0 else 10 * Value(s[..|s| - 1]) + DigitValue(s[|s| - 1])
  }

  predicate AllDigits(s: string)
  {
    forall i :: 0 <= i < |s| ==> '0' <= s[i] <= '9'
  }

  lemma {:induction false} DecimalValue(n: nat)
    ensures Value(Decimal(n)) == n && AllDigits(Decimal(n)) && |Decimal(n)| >= 1
    ensures n < 100 ==> |Decimal(n)| <= 2
  {
    assert forall d: nat :: d < 10 ==> DigitValue(Digit(d)) == d && '0' <= Digit(d) <= '9';
    if n < 10 {
      assert Decimal(n)[..0] == "";
    } else {
      DecimalValue(n / 10);
      assert Decimal(n)[..|Decimal(n)| - 1] == Decimal(n / 10);
    }
  }

  lemma {:induction false} LeadingZero(s: string)
    ensures Value("0" + s) == Value(s)
  {
    if s == "" {
      assert ("0" + s)[..0] == "";
    } else {
      assert ("0" + s)[..|s|] == "0" + s[..|s| - 1];
      LeadingZero(s[..|s| - 1]);
    }
  }

  lemma {:induction false} PadValue(s: string, len: nat)
    ensures Value(PadStart(s, len)) == Value(s)
    ensures AllDigits(s) ==> AllDigits(PadStart(s, len))
    ensures |PadStart(s, len)| == if |s| >= len then |s| else len
    decreases len - |s|
  {
    if |s| < len {
      LeadingZero(s);
      PadValue("0" + s, len);
    }
  }

  function Padded(n: nat, len: nat): string
  {
    PadStart(Decimal(n), len)
  }

  lemma PaddedRoundTrip(n: nat, len: nat)
    ensures Value(Padded(n, len)) == n && AllDigits(Padded(n, len))
    ensures n < 100 && len == 2 ==> |Padded(n, len)| == 2
  {
    DecimalValue(n);
    PadValue(Decimal(n), len);
  }

  // ---- The bucket --------------------------------------------------------------------------

  /** A Date past MAX_TIME is NaN: every field prints as "NaN". */
  const INVALID_BUCKET: string := PadStart("NaN", 4) + "NaN" + "NaN" + "NaN"

  function HourBucket(t: nat): string
  {
    if t <= MAX_TIME
    then Padded(YearOf(t), 4) + Padded(MonthOf(t) + 1, 2) + Padded(DateOf(t), 2) + Padded(HourOfDay(t), 2)
    else INVALID_BUCKET
  }

  /** Reads a bucket name back: the last six characters are month, day and hour. */
  function HourOfBucket(b: string): int
    requires |b| >= 6
  {
    var n := |b| - 6;
    var month := Value(b[n..n + 2]);
    HourNumber(Value(b[..n]), if month >= 1 then month - 1 else 0, Value(b[n + 2..n + 4]), Value(b[n + 4..]))
  }

  lemma FieldsOfBucket(y: string, m: string, d: string, h: string)
    requires |m| == |d| == |h| == 2
    ensures var b := y + m + d + h;
            var n := |b| - 6;
            n == |y| && b[..n] == y && b[n..n + 2] == m && b[n + 2..n + 4] == d && b[n + 4..] == h
  {
  }

  lemma ReadFields(y: string, m: string, d: string, h: string)
    requires |m| == |d| == |h| == 2 && Value(m) >= 1
    requires AllDigits(y) && AllDigits(m) && AllDigits(d) && AllDigits(h)
    ensures var b := y + m + d + h;
            && |b| >= 6 && AllDigits(b)
            && HourOfBucket(b) == HourNumber(Value(y), Value(m) - 1, Value(d), Value(h))
  {
    FieldsOfBucket(y, m, d, h);
  }

  lemma BucketRoundTrip(t: nat)
    requires t <= MAX_TIME
    ensures |HourBucket(t)| >= 6 && AllDigits(HourBucket(t))
    ensures HourOfBucket(HourBucket(t)) == t / MS_PER_HOUR
  {
    PaddedRoundTrip(YearOf(t), 4);
    PaddedRoundTrip(MonthOf(t) + 1, 2);
    PaddedRoundTrip(DateOf(t), 2);
    PaddedRoundTrip(HourOfDay(t), 2);
    ReadFields(Padded(YearOf(t), 4), Padded(MonthOf(t) + 1, 2), Padded(DateOf(t), 2), Padded(HourOfDay(t), 2));
    FieldsDetermineHour(t);
  }

  lemma InvalidBucketHasN()
    ensures INVALID_BUCKET == "0NaNNaNNaNNaN" && !AllDigits(INVALID_BUCKET)
  {
    assert PadStart("NaN", 4) == PadStart("0NaN", 4) == "0NaN";
    assert INVALID_BUCKET[1] == 'N';
  }

  lemma SameHourSameFields(t: nat, u: nat)
    requires t / MS_PER_HOUR == u / MS_PER_HOUR
    ensures YearOf(t) == YearOf(u) && MonthOf(t) == MonthOf(u)
    ensures DateOf(t) == DateOf(u) && HourOfDay(t) == HourOfDay(u)
  {
    assert t / MS_PER_DAY == t / MS_PER_HOUR / 24;
    assert u / MS_PER_DAY == u / MS_PER_HOUR / 24;
  }

  /**
   Two instants share a bucket exactly when they lie in the same UTC hour, or when both are past
   the last valid Date.
   */
  lemma SameBucketIffSameHour(t: nat, u: nat)
    ensures HourBucket(t) == HourBucket(u) <==>
            if t <= MAX_TIME && u <= MAX_TIME then t / MS_PER_HOUR == u / MS_PER_HOUR
            else t > MAX_TIME && u > MAX_TIME
  {
    InvalidBucketHasN();
    if t <= MAX_TIME {
      BucketRoundTrip(t);
    }
    if u <= MAX_TIME {
      BucketRoundTrip(u);
    }
    if t <= MAX_TIME && u <= MAX_TIME && t / MS_PER_HOUR == u / MS_PER_HOUR {
      SameHourSameFields(t, u);
    }
  }

  /** A way to name hours that tells any two hours apart and never writes the separator ':'. */
  ghost predicate Faithful(bucket: nat -> string)
  {
    && (forall t: nat, u: nat :: t <= MAX_TIME && u <= MAX_TIME ==>
          (bucket(t) == bucket(u) <==> t / MS_PER_HOUR == u / MS_PER_HOUR))
    && (forall t: nat :: t <= MAX_TIME ==> ':' !in bucket(t))
  }

  lemma HourBucketIsFaithful()
    ensures Faithful(HourBucket)
  {
    forall t: nat, u: nat | t <= MAX_TIME && u <= MAX_TIME
      ensures HourBucket(t) == HourBucket(u) <==> t / MS_PER_HOUR == u / MS_PER_HOUR
    {
      SameBucketIffSameHour(t, u);
    }
    forall t: nat | t <= MAX_TIME
      ensures ':' !in HourBucket(t)
    {
      BucketRoundTrip(t);
    }
  }
}
