/** Calendar buckets of ERP analytics (services/erp_analytics.py, _bucket_start and _bucket_end). */
module Calendar {
  /** Instants are microseconds since the start of year 1, UTC; that day was a Monday. */
  const DAY := 86_400_000_000
  const WEEK := 7

  datatype Bucket = ByDay | ByWeek | ByMonth

  predicate IsLeap(year: nat) {
    year % 4 == 0 && (year % 100 != 0 || year % 400 == 0)
  }

  function MonthDays(year: nat, month: nat): nat {
    if month == 2 then if IsLeap(year) then 29 else 28
    else if month == 4 || month == 6 || month == 9 || month == 11 then 30
    else 31
  }

  /** Months are numbered from January of year 1. */
  function LengthOf(m: nat): nat {
    MonthDays(m / 12 + 1, m % 12 + 1)
  }

  /** Days before month m. */
  function MonthStart(m: nat): nat {
    if m == 0 then 0 else MonthStart(m - 1) + LengthOf(m - 1)
  }

  /** The month of day d, searching from month m. */
  function MonthFrom(d: nat, m: nat): (r: nat)
    requires MonthStart(m) <= d
    ensures MonthStart(r) <= d < MonthStart(r + 1)
    decreases d - MonthStart(m)
  {
    if d < MonthStart(m + 1) then m else MonthFrom(d, m + 1)
  }

  function MonthOf(d: nat): (r: nat)
    ensures MonthStart(r) <= d < MonthStart(r + 1)
  {
    MonthFrom(d, 0)
  }

  /** The first instant of the bucket that holds t. */
  function BucketStart(t: nat, b: Bucket): (r: nat)
    ensures r <= t
  {
    var day := t / DAY;
    match b
    case ByDay => day * DAY
    case ByWeek => (day - day % WEEK) * DAY
    case ByMonth => MonthStart(MonthOf(day)) * DAY
  }

  /** The first instant after the bucket that starts at s. */
  function BucketEnd(s: nat, b: Bucket): nat {
    match b
    case ByDay => s + DAY
    case ByWeek => s + WEEK * DAY
    case ByMonth => MonthStart(MonthOf(s / DAY) + 1) * DAY
  }

  lemma {:induction false} MonthStartMonotone(a: nat, b: nat)
    requires a < b
    ensures MonthStart(a + 1) <= MonthStart(b)
    decreases b
  {
    if a + 1 < b {
      MonthStartMonotone(a, b - 1);
    }
  }

  /** A day belongs to one month only. */
  lemma MonthUnique(d: nat, m: nat)
    requires MonthStart(m) <= d < MonthStart(m + 1)
    ensures MonthOf(d) == m
  {
    var r := MonthOf(d);
    if r < m {
      MonthStartMonotone(r, m);
    } else if m < r {
      MonthStartMonotone(m, r);
    }
  }

  lemma Carry(y: nat, n: nat)
    requires y > 0 && n > 0
    ensures y / n == (y - 1) / n + if y % n == 0 then 1 else 0
  {
    var q, r := (y - 1) / n, (y - 1) % n;
    assert y - 1 == q * n + r;
    if r == n - 1 {
      assert y == (q + 1) * n;
      QuotientOf(y, n, q + 1, 0);
    } else {
      QuotientOf(y, n, q, r + 1);
    }
  }

  lemma QuotientOf(y: nat, n: nat, q: nat, r: nat)
    requires r < n && y == q * n + r
    ensures y / n == q && y % n == r
  {
    var d := y / n - q;
    assert d * n == r - y % n;
    MultipleAway(d, n);
  }

  lemma MultipleAway(d: int, n: nat)
    ensures d > 0 ==> d * n >= n
    ensures d < 0 ==> d * n + n <= 0
  {
  }

  /** The month table agrees with the leap-year rule: y years hold 365 y + y/4 - y/100 + y/400 days. */
  lemma {:induction false} YearsInDays(y: nat)
    ensures MonthStart(12 * y) == 365 * y + y / 4 - y / 100 + y / 400
  {
    if y > 0 {
      YearsInDays(y - 1);
      YearLength(y - 1);
      Carry(y, 4);
      Carry(y, 100);
      Carry(y, 400);
      LeapCarry(y);
    }
  }

  lemma LeapCarry(y: nat)
    ensures (if IsLeap(y) then 1 else 0) ==
            (if y % 4 == 0 then 1 else 0) - (if y % 100 == 0 then 1 else 0) + (if y % 400 == 0 then 1 else 0)
  {
    if y % 100 == 0 {
      QuotientOf(y, 4, 25 * (y / 100), 0);
    }
    if y % 400 == 0 {
      QuotientOf(y, 100, 4 * (y / 400), 0);
    }
  }

  lemma {:induction false} YearLength(y: nat)
    ensures MonthStart(12 * (y + 1)) == MonthStart(12 * y) + if IsLeap(y + 1) then 366 else 365
  {
    Quarter(y, 0);
    Quarter(y, 3);
    Quarter(y, 6);
    Quarter(y, 9);
    assert 12 * y + 9 + 3 == 12 * (y + 1);
  }

  lemma {:induction false} Quarter(y: nat, k: nat)
    requires k + 3 <= 12
    ensures MonthStart(12 * y + k + 3) ==
            MonthStart(12 * y + k) + MonthDays(y + 1, k + 1) + MonthDays(y + 1, k + 2) + MonthDays(y + 1, k + 3)
  {
    MonthOfYear(y, k);
    MonthOfYear(y, k + 1);
    MonthOfYear(y, k + 2);
  }

  lemma {:induction false} MonthOfYear(y: nat, k: nat)
    requires k < 12
    ensures MonthStart(12 * y + k + 1) == MonthStart(12 * y + k) + MonthDays(y + 1, k + 1)
  {
    QuotientOf(12 * y + k, 12, y, k);
  }

  /** The days of a common year before month k, counted from 0, as far as February is taken to have 30 days. */
  function DaysBefore(k: nat): nat {
    (367 * k + 5) / 12
  }

  lemma MonthDaysFormula(year: nat, k: nat)
    requires 0 < k < 12
    ensures MonthDays(year, k) == DaysBefore(k) - DaysBefore(k - 1) -
                                  (if k == 2 then if IsLeap(year) then 1 else 2 else 0)
  {
    assert k == 1 || k == 2 || k == 3 || k == 4 || k == 5 || k == 6 || k == 7 || k == 8 || k == 9 || k == 10 || k == 11;
  }

  /** Month k of year y + 1, both counted from 0, starts on the day that the closed Gregorian formula gives. */
  lemma {:induction false} MonthsFollowFormula(y: nat, k: nat)
    requires k < 12
    ensures MonthStart(12 * y + k) ==
            365 * y + y / 4 - y / 100 + y / 400 + (367 * k + 5) / 12 -
            (if k < 2 then 0 else if IsLeap(y + 1) then 1 else 2)
  {
    MonthsAdd(y, k);
    YearsInDays(y);
  }

  lemma {:induction false} MonthAfter(y: nat, k: nat)
    requires 0 < k < 12
    ensures MonthStart(12 * y + k) == MonthStart(12 * y + (k - 1)) + MonthDays(y + 1, k)
  {
    MonthOfYear(y, k - 1);
    assert 12 * y + (k - 1) + 1 == 12 * y + k;
  }

  lemma {:induction false} MonthsAdd(y: nat, k: nat)
    requires k < 12
    ensures MonthStart(12 * y + k) ==
            MonthStart(12 * y) + DaysBefore(k) - if k < 2 then 0 else if IsLeap(y + 1) then 1 else 2
  {
    if k > 0 {
      MonthsAdd(y, k - 1);
      MonthDaysFormula(y + 1, k);
      MonthAfter(y, k);
    }
  }

  /** Every instant lies in its bucket. */
  lemma InBucket(t: nat, b: Bucket)
    ensures BucketStart(t, b) <= t < BucketEnd(BucketStart(t, b), b)
    ensures BucketStart(BucketStart(t, b), b) == BucketStart(t, b)
  {
    var day := t / DAY;
    if b == ByMonth {
      var m := MonthOf(day);
      assert BucketStart(t, b) / DAY == MonthStart(m);
      MonthStartMonotone(m, m + 1);
      assert MonthStart(m) < MonthStart(m + 1);
      MonthUnique(MonthStart(m), m);
    } else if b == ByWeek {
      var first := day - day % WEEK;
      assert BucketStart(t, b) / DAY == first && first % WEEK == 0;
    }
  }

  /** Days start at midnight, weeks on a Monday and months on their first day. */
  lemma StartsAligned(t: nat, b: Bucket)
    ensures match b
            case ByDay => BucketStart(t, b) % 86_400_000_000 == 0
            case ByWeek => exists n: nat :: BucketStart(t, b) == n * 7 * 86_400_000_000
            case ByMonth => exists m: nat :: BucketStart(t, b) == MonthStart(m) * 86_400_000_000
  {
    var day := t / DAY;
    if b == ByWeek {
      var n := day / WEEK;
      assert day - day % WEEK == n * 7;
    } else if b == ByMonth {
      var m := MonthOf(day);
      assert BucketStart(t, b) == MonthStart(m) * DAY;
    }
  }

  predicate IsStart(s: nat, b: Bucket) {
    BucketStart(s, b) == s
  }

  /** Buckets do not overlap. */
  lemma BucketsDisjoint(s: nat, u: nat, b: Bucket)
    requires IsStart(s, b) && IsStart(u, b) && s < u
    ensures BucketEnd(s, b) <= u
  {
    var x, y := s / DAY, u / DAY;
    match b
    case ByDay =>
      assert x < y;
    case ByWeek =>
      assert x % WEEK == 0 && y % WEEK == 0 by {
        assert (x - x % WEEK) * DAY == s && (y - y % WEEK) * DAY == u;
        assert s / DAY == x - x % WEEK && u / DAY == y - y % WEEK;
      }
      assert x < y;
      assert x / WEEK < y / WEEK;
    case ByMonth =>
      var m, n := MonthOf(x), MonthOf(y);
      assert s == MonthStart(m) * DAY && u == MonthStart(n) * DAY;
      if n < m {
        MonthStartMonotone(n, m);
      } else if m < n {
        MonthStartMonotone(m, n);
      }
  }
}
