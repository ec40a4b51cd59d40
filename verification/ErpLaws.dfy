/** Laws of the ERP analytics: every record is counted once, buckets hold their samples, averages lie in the hull. */
module ErpLaws {
  import opened Sequences
  import opened Calendar
  import opened ErpAnalytics

  /* ---------- every record is counted exactly once ---------- */

  /** The samples that rows send to one series and period, in scan order. */
  function SamplesFor(rows: seq<Row>, bucket: Bucket, series: SeriesKey, period: nat): seq<Sample> {
    if rows == [] then []
    else
      var front, row := SamplesFor(rows[..|rows| - 1], bucket, series, period), rows[|rows| - 1];
      if row.outcome.Sampled? && SeriesOf(row) == series && BucketStart(row.outcome.sample.time, bucket) == period
      then front + [row.outcome.sample] else front
  }

  /** Groups do not interfere: each holds exactly the samples of its own series and period. */
  lemma {:induction false} GroupsAccount(rows: seq<Row>, bucket: Bucket, series: SeriesKey, period: nat)
    ensures SamplesAt(EnterAll(EMPTY_LEDGER, bucket, rows).groups, series, period) ==
            SamplesFor(rows, bucket, series, period)
    ensures (series, period) in EnterAll(EMPTY_LEDGER, bucket, rows).groups <==>
            SamplesFor(rows, bucket, series, period) != []
  {
    if rows != [] {
      GroupsAccount(rows[..|rows| - 1], bucket, series, period);
    }
  }

  function SampledIn(rows: seq<Row>, series: SeriesKey): nat {
    if rows == [] then 0
    else
      var row := rows[|rows| - 1];
      SampledIn(rows[..|rows| - 1], series) + if row.outcome.Sampled? && SeriesOf(row) == series then 1 else 0
  }

  function SampledRows(rows: seq<Row>): nat {
    if rows == [] then 0
    else SampledRows(rows[..|rows| - 1]) + if rows[|rows| - 1].outcome.Sampled? then 1 else 0
  }

  function WarnedRows(rows: seq<Row>): nat {
    if rows == [] then 0
    else WarnedRows(rows[..|rows| - 1]) + if rows[|rows| - 1].outcome.Warned? then 1 else 0
  }

  function WarnedAs(rows: seq<Row>, connector: string, metric: string, code: Code): nat {
    if rows == [] then 0
    else
      var row := rows[|rows| - 1];
      WarnedAs(rows[..|rows| - 1], connector, metric, code) +
      if row.connector == connector && row.metric == metric && row.outcome == Warned(code) then 1 else 0
  }

  function CountOf(w: map<(string, string, Code), nat>, connector: string, metric: string, code: Code): nat {
    if (connector, metric, code) in w then w[(connector, metric, code)] else 0
  }

  /** Each record warning counts exactly the records rejected for it; every record is warned about or sampled. */
  lemma {:induction false} WarningsAccount(
    rows: seq<Row>, bucket: Bucket, connector: string, metric: string, code: Code)
    ensures CountOf(EnterAll(EMPTY_LEDGER, bucket, rows).warnings, connector, metric, code) ==
            WarnedAs(rows, connector, metric, code)
    ensures |rows| == WarnedRows(rows) + SampledRows(rows)
  {
    if rows != [] {
      WarningsAccount(rows[..|rows| - 1], bucket, connector, metric, code);
    }
  }

  function SamplesOver(rows: seq<Row>, bucket: Bucket, series: SeriesKey, periods: seq<nat>): nat {
    if periods == [] then 0
    else SamplesOver(rows, bucket, series, periods[..|periods| - 1]) +
         |SamplesFor(rows, bucket, series, periods[|periods| - 1])|
  }

  lemma {:induction false} OneMoreRow(rows: seq<Row>, row: Row, bucket: Bucket, series: SeriesKey, periods: seq<nat>)
    requires StrictlyAscending(periods)
    ensures SamplesOver(rows + [row], bucket, series, periods) == SamplesOver(rows, bucket, series, periods) +
            if row.outcome.Sampled? && SeriesOf(row) == series &&
                BucketStart(row.outcome.sample.time, bucket) in periods
            then 1 else 0
  {
    if periods != [] {
      var front, p := periods[..|periods| - 1], periods[|periods| - 1];
      assert periods == front + [p];
      OneMoreRow(rows, row, bucket, series, front);
      assert (rows + [row])[..|rows|] == rows;
    }
  }

  lemma {:induction false} NoRows(bucket: Bucket, series: SeriesKey, periods: seq<nat>)
    ensures SamplesOver([], bucket, series, periods) == 0
  {
    if periods != [] {
      NoRows(bucket, series, periods[..|periods| - 1]);
    }
  }

  lemma {:induction false} PeriodsCover(rows: seq<Row>, bucket: Bucket, series: SeriesKey, periods: seq<nat>)
    requires StrictlyAscending(periods)
    requires forall p :: SamplesFor(rows, bucket, series, p) != [] ==> p in periods
    ensures SamplesOver(rows, bucket, series, periods) == SampledIn(rows, series)
  {
    if rows == [] {
      NoRows(bucket, series, periods);
    } else {
      var front, row := rows[..|rows| - 1], rows[|rows| - 1];
      assert rows == front + [row];
      PeriodsCover(front, bucket, series, periods);
      OneMoreRow(front, row, bucket, series, periods);
      if row.outcome.Sampled? && SeriesOf(row) == series {
        assert SamplesFor(rows, bucket, series, BucketStart(row.outcome.sample.time, bucket)) != [];
      }
    }
  }

  function PointSamples(points: seq<Point>): nat {
    if points == [] then 0 else PointSamples(points[..|points| - 1]) + points[|points| - 1].samples
  }

  lemma {:induction false} PointsOrDropped(
    rows: seq<Row>, bucket: Bucket, series: SeriesKey, aggregation: Aggregation, periods: seq<nat>)
    ensures var groups := EnterAll(EMPTY_LEDGER, bucket, rows).groups;
            PointSamples(Points(aggregation, groups, series, bucket, periods)) +
                Dropped(aggregation, groups, series, periods) ==
            SamplesOver(rows, bucket, series, periods)
  {
    if periods != [] {
      PointsOrDropped(rows, bucket, series, aggregation, periods[..|periods| - 1]);
      GroupsAccount(rows, bucket, series, periods[|periods| - 1]);
    }
  }

  /** The samples of one series are all in its points or in its dropped periods. */
  lemma {:induction false} SeriesAccounts(sorting: Sorting, bucket: Bucket, rows: seq<Row>, key: SeriesKey)
    requires Sorts(sorting)
    ensures var l := EnterAll(EMPTY_LEDGER, bucket, rows);
            PointSamples(PointsOf(sorting, bucket, l, key)) + DroppedOf(sorting, l, key) == SampledIn(rows, key)
  {
    var l := EnterAll(EMPTY_LEDGER, bucket, rows);
    var periods := sorting.periods(PeriodsOf(l.groups, key));
    forall p: nat | SamplesFor(rows, bucket, key, p) != [] ensures p in periods {
      GroupsAccount(rows, bucket, key, p);
      assert (key, p) in l.groups;
    }
    PeriodsCover(rows, bucket, key, periods);
    PointsOrDropped(rows, bucket, key, AggregationOf(l, key), periods);
  }

  function SampledOver(rows: seq<Row>, keys: seq<SeriesKey>): nat {
    if keys == [] then 0 else SampledOver(rows, keys[..|keys| - 1]) + SampledIn(rows, keys[|keys| - 1])
  }

  lemma {:induction false} OneMoreSampled(rows: seq<Row>, row: Row, keys: seq<SeriesKey>)
    requires NoDup(keys)
    ensures SampledOver(rows + [row], keys) == SampledOver(rows, keys) +
            if row.outcome.Sampled? && SeriesOf(row) in keys then 1 else 0
  {
    if keys != [] {
      var front, k := keys[..|keys| - 1], keys[|keys| - 1];
      assert keys == front + [k];
      OneMoreSampled(rows, row, front);
      assert (rows + [row])[..|rows|] == rows;
    }
  }

  lemma {:induction false} NoneSampled(keys: seq<SeriesKey>)
    ensures SampledOver([], keys) == 0
  {
    if keys != [] {
      NoneSampled(keys[..|keys| - 1]);
    }
  }

  lemma {:induction false} KeysCover(rows: seq<Row>, bucket: Bucket, keys: seq<SeriesKey>)
    requires NoDup(keys) && forall k | k in EnterAll(EMPTY_LEDGER, bucket, rows).aggregations :: k in keys
    ensures SampledOver(rows, keys) == SampledRows(rows)
  {
    if rows == [] {
      NoneSampled(keys);
    } else {
      var front, row := rows[..|rows| - 1], rows[|rows| - 1];
      assert rows == front + [row];
      KeysCover(front, bucket, keys);
      OneMoreSampled(front, row, keys);
    }
  }

  function DroppedOver(sorting: Sorting, l: Ledger, keys: seq<SeriesKey>): nat {
    if keys == [] then 0 else DroppedOver(sorting, l, keys[..|keys| - 1]) + DroppedOf(sorting, l, keys[|keys| - 1])
  }

  function ReportSamples(series: seq<Series>): nat {
    if series == [] then 0 else ReportSamples(series[..|series| - 1]) + PointSamples(series[|series| - 1].points)
  }

  lemma {:induction false} ReportAccounts(sorting: Sorting, bucket: Bucket, rows: seq<Row>, keys: seq<SeriesKey>)
    requires Sorts(sorting)
    ensures var l := EnterAll(EMPTY_LEDGER, bucket, rows);
            ReportSamples(ReportUpTo(sorting, bucket, l, keys).series) + DroppedOver(sorting, l, keys) ==
                SampledOver(rows, keys)
  {
    if keys != [] {
      ReportAccounts(sorting, bucket, rows, keys[..|keys| - 1]);
      SeriesAccounts(sorting, bucket, rows, keys[|keys| - 1]);
    }
  }

  /**
    Before the series cap every scanned record is counted exactly once: in a record warning, in the sample count of
    one point, or among the samples of a weightless period.
   */
  lemma {:induction false} RecordsConserved(ps: Parsers, sorting: Sorting, req: Request, sources: seq<Source>)
    requires Sorts(sorting)
    ensures var rows := AllRows(ps, req, sources);
            var l := EnterAll(EMPTY_LEDGER, req.bucket, rows);
            var keys := sorting.series(l.aggregations.Keys);
            |rows| == WarnedRows(rows) + ReportSamples(ReportUpTo(sorting, req.bucket, l, keys).series) +
                      DroppedOver(sorting, l, keys)
  {
    var rows := AllRows(ps, req, sources);
    var l := EnterAll(EMPTY_LEDGER, req.bucket, rows);
    var keys := sorting.series(l.aggregations.Keys);
    ReportAccounts(sorting, req.bucket, rows, keys);
    KeysCover(rows, req.bucket, keys);
    WarningsAccount(rows, req.bucket, "", "", InvalidWeight);
  }

  /** Each weight warning of the report counts its rejected records and its dropped samples. */
  lemma {:induction false} ReportWarnings(
    sorting: Sorting, bucket: Bucket, rows: seq<Row>, keys: seq<SeriesKey>, connector: string, metric: string,
    code: Code)
    ensures var l := EnterAll(EMPTY_LEDGER, bucket, rows);
            CountOf(ReportUpTo(sorting, bucket, l, keys).warnings, connector, metric, code) ==
            WarnedAs(rows, connector, metric, code) +
            if code == InvalidWeight then DroppedFor(sorting, l, keys, connector, metric) else 0
  {
    if keys == [] {
      WarningsAccount(rows, bucket, connector, metric, code);
    } else {
      ReportWarnings(sorting, bucket, rows, keys[..|keys| - 1], connector, metric, code);
    }
  }

  function DroppedFor(sorting: Sorting, l: Ledger, keys: seq<SeriesKey>, connector: string, metric: string): nat {
    if keys == [] then 0
    else
      var key := keys[|keys| - 1];
      DroppedFor(sorting, l, keys[..|keys| - 1], connector, metric) +
      if key.connector == connector && key.metric == metric then DroppedOf(sorting, l, key) else 0
  }

  /* ---------- points and buckets ---------- */

  ghost predicate InWindow(req: Request, row: Row) {
    row.outcome.Sampled? ==> req.start <= row.outcome.sample.time < req.end
  }

  lemma {:induction false} MappingRowsInWindow(ps: Parsers, req: Request, s: Source, m: Mapping, records: seq<Record>)
    ensures forall row | row in MappingRows(ps, req, s, m, records) :: InWindow(req, row)
  {
    if records != [] {
      MappingRowsInWindow(ps, req, s, m, records[..|records| - 1]);
    }
  }

  lemma {:induction false} SourceRowsInWindow(ps: Parsers, req: Request, s: Source, n: nat)
    requires n <= |s.mappings|
    ensures forall row | row in SourceRows(ps, req, s, n) :: InWindow(req, row)
  {
    if n > 0 {
      SourceRowsInWindow(ps, req, s, n - 1);
      MappingRowsInWindow(ps, req, s, s.mappings[n - 1], RecordsOf(ps, s, s.mappings[n - 1].entity));
    }
  }

  lemma {:induction false} AllRowsInWindow(ps: Parsers, req: Request, sources: seq<Source>)
    ensures forall row | row in AllRows(ps, req, sources) :: InWindow(req, row)
  {
    if sources != [] {
      AllRowsInWindow(ps, req, sources[..|sources| - 1]);
      SourceRowsInWindow(ps, req, sources[|sources| - 1], |sources[|sources| - 1].mappings|);
    }
  }

  /** Every sample of a group lies in the bucket of its period and in the requested window. */
  lemma {:induction false} SamplesInBucket(rows: seq<Row>, req: Request, series: SeriesKey, period: nat)
    requires forall row | row in rows :: InWindow(req, row)
    ensures forall x | x in SamplesFor(rows, req.bucket, series, period) ::
              period <= x.time < BucketEnd(period, req.bucket) && req.start <= x.time < req.end &&
                  IsStart(period, req.bucket)
  {
    if rows != [] {
      var front, row := rows[..|rows| - 1], rows[|rows| - 1];
      assert rows == front + [row];
      SamplesInBucket(front, req, series, period);
      assert InWindow(req, row);
      if row.outcome.Sampled? {
        InBucket(row.outcome.sample.time, req.bucket);
      }
    }
  }

  /** A point of the series stands on its bucket and counts the samples of its group. */
  ghost predicate Grounded(rows: seq<Row>, req: Request, series: SeriesKey, p: Point) {
    && IsStart(p.start, req.bucket)
    && p.end == BucketEnd(p.start, req.bucket)
    && p.samples == |SamplesFor(rows, req.bucket, series, p.start)| > 0
    && forall x | x in SamplesFor(rows, req.bucket, series, p.start) ::
        p.start <= x.time < p.end && req.start <= x.time < req.end
  }

  lemma {:induction false} PeriodGrounded(rows: seq<Row>, req: Request, series: SeriesKey, period: nat)
    requires forall row | row in rows :: InWindow(req, row)
    requires SamplesAt(EnterAll(EMPTY_LEDGER, req.bucket, rows).groups, series, period) != []
    ensures var samples := SamplesAt(EnterAll(EMPTY_LEDGER, req.bucket, rows).groups, series, period);
            forall value :: Grounded(rows, req, series, Point(period, BucketEnd(period, req.bucket), value, |samples|))
  {
    GroupsAccount(rows, req.bucket, series, period);
    SamplesInBucket(rows, req, series, period);
    var samples := SamplesFor(rows, req.bucket, series, period);
    assert samples[0] in samples;
  }

  ghost predicate AllGrounded(rows: seq<Row>, req: Request, series: SeriesKey, points: seq<Point>) {
    forall p | p in points :: Grounded(rows, req, series, p)
  }

  predicate StartsAscend(points: seq<Point>, periods: seq<nat>) {
    && (forall i | 0 <= i < |points| :: points[i].start in periods)
    && (forall i, j | 0 <= i < j < |points| :: points[i].start < points[j].start)
  }

  lemma {:induction false} PointsGrounded(
    rows: seq<Row>, req: Request, series: SeriesKey, aggregation: Aggregation, periods: seq<nat>)
    requires forall row | row in rows :: InWindow(req, row)
    ensures var groups := EnterAll(EMPTY_LEDGER, req.bucket, rows).groups;
            AllGrounded(rows, req, series, Points(aggregation, groups, series, req.bucket, periods))
  {
    if periods != [] {
      var front, p := periods[..|periods| - 1], periods[|periods| - 1];
      PointsGrounded(rows, req, series, aggregation, front);
      if SamplesAt(EnterAll(EMPTY_LEDGER, req.bucket, rows).groups, series, p) != [] {
        PeriodGrounded(rows, req, series, p);
      }
    }
  }

  lemma {:induction false} PointsAscend(
    groups: Groups, bucket: Bucket, series: SeriesKey, aggregation: Aggregation, periods: seq<nat>)
    requires StrictlyAscending(periods)
    ensures StartsAscend(Points(aggregation, groups, series, bucket, periods), periods)
  {
    if periods != [] {
      var front, p := periods[..|periods| - 1], periods[|periods| - 1];
      PointsAscend(groups, bucket, series, aggregation, front);
      var before := Points(aggregation, groups, series, bucket, front);
      forall x | x in front ensures x < p && x in periods {
        var k :| 0 <= k < |front| && front[k] == x;
        assert periods[k] == x && periods[|front|] == p;
      }
      assert p in periods;
      assert forall i | 0 <= i < |before| :: before[i].start < p;
    }
  }

  /** Grounded points in ascending, disjoint buckets. */
  ghost predicate OrderedSeries(rows: seq<Row>, req: Request, key: SeriesKey, points: seq<Point>) {
    && AllGrounded(rows, req, key, points)
    && (forall i, j | 0 <= i < j < |points| :: points[i].end <= points[j].start)
  }

  /** The points of every series: each in its own bucket, ascending and disjoint, with all samples inside. */
  lemma {:induction false} SeriesInOrder(
    ps: Parsers, sorting: Sorting, req: Request, sources: seq<Source>, key: SeriesKey)
    requires Sorts(sorting)
    ensures var rows := AllRows(ps, req, sources);
            OrderedSeries(rows, req, key, PointsOf(sorting, req.bucket, EnterAll(EMPTY_LEDGER, req.bucket, rows), key))
  {
    var rows := AllRows(ps, req, sources);
    var l := EnterAll(EMPTY_LEDGER, req.bucket, rows);
    var points := PointsOf(sorting, req.bucket, l, key);
    AllRowsInWindow(ps, req, sources);
    PointsGrounded(rows, req, key, AggregationOf(l, key), sorting.periods(PeriodsOf(l.groups, key)));
    PointsAscend(l.groups, req.bucket, key, AggregationOf(l, key), sorting.periods(PeriodsOf(l.groups, key)));
    forall i, j | 0 <= i < j < |points| ensures points[i].end <= points[j].start {
      assert points[i] in points && points[j] in points;
      BucketsDisjoint(points[i].start, points[j].start, req.bucket);
    }
  }

  /* ---------- how many day buckets ---------- */

  const MAX_DAYS := 731
  const MAX_POINTS := 731

  /** The number of calendar days that the window touches. */
  function DaysTouched(start: nat, end: nat): int
    requires start < end
  {
    (end - 1) / DAY - start / DAY + 1
  }

  lemma {:induction false} AscendingDays(days: seq<nat>, first: nat, last: nat)
    requires StrictlyAscending(days) && forall d | d in days :: first <= d <= last
    ensures |days| <= last - first + 1 || days == []
    decreases |days|
  {
    if |days| > 1 {
      var front, d := days[..|days| - 1], days[|days| - 1];
      assert days == front + [d];
      assert front[|front| - 1] in days && d in days;
      forall x | x in front ensures first <= x <= d - 1 {
        var k :| 0 <= k < |front| && front[k] == x;
        assert days[k] in days && days[k] < days[|front|];
      }
      AscendingDays(front, first, d - 1);
    } else if days != [] {
      assert days[0] in days;
    }
  }

  function StartDays(points: seq<Point>): (r: seq<nat>)
    ensures |r| == |points| && forall i | 0 <= i < |r| :: r[i] == points[i].start / DAY
  {
    if points == [] then [] else StartDays(points[..|points| - 1]) + [points[|points| - 1].start / DAY]
  }

  lemma {:induction false} PointDays(rows: seq<Row>, req: Request, key: SeriesKey, points: seq<Point>)
    requires req.bucket == ByDay && req.start < req.end && OrderedSeries(rows, req, key, points)
    ensures |points| <= DaysTouched(req.start, req.end)
  {
    var days := StartDays(points);
    forall i | 0 <= i < |points|
      ensures req.start / DAY <= days[i] <= (req.end - 1) / DAY && points[i].end == (days[i] + 1) * DAY
    {
      assert points[i] in points;
      assert Grounded(rows, req, key, points[i]);
      var samples := SamplesFor(rows, req.bucket, key, points[i].start);
      assert samples[0] in samples;
      DayHolds(points[i].start, samples[0].time, req.start, req.end);
    }
    forall i, j | 0 <= i < j < |days| ensures days[i] < days[j] {
      assert points[i].end <= points[j].start < points[j].end;
    }
    AscendingDays(days, req.start / DAY, (req.end - 1) / DAY);
  }

  /** A day-bucketed series has at most as many points as the window touches days. */
  lemma {:induction false} DayPointsBound(
    ps: Parsers, sorting: Sorting, req: Request, sources: seq<Source>, key: SeriesKey)
    requires Sorts(sorting) && req.bucket == ByDay && req.start < req.end
    ensures var l := EnterAll(EMPTY_LEDGER, req.bucket, AllRows(ps, req, sources));
            |PointsOf(sorting, req.bucket, l, key)| <= DaysTouched(req.start, req.end)
  {
    SeriesInOrder(ps, sorting, req, sources, key);
    var rows := AllRows(ps, req, sources);
    PointDays(rows, req, key, PointsOf(sorting, req.bucket, EnterAll(EMPTY_LEDGER, req.bucket, rows), key));
  }

  lemma DayHolds(s: nat, t: nat, start: nat, end: nat)
    requires IsStart(s, ByDay) && s <= t < s + DAY && start <= t < end
    ensures start / DAY <= s / DAY <= (end - 1) / DAY && s / DAY * DAY == s
  {
    assert t / DAY == s / DAY;
  }

  /** A window of at most 731 days touches at most 732 days, and at most 731 exactly when the last instant allows it. */
  lemma WindowDays(start: nat, end: nat)
    requires start < end <= start + MAX_DAYS * DAY
    ensures DaysTouched(start, end) <= MAX_DAYS + 1
    ensures start % DAY == 0 ==> DaysTouched(start, end) <= MAX_DAYS
    ensures DaysTouched(start, end) <= MAX_POINTS <==> end <= (start / DAY + MAX_DAYS) * DAY
  {
    var first, last := start / DAY, (end - 1) / DAY;
    assert first * DAY <= start < (first + 1) * DAY;
    assert last * DAY <= end - 1 < (last + 1) * DAY;
  }

  /* ---------- averages ---------- */

  lemma {:induction false} TotalBetween(low: Sample -> real, f: Sample -> real, high: Sample -> real, s: seq<Sample>)
    requires forall x | x in s :: low(x) <= f(x) <= high(x)
    ensures Total(low, s) <= Total(f, s) <= Total(high, s)
  {
    if s != [] {
      assert s[|s| - 1] in s;
      TotalBetween(low, f, high, s[..|s| - 1]);
    }
  }

  lemma Spread(x: real, a: real, b: real)
    ensures x * (a + b) == x * a + x * b
  {
  }

  lemma {:induction false} ConstantTotal(c: real, f: Sample -> real, s: seq<Sample>)
    requires forall x :: f(x) == c
    ensures Total(f, s) == c * (|s| as real)
  {
    if s != [] {
      ConstantTotal(c, f, s[..|s| - 1]);
      Spread(c, |s[..|s| - 1]| as real, 1.0);
    }
  }

  lemma ScaleBetween(low: real, value: real, high: real, weight: real)
    requires low <= value <= high && weight >= 0.0
    ensures low * weight <= value * weight <= high * weight
  {
  }

  lemma QuotientBetween(low: real, sum: real, high: real, total: real)
    requires total > 0.0 && low * total <= sum <= high * total
    ensures low <= sum / total <= high
  {
    var q := sum / total;
    assert q * total == sum;
    if q < low {
      ScaleStrict(q, low, total);
    }
    if q > high {
      ScaleStrict(high, q, total);
    }
  }

  lemma ScaleStrict(a: real, b: real, total: real)
    requires a < b && total > 0.0
    ensures a * total < b * total
  {
  }

  function Bound(c: real): Sample -> real {
    (x: Sample) => c * WeightOf(x)
  }

  lemma {:induction false} BoundTotal(c: real, s: seq<Sample>)
    ensures Total(Bound(c), s) == c * Total(WeightOf, s)
  {
    if s != [] {
      BoundTotal(c, s[..|s| - 1]);
      Spread(c, Total(WeightOf, s[..|s| - 1]), WeightOf(s[|s| - 1]));
    }
  }

  lemma TermsBetween(s: seq<Sample>, low: real, high: real)
    requires forall x | x in s :: low <= x.value <= high
    ensures forall x | x in s :: Bound(low)(x) <= WeightedValue(x) <= Bound(high)(x)
  {
    forall x | x in s ensures Bound(low)(x) <= WeightedValue(x) <= Bound(high)(x) {
      ScaleBetween(low, x.value, high, WeightOf(x));
    }
  }

  lemma {:induction false} WeightedTotals(s: seq<Sample>, low: real, high: real)
    requires forall x | x in s :: low <= x.value <= high
    ensures Total(Bound(low), s) <= Total(WeightedValue, s) <= Total(Bound(high), s)
  {
    TermsBetween(s, low, high);
    TotalBetween(Bound(low), WeightedValue, Bound(high), s);
  }

  lemma {:induction false} WeightedProducts(s: seq<Sample>, low: real, high: real)
    requires forall x | x in s :: low <= x.value <= high
    ensures low * Total(WeightOf, s) <= Total(WeightedValue, s) <= high * Total(WeightOf, s)
  {
    WeightedTotals(s, low, high);
    BoundTotal(low, s);
    BoundTotal(high, s);
  }

  lemma {:induction false} SumProducts(s: seq<Sample>, low: real, high: real)
    requires forall x | x in s :: low <= x.value <= high
    ensures low * (|s| as real) <= Total(ValueOf, s) <= high * (|s| as real)
  {
    var least, most := (x: Sample) => low, (x: Sample) => high;
    TotalBetween(least, ValueOf, most, s);
    ConstantTotal(low, least, s);
    ConstantTotal(high, most, s);
  }

  lemma {:induction false} AverageInHull(s: seq<Sample>)
    requires s != []
    ensures Least(s) <= Total(ValueOf, s) / (|s| as real) <= Greatest(s)
  {
    var low, high := Least(s), Greatest(s);
    SumProducts(s, low, high);
    QuotientBetween(low, Total(ValueOf, s), high, |s| as real);
  }

  lemma {:induction false} WeightedAverageInHull(s: seq<Sample>)
    requires s != [] && Total(WeightOf, s) != 0.0
    ensures Least(s) <= Total(WeightedValue, s) / Total(WeightOf, s) <= Greatest(s)
  {
    var low, high := Least(s), Greatest(s);
    TotalPositive(s);
    WeightedProducts(s, low, high);
    QuotientBetween(low, Total(WeightedValue, s), high, Total(WeightOf, s));
  }

  lemma {:induction false} TotalPositive(s: seq<Sample>)
    ensures Total(WeightOf, s) >= 0.0
  {
    if s != [] {
      TotalPositive(s[..|s| - 1]);
    }
  }

  /** Except for sums, the value of a point lies between the least and the greatest sample of its period. */
  lemma {:induction false} ValueInHull(aggregation: Aggregation, s: seq<Sample>)
    requires s != [] && aggregation != Sum && AggregateOf(aggregation, s).Some?
    ensures Least(s) <= AggregateOf(aggregation, s).value <= Greatest(s)
  {
    assert s[0] in s;
    if aggregation == WeightedAverage {
      WeightedAverageInHull(s);
    } else if aggregation == Average {
      AverageInHull(s);
    }
  }
}
