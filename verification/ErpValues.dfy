/** What the rows, points and values of the ERP report mean, told by the records and samples themselves. */
module ErpValues {
  import opened Sequences
  import opened Calendar
  import opened ErpAnalytics
  import opened ErpLaws

  /* ---------- the value of a group ---------- */

  /** The terms add up to this total, from the first to the last. */
  ghost predicate Adds(terms: seq<real>, total: real) {
    exists t: seq<real> :: |t| == |terms| + 1 && PartialSums(terms, t) && t[|terms|] == total
  }

  predicate PartialSums(terms: seq<real>, t: seq<real>)
    requires |t| == |terms| + 1
  {
    t[0] == 0.0 && forall i | 0 <= i < |terms| :: t[i + 1] == t[i] + terms[i]
  }

  function Values(s: seq<Sample>): seq<real> {
    seq(|s|, i requires 0 <= i < |s| => s[i].value)
  }

  /** A sample counts with its weight; one without weight counts nothing. */
  function Weights(s: seq<Sample>): seq<real> {
    seq(|s|, i requires 0 <= i < |s| =>
      if s[i].weight == None || s[i].weight.value < 0.0 then 0.0 else s[i].weight.value)
  }

  function Products(s: seq<Sample>): seq<real> {
    seq(|s|, i requires 0 <= i < |s| => s[i].value * Weights(s)[i])
  }

  predicate Weightless(s: seq<Sample>) {
    forall x | x in s :: x.weight.None? || x.weight.value <= 0.0
  }

  /** The value that the aggregation gives to these samples. */
  ghost predicate Means(aggregation: Aggregation, s: seq<Sample>, v: real) {
    match aggregation
    case Sum => Adds(Values(s), v)
    case Minimum => (exists x :: x in s && x.value == v) && forall x | x in s :: v <= x.value
    case Maximum => (exists x :: x in s && x.value == v) && forall x | x in s :: x.value <= v
    case Latest =>
      exists x :: x in s && x.value == v &&
                  forall y | y in s :: y.time < x.time || (y.time == x.time && y.value <= x.value)
    case WeightedAverage => !Weightless(s) && exists w :: w > 0.0 && Adds(Weights(s), w) && Adds(Products(s), v * w)
    case Average => Adds(Values(s), v * (|s| as real))
  }

  lemma {:induction false} TotalAdds(f: Sample -> real, s: seq<Sample>, terms: seq<real>)
    requires |terms| == |s| && forall i | 0 <= i < |s| :: terms[i] == f(s[i])
    ensures Adds(terms, Total(f, s))
  {
    if s == [] {
      assert PartialSums(terms, [0.0]);
    } else {
      var n := |s| - 1;
      TotalAdds(f, s[..n], terms[..n]);
      var t: seq<real> :| |t| == n + 1 && PartialSums(terms[..n], t) && t[n] == Total(f, s[..n]);
      var u := t + [Total(f, s)];
      forall i | 0 <= i < |terms| ensures u[i + 1] == u[i] + terms[i] {
        assert i < n ==> terms[..n][i] == terms[i];
      }
      assert PartialSums(terms, u);
    }
  }

  lemma {:induction false} WeightlessTotal(s: seq<Sample>)
    ensures Total(WeightOf, s) >= 0.0
    ensures Total(WeightOf, s) == 0.0 <==> Weightless(s)
  {
    if s != [] {
      WeightlessTotal(s[..|s| - 1]);
      assert s == s[..|s| - 1] + [s[|s| - 1]];
    }
  }

  lemma QuotientTimes(a: real, b: real)
    requires b != 0.0
    ensures a / b * b == a
  {
  }

  lemma {:induction false} AverageMeans(s: seq<Sample>)
    requires s != []
    ensures Means(Average, s, Total(ValueOf, s) / (|s| as real))
  {
    TotalAdds(ValueOf, s, Values(s));
    QuotientTimes(Total(ValueOf, s), |s| as real);
  }

  lemma QuotientMeans(s: seq<Sample>, a: real, w: real)
    requires w > 0.0 && !Weightless(s) && Adds(Weights(s), w) && Adds(Products(s), a)
    ensures Means(WeightedAverage, s, a / w)
  {
    QuotientTimes(a, w);
    var v := a / w;
    assert Adds(Products(s), v * w);
  }

  lemma {:induction false} WeightedAverageMeans(s: seq<Sample>)
    requires !Weightless(s)
    ensures Total(WeightOf, s) > 0.0
    ensures Means(WeightedAverage, s, Total(WeightedValue, s) / Total(WeightOf, s))
  {
    WeightlessTotal(s);
    TotalAdds(WeightOf, s, Weights(s));
    ProductsAdd(s);
    QuotientMeans(s, Total(WeightedValue, s), Total(WeightOf, s));
  }

  lemma {:induction false} ProductsAdd(s: seq<Sample>)
    ensures Adds(Products(s), Total(WeightedValue, s))
  {
    forall i | 0 <= i < |s| ensures Products(s)[i] == WeightedValue(s[i]) {
      assert Weights(s)[i] == WeightOf(s[i]);
    }
    TotalAdds(WeightedValue, s, Products(s));
  }

  lemma {:induction false} AggregateMeans(aggregation: Aggregation, s: seq<Sample>)
    requires s != []
    ensures AggregateOf(aggregation, s).None? <==> aggregation == WeightedAverage && Weightless(s)
    ensures AggregateOf(aggregation, s).Some? ==> Means(aggregation, s, AggregateOf(aggregation, s).value)
  {
    match aggregation
    case Sum => TotalAdds(ValueOf, s, Values(s));
    case Minimum =>
    case Maximum =>
    case Latest => assert LatestOf(s) in s;
    case WeightedAverage =>
      WeightlessTotal(s);
      if !Weightless(s) {
        WeightedAverageMeans(s);
      }
    case Average => AverageMeans(s);
  }

  /* ---------- the points of a series ---------- */

  /** The last row that sampled the series has this aggregation. */
  ghost predicate LastAggregation(rows: seq<Row>, key: SeriesKey, aggregation: Aggregation) {
    exists i :: 0 <= i < |rows| && Samples(rows[i], key) && rows[i].aggregation == aggregation &&
                forall j | i < j < |rows| :: !Samples(rows[j], key)
  }

  /** The row has a sample of this connector, metric, currency and these dimensions. */
  predicate Samples(row: Row, key: SeriesKey) {
    && row.outcome.Sampled? && row.connector == key.connector && row.metric == key.metric
    && row.outcome.currency == key.currency && row.outcome.dimensions == key.dimensions
  }

  lemma {:induction false} AggregationsOf(rows: seq<Row>, bucket: Bucket, key: SeriesKey)
    ensures var l := EnterAll(EMPTY_LEDGER, bucket, rows);
            && (key in l.aggregations ==> LastAggregation(rows, key, l.aggregations[key]))
            && (key !in l.aggregations ==> forall i | 0 <= i < |rows| :: !Samples(rows[i], key))
  {
    if rows != [] {
      var n := |rows| - 1;
      AggregationsOf(rows[..n], bucket, key);
      assert forall i | 0 <= i < n :: rows[..n][i] == rows[i];
      if !Samples(rows[n], key) && key in EnterAll(EMPTY_LEDGER, bucket, rows[..n]).aggregations {
        var a := EnterAll(EMPTY_LEDGER, bucket, rows[..n]).aggregations[key];
        var i :| 0 <= i < n && Samples(rows[..n][i], key) && rows[..n][i].aggregation == a &&
                 forall j | i < j < n :: !Samples(rows[..n][j], key);
        assert Samples(rows[i], key);
        assert LastAggregation(rows, key, a);
      }
    }
  }

  lemma {:induction false} AggregationIs(rows: seq<Row>, bucket: Bucket, key: SeriesKey, aggregation: Aggregation)
    requires LastAggregation(rows, key, aggregation)
    ensures var l := EnterAll(EMPTY_LEDGER, bucket, rows);
            key in l.aggregations && AggregationOf(l, key) == aggregation
  {
    var l := EnterAll(EMPTY_LEDGER, bucket, rows);
    AggregationsOf(rows, bucket, key);
    var i :| 0 <= i < |rows| && Samples(rows[i], key) && rows[i].aggregation == aggregation &&
             forall j | i < j < |rows| :: !Samples(rows[j], key);
    var n :| 0 <= n < |rows| && Samples(rows[n], key) && rows[n].aggregation == l.aggregations[key] &&
             forall j | n < j < |rows| :: !Samples(rows[j], key);
  }

  /** The point stands for the samples of its group, with the value that the aggregation of the series gives them. */
  ghost predicate PointMeans(
    rows: seq<Row>, bucket: Bucket, key: SeriesKey, aggregation: Aggregation, p: Point)
  {
    var samples := SamplesFor(rows, bucket, key, p.start);
    p.samples == |samples| > 0 && p.end == BucketEnd(p.start, bucket) && Means(aggregation, samples, p.value)
  }

  /** Period p has a point unless it has no samples, or only weightless ones where weights are needed. */
  ghost predicate Pointed(
    rows: seq<Row>, bucket: Bucket, key: SeriesKey, aggregation: Aggregation, points: seq<Point>, period: nat)
  {
    (exists p :: p in points && p.start == period) <==>
    var samples := SamplesFor(rows, bucket, key, period);
    samples != [] && !(aggregation == WeightedAverage && Weightless(samples))
  }

  lemma {:induction false} PointsMean(
    rows: seq<Row>, bucket: Bucket, key: SeriesKey, aggregation: Aggregation, periods: seq<nat>)
    ensures var points := Points(aggregation, EnterAll(EMPTY_LEDGER, bucket, rows).groups, key, bucket, periods);
            && (forall p | p in points :: p.start in periods && PointMeans(rows, bucket, key, aggregation, p))
            && (forall period | period in periods :: Pointed(rows, bucket, key, aggregation, points, period))
  {
    if periods != [] {
      var groups := EnterAll(EMPTY_LEDGER, bucket, rows).groups;
      var front, period := periods[..|periods| - 1], periods[|periods| - 1];
      assert periods == front + [period];
      PointsMean(rows, bucket, key, aggregation, front);
      GroupsAccount(rows, bucket, key, period);
      var samples := SamplesFor(rows, bucket, key, period);
      if samples != [] {
        AggregateMeans(aggregation, samples);
      }
      var before, points := Points(aggregation, groups, key, bucket, front),
                            Points(aggregation, groups, key, bucket, periods);
      forall q | q in periods ensures Pointed(rows, bucket, key, aggregation, points, q) {
        PointedStep(rows, bucket, key, aggregation, front, before, points, period, q);
      }
    }
  }

  lemma PointedStep(
    rows: seq<Row>, bucket: Bucket, key: SeriesKey, aggregation: Aggregation, front: seq<nat>, before: seq<Point>,
    points: seq<Point>, period: nat, q: nat)
    requires forall p | p in before :: p.start in front
    requires forall x | x in front :: Pointed(rows, bucket, key, aggregation, before, x)
    requires q == period || q in front
    requires var samples := SamplesFor(rows, bucket, key, period);
             if samples != [] && !(aggregation == WeightedAverage && Weightless(samples))
             then points != [] && points[..|points| - 1] == before && points[|points| - 1].start == period
             else points == before
    ensures Pointed(rows, bucket, key, aggregation, points, q)
  {
    if points != before {
      assert points == before + [points[|points| - 1]];
    }
    assert q in front ==> Pointed(rows, bucket, key, aggregation, before, q);
  }

  /* ---------- the report ---------- */

  /** The report as it is returned, before the series cap. */
  function ReportOf(ps: Parsers, sorting: Sorting, req: Request, sources: seq<Source>): Report {
    var l := EnterAll(EMPTY_LEDGER, req.bucket, AllRows(ps, req, sources));
    ReportUpTo(sorting, req.bucket, l, sorting.series(l.aggregations.Keys))
  }

  predicate HasKeyOf(series: seq<Series>, key: SeriesKey) {
    exists s :: s in series && s.key == key
  }

  lemma {:induction false} ReportSeries(sorting: Sorting, bucket: Bucket, l: Ledger, keys: seq<SeriesKey>)
    requires NoDup(keys)
    ensures var series := ReportUpTo(sorting, bucket, l, keys).series;
            && (forall i, j | 0 <= i < j < |series| :: series[i].key != series[j].key)
            && (forall s | s in series :: s.key in keys && s.points == PointsOf(sorting, bucket, l, s.key))
            && (forall key | key in keys && PointsOf(sorting, bucket, l, key) != [] :: HasKeyOf(series, key))
  {
    if keys != [] {
      var front, key := keys[..|keys| - 1], keys[|keys| - 1];
      assert keys == front + [key];
      ReportSeries(sorting, bucket, l, front);
      var before, series := ReportUpTo(sorting, bucket, l, front).series, ReportUpTo(sorting, bucket, l, keys).series;
      forall k | k in keys && PointsOf(sorting, bucket, l, k) != [] ensures HasKeyOf(series, k) {
        if k == key {
          assert series[|before|].key == key;
        } else {
          var s :| s in before && s.key == k;
          assert s in series;
        }
      }
    }
  }

  /** The series stand in the sorted order of their keys. */
  lemma {:induction false} SeriesStandInOrder(
    sorting: Sorting, bucket: Bucket, l: Ledger, keys: seq<SeriesKey>, all: seq<SeriesKey>)
    requires NoDup(keys) && keys <= all
    ensures var series := ReportUpTo(sorting, bucket, l, keys).series;
            forall i, j | 0 <= i < j < |series| :: StandsBefore(all, series[i].key, series[j].key)
  {
    if keys != [] {
      var front, key := keys[..|keys| - 1], keys[|keys| - 1];
      SeriesStandInOrder(sorting, bucket, l, front, all);
      ReportSeries(sorting, bucket, l, front);
      forall s | s in ReportUpTo(sorting, bucket, l, front).series ensures StandsBefore(all, s.key, key) {
        var a :| 0 <= a < |front| && front[a] == s.key;
        assert all[a] == s.key && all[|keys| - 1] == key;
      }
    }
  }

  lemma {:induction false} SeriesPeriods(
    sorting: Sorting, bucket: Bucket, rows: seq<Row>, key: SeriesKey, period: nat)
    requires Sorts(sorting)
    ensures var l := EnterAll(EMPTY_LEDGER, bucket, rows);
            period in sorting.periods(PeriodsOf(l.groups, key)) <==> SamplesFor(rows, bucket, key, period) != []
  {
    var l := EnterAll(EMPTY_LEDGER, bucket, rows);
    GroupsAccount(rows, bucket, key, period);
    assert period in PeriodsOf(l.groups, key) <==> (key, period) in l.groups;
  }

  lemma {:induction false} SeriesMeans(sorting: Sorting, bucket: Bucket, rows: seq<Row>, key: SeriesKey)
    requires Sorts(sorting)
    ensures var l := EnterAll(EMPTY_LEDGER, bucket, rows);
            var points := PointsOf(sorting, bucket, l, key);
            && (forall p | p in points :: PointMeans(rows, bucket, key, AggregationOf(l, key), p))
            && (forall period: nat :: Pointed(rows, bucket, key, AggregationOf(l, key), points, period))
  {
    var l := EnterAll(EMPTY_LEDGER, bucket, rows);
    var periods := sorting.periods(PeriodsOf(l.groups, key));
    var points := PointsOf(sorting, bucket, l, key);
    PointsMean(rows, bucket, key, AggregationOf(l, key), periods);
    forall period: nat ensures Pointed(rows, bucket, key, AggregationOf(l, key), points, period) {
      SeriesPeriods(sorting, bucket, rows, key, period);
    }
  }

  /** The series are those of different keys; the points of each have the value their samples mean. */
  lemma {:induction false} PointsAreMeant(
    ps: Parsers, sorting: Sorting, req: Request, sources: seq<Source>, i: nat, aggregation: Aggregation)
    requires Sorts(sorting) && i < |ReportOf(ps, sorting, req, sources).series|
    requires LastAggregation(AllRows(ps, req, sources), ReportOf(ps, sorting, req, sources).series[i].key, aggregation)
    ensures var rows, series := AllRows(ps, req, sources), ReportOf(ps, sorting, req, sources).series;
            && (forall j | 0 <= j < |series| && j != i :: series[j].key != series[i].key)
            && (forall p | p in series[i].points :: PointMeans(rows, req.bucket, series[i].key, aggregation, p))
  {
    var rows := AllRows(ps, req, sources);
    var l := EnterAll(EMPTY_LEDGER, req.bucket, rows);
    var series := ReportOf(ps, sorting, req, sources).series;
    OneSeriesPerKey(sorting, req.bucket, l, i);
    AggregationIs(rows, req.bucket, series[i].key, aggregation);
    SeriesMeans(sorting, req.bucket, rows, series[i].key);
  }

  lemma {:induction false} OneSeriesPerKey(sorting: Sorting, bucket: Bucket, l: Ledger, i: nat)
    requires Sorts(sorting) && i < |ReportUpTo(sorting, bucket, l, sorting.series(l.aggregations.Keys)).series|
    ensures var series := ReportUpTo(sorting, bucket, l, sorting.series(l.aggregations.Keys)).series;
            && (forall j | 0 <= j < |series| && j != i :: series[j].key != series[i].key)
            && series[i].points == PointsOf(sorting, bucket, l, series[i].key)
  {
    var series := ReportUpTo(sorting, bucket, l, sorting.series(l.aggregations.Keys)).series;
    ReportSeries(sorting, bucket, l, sorting.series(l.aggregations.Keys));
    assert series[i] in series;
    forall j | 0 <= j < |series| && j != i ensures series[j].key != series[i].key {
      assert if i < j then series[i].key != series[j].key else series[j].key != series[i].key;
    }
  }

  /** Every group with samples has its point in the series of its key, unless weights are needed and none is given. */
  lemma {:induction false} EveryGroupHasItsPoint(
    ps: Parsers, sorting: Sorting, req: Request, sources: seq<Source>, key: SeriesKey, period: nat,
    aggregation: Aggregation)
    requires Sorts(sorting) && LastAggregation(AllRows(ps, req, sources), key, aggregation)
    ensures (exists s, p :: s in ReportOf(ps, sorting, req, sources).series && s.key == key && p in s.points &&
                            p.start == period) <==>
            var samples := SamplesFor(AllRows(ps, req, sources), req.bucket, key, period);
            samples != [] && !(aggregation == WeightedAverage && Weightless(samples))
  {
    var rows := AllRows(ps, req, sources);
    var l := EnterAll(EMPTY_LEDGER, req.bucket, rows);
    var series, points := ReportOf(ps, sorting, req, sources).series, PointsOf(sorting, req.bucket, l, key);
    ReportSeries(sorting, req.bucket, l, sorting.series(l.aggregations.Keys));
    AggregationIs(rows, req.bucket, key, aggregation);
    SeriesMeans(sorting, req.bucket, rows, key);
    assert Pointed(rows, req.bucket, key, aggregation, points, period);
    if p :| p in points && p.start == period {
      assert HasKeyOf(series, key);
      var s :| s in series && s.key == key;
      assert p in s.points;
    }
  }
}
