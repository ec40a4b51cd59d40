/** The limit on the points of a day-bucketed series is reached, and exactly when a window can exceed it. */
module ErpLimits {
  import opened Sequences
  import opened Calendar
  import opened ErpAnalytics
  import opened ErpLaws

  /** The number of points of one series of the report. */
  function SeriesLength(ps: Parsers, sorting: Sorting, req: Request, sources: seq<Source>, key: SeriesKey): nat {
    |PointsOf(sorting, req.bucket, EnterAll(EMPTY_LEDGER, req.bucket, AllRows(ps, req, sources)), key)|
  }

  /* ---------- a source with one record a day ---------- */

  /** The start of the k-th day from the one in which the window starts. */
  function Midnight(start: nat, k: nat): nat {
    (start / DAY + k) * DAY
  }

  /** An instant of the k-th day from the one in which the window starts. */
  function Instant(start: nat, k: nat): nat {
    if k == 0 then start else Midnight(start, k)
  }

  /** Every instant of the window is written as some text, and some text is a number. */
  ghost predicate Reads(ps: Parsers, start: nat, end: nat) {
    && (forall n: nat | start <= n < end :: exists t: string :: ps.time(Some(t)) == Some(n))
    && (exists t: string :: ps.decimal(Some(t)).Some?)
  }

  ghost function TimeText(ps: Parsers, start: nat, end: nat, n: nat): (t: string)
    requires Reads(ps, start, end) && start <= n < end
    ensures ps.time(Some(t)) == Some(n)
  {
    var t: string :| ps.time(Some(t)) == Some(n);
    t
  }

  ghost function NumberText(ps: Parsers, start: nat, end: nat): (t: string)
    requires Reads(ps, start, end)
    ensures ps.decimal(Some(t)).Some?
  {
    var t: string :| ps.decimal(Some(t)).Some?;
    t
  }

  const DAILY := Mapping("metric", "entity", "time", "value", None, None, None, [], Sum)
  const DAILY_KEY := SeriesKey("erp", "metric", None, [])

  lemma InstantInWindow(start: nat, end: nat, k: nat)
    requires start < end && k < DaysTouched(start, end)
    ensures start <= Instant(start, k) < end
    ensures BucketStart(Instant(start, k), ByDay) == Midnight(start, k)
  {
    var first, last := start / DAY, (end - 1) / DAY;
    assert first * DAY <= start < (first + 1) * DAY && last * DAY <= end - 1;
    if k > 0 {
      assert Instant(start, k) / DAY == first + k;
    }
  }

  ghost function DailyRecord(ps: Parsers, start: nat, end: nat, k: nat): Record
    requires start < end && Reads(ps, start, end) && k < DaysTouched(start, end)
  {
    InstantInWindow(start, end, k);
    map["time" := TimeText(ps, start, end, Instant(start, k)), "value" := NumberText(ps, start, end)]
  }

  /** One record for each of the first n days that the window touches, written as the parsers read it. */
  ghost function DailyRecords(ps: Parsers, start: nat, end: nat, n: nat): (r: seq<Record>)
    requires start < end && Reads(ps, start, end) && n <= DaysTouched(start, end)
    ensures |r| == n && forall k | 0 <= k < n :: r[k] == DailyRecord(ps, start, end, k)
  {
    if n == 0 then [] else DailyRecords(ps, start, end, n - 1) + [DailyRecord(ps, start, end, n - 1)]
  }

  ghost function DailySource(ps: Parsers, start: nat, end: nat, n: nat): Source
    requires start < end && Reads(ps, start, end) && n <= DaysTouched(start, end)
  {
    Source("erp", [DAILY], [("entity", DailyRecords(ps, start, end, n))])
  }

  function DailyRow(start: nat, k: nat, value: real): Row {
    Row("erp", "metric", Sum, Sampled(None, [], Sample(Instant(start, k), value, None)))
  }

  function DailyRows(start: nat, n: nat, value: real): (r: seq<Row>)
    ensures |r| == n
  {
    if n == 0 then [] else DailyRows(start, n - 1, value) + [DailyRow(start, n - 1, value)]
  }

  ghost function DailyValue(ps: Parsers, start: nat, end: nat): real
    requires Reads(ps, start, end)
  {
    ps.decimal(Some(NumberText(ps, start, end))).value
  }

  lemma DailyRecordRead(ps: Parsers, start: nat, end: nat, k: nat)
    requires start < end && Reads(ps, start, end) && k < DaysTouched(start, end)
    ensures Classify(ps, Request({}, start, end, ByDay), DAILY, DailyRecord(ps, start, end, k)) ==
            Sampled(None, [], Sample(Instant(start, k), DailyValue(ps, start, end), None))
  {
    InstantInWindow(start, end, k);
  }

  lemma OneMoreRecord(ps: Parsers, req: Request, s: Source, m: Mapping, records: seq<Record>, r: Record)
    ensures MappingRows(ps, req, s, m, records + [r]) ==
            MappingRows(ps, req, s, m, records) + [Row(s.connector, m.metric, m.aggregation, Classify(ps, req, m, r))]
  {
    assert (records + [r])[..|records|] == records;
  }

  lemma OneMapping(ps: Parsers, req: Request, s: Source, m: Mapping, records: seq<Record>)
    requires s.mappings == [m] && s.records == [(m.entity, records)] && Wanted(req, m)
    ensures AllRows(ps, req, [s]) == MappingRows(ps, req, s, m, records)
  {
    assert RecordsOf(ps, s, m.entity) == records;
    assert [s][..0] == [];
    assert SourceRows(ps, req, s, 1) == MappingRows(ps, req, s, m, records);
  }

  lemma {:induction false} DailyRowsScanned(ps: Parsers, start: nat, end: nat, s: Source, n: nat)
    requires start < end && Reads(ps, start, end) && n <= DaysTouched(start, end) && s.connector == "erp"
    ensures MappingRows(ps, Request({}, start, end, ByDay), s, DAILY, DailyRecords(ps, start, end, n)) ==
            DailyRows(start, n, DailyValue(ps, start, end))
  {
    if n > 0 {
      DailyRowsScanned(ps, start, end, s, n - 1);
      DailyRecordRead(ps, start, end, n - 1);
      OneMoreRecord(ps, Request({}, start, end, ByDay), s, DAILY, DailyRecords(ps, start, end, n - 1),
                    DailyRecord(ps, start, end, n - 1));
    }
  }

  lemma {:induction false} AllDailyRows(ps: Parsers, start: nat, end: nat, n: nat)
    requires start < end && Reads(ps, start, end) && n <= DaysTouched(start, end)
    ensures AllRows(ps, Request({}, start, end, ByDay), [DailySource(ps, start, end, n)]) ==
            DailyRows(start, n, DailyValue(ps, start, end))
  {
    var s := DailySource(ps, start, end, n);
    DailyRowsScanned(ps, start, end, s, n);
    OneMapping(ps, Request({}, start, end, ByDay), s, DAILY, DailyRecords(ps, start, end, n));
  }

  /** The periods of the series: one for each of the first n days. */
  function DailyPeriods(start: nat, n: nat): (r: set<nat>)
    ensures |r| == n
    ensures forall p | p in r :: p < Midnight(start, n)
  {
    if n == 0 then {}
    else
      assert Midnight(start, n - 1) < Midnight(start, n);
      DailyPeriods(start, n - 1) + {Midnight(start, n - 1)}
  }

  lemma {:induction false} DailySamples(start: nat, end: nat, n: nat, value: real, p: nat)
    requires start < end && n <= DaysTouched(start, end)
    ensures SamplesFor(DailyRows(start, n, value), ByDay, DAILY_KEY, p) != [] <==> p in DailyPeriods(start, n)
  {
    if n > 0 {
      var rows := DailyRows(start, n, value);
      assert rows[..|rows| - 1] == DailyRows(start, n - 1, value);
      assert rows[|rows| - 1] == DailyRow(start, n - 1, value);
      DailySamples(start, end, n - 1, value, p);
      assert BucketStart(Instant(start, n - 1), ByDay) == Midnight(start, n - 1) by {
        InstantInWindow(start, end, n - 1);
      }
    }
  }

  lemma {:induction false} DailySums(start: nat, n: nat, value: real)
    ensures var l := EnterAll(EMPTY_LEDGER, ByDay, DailyRows(start, n, value)); AggregationOf(l, DAILY_KEY) == Sum
  {
    if n > 0 {
      DailySums(start, n - 1, value);
      assert DailyRows(start, n, value)[..n - 1] == DailyRows(start, n - 1, value);
    }
  }

  lemma {:induction false} DailyLedger(start: nat, end: nat, n: nat, value: real)
    requires start < end && n <= DaysTouched(start, end)
    ensures PeriodsOf(EnterAll(EMPTY_LEDGER, ByDay, DailyRows(start, n, value)).groups, DAILY_KEY) ==
            DailyPeriods(start, n)
  {
    var groups := EnterAll(EMPTY_LEDGER, ByDay, DailyRows(start, n, value)).groups;
    forall p: nat ensures p in PeriodsOf(groups, DAILY_KEY) <==> p in DailyPeriods(start, n) {
      assert p in PeriodsOf(groups, DAILY_KEY) <==> (DAILY_KEY, p) in groups;
      GroupsAccount(DailyRows(start, n, value), ByDay, DAILY_KEY, p);
      DailySamples(start, end, n, value, p);
    }
  }

  lemma {:induction false} SumsHaveValues(groups: Groups, key: SeriesKey, periods: seq<nat>)
    requires forall p | p in periods :: SamplesAt(groups, key, p) != []
    ensures |Points(Sum, groups, key, ByDay, periods)| == |periods|
  {
    if periods != [] {
      var front, p := periods[..|periods| - 1], periods[|periods| - 1];
      assert periods == front + [p];
      SumsHaveValues(groups, key, front);
    }
  }

  lemma AscendingNoDup(s: seq<nat>)
    requires StrictlyAscending(s)
    ensures NoDup(s)
  {
  }

  lemma {:induction false} DailyPoints(sorting: Sorting, start: nat, end: nat, n: nat, value: real)
    requires Sorts(sorting) && start < end && n <= DaysTouched(start, end)
    ensures |PointsOf(sorting, ByDay, EnterAll(EMPTY_LEDGER, ByDay, DailyRows(start, n, value)), DAILY_KEY)| == n
  {
    var l := EnterAll(EMPTY_LEDGER, ByDay, DailyRows(start, n, value));
    var periods := sorting.periods(DailyPeriods(start, n));
    DailyLedger(start, end, n, value);
    DailySums(start, n, value);
    forall p | p in periods ensures SamplesAt(l.groups, DAILY_KEY, p) != [] {
      GroupsAccount(DailyRows(start, n, value), ByDay, DAILY_KEY, p);
      DailySamples(start, end, n, value, p);
    }
    SumsHaveValues(l.groups, DAILY_KEY, periods);
    ListedOnce(sorting, DailyPeriods(start, n));
  }

  /** The bound is sharp for every window and parser: a source with a record a day has a point for each day touched. */
  lemma {:induction false} EveryDayHasItsPoint(ps: Parsers, sorting: Sorting, start: nat, end: nat)
    requires Sorts(sorting) && start < end && Reads(ps, start, end)
    ensures SeriesLength(ps, sorting, Request({}, start, end, ByDay),
                         [DailySource(ps, start, end, DaysTouched(start, end))], DAILY_KEY) == DaysTouched(start, end)
  {
    AllDailyRows(ps, start, end, DaysTouched(start, end));
    DailyPoints(sorting, start, end, DaysTouched(start, end), DailyValue(ps, start, end));
  }

  lemma {:induction false} ListedOnce(sorting: Sorting, periods: set<nat>)
    requires Sorts(sorting)
    ensures |sorting.periods(periods)| == |periods|
  {
    var listed := sorting.periods(periods);
    AscendingNoDup(listed);
    NoDupCard(listed);
    assert Elements(listed) == periods;
  }

  /** For any window and parser: series stay within a number of points exactly when the window touches no more days. */
  lemma {:induction false} LengthLimitIff(ps: Parsers, sorting: Sorting, start: nat, end: nat, limit: nat)
    requires Sorts(sorting) && start < end && Reads(ps, start, end)
    ensures (forall metrics, sources, key ::
               SeriesLength(ps, sorting, Request(metrics, start, end, ByDay), sources, key) <= limit)
            <==> DaysTouched(start, end) <= limit
  {
    EveryDayHasItsPoint(ps, sorting, start, end);
    forall metrics, sources, key
      ensures SeriesLength(ps, sorting, Request(metrics, start, end, ByDay), sources, key) <= DaysTouched(start, end)
    {
      DayPointsBound(ps, sorting, Request(metrics, start, end, ByDay), sources, key);
    }
  }

  /**
    Windows of at most 731 days, and any parser that reads the instants of the window: a series of day buckets has at
    most 732 points, and none can have more than the 731 a trend series allows exactly when the window ends by the
    731st midnight after the day in which it starts.
   */
  lemma {:induction false} PointLimitIff(ps: Parsers, sorting: Sorting, start: nat, end: nat)
    requires Sorts(sorting) && start < end <= start + 731 * DAY && Reads(ps, start, end)
    ensures (forall metrics, sources, key ::
               SeriesLength(ps, sorting, Request(metrics, start, end, ByDay), sources, key) <= 731)
            <==> end <= (start / DAY + 731) * DAY
    ensures forall metrics, sources, key ::
              SeriesLength(ps, sorting, Request(metrics, start, end, ByDay), sources, key) <= 732
  {
    WindowDays(start, end);
    LengthLimitIff(ps, sorting, start, end, MAX_POINTS);
    LengthLimitIff(ps, sorting, start, end, MAX_POINTS + 1);
  }

  function Noon(day: nat): nat {
    day * DAY + DAY / 2
  }

  lemma NoonDays(day: nat)
    ensures DaysTouched(Noon(day), Noon(day + MAX_DAYS)) == MAX_POINTS + 1
  {
    WholeDays(day, DAY / 2);
    WholeDays(day + MAX_DAYS, DAY / 2 - 1);
    assert Noon(day + MAX_DAYS) - 1 == (day + MAX_DAYS) * DAY + (DAY / 2 - 1);
  }

  /** A failing input for any such parser: a window of 731 days from noon to noon, and a record a day. */
  lemma {:induction false} NoonWindowOverflows(ps: Parsers, sorting: Sorting, day: nat)
    requires Sorts(sorting) && Reads(ps, Noon(day), Noon(day + MAX_DAYS))
    ensures Noon(day + MAX_DAYS) == Noon(day) + MAX_DAYS * DAY
    ensures var start, end := Noon(day), Noon(day + MAX_DAYS);
            var n := DaysTouched(start, end);
            && n == MAX_POINTS + 1
            && SeriesLength(ps, sorting, Request({}, start, end, ByDay), [DailySource(ps, start, end, n)], DAILY_KEY)
               == n
  {
    NoonDays(day);
    EveryDayHasItsPoint(ps, sorting, Noon(day), Noon(day + MAX_DAYS));
  }

  lemma WholeDays(day: nat, rest: nat)
    requires rest < DAY
    ensures (day * DAY + rest) / DAY == day
  {
  }
}
