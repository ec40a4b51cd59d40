/** Aggregation of live ERP and WMS records into calendar buckets (services/erp_analytics.py). */
module ErpAnalytics {
  import opened Sequences
  import opened Calendar

  datatype Aggregation = Sum | Minimum | Maximum | Latest | WeightedAverage | Average

  type Record = map<string, string>

  datatype Mapping = Mapping(
    metric: string, entity: string, timestampField: string, valueField: string, weightField: Option<string>,
    currencyField: Option<string>, fixedCurrency: Option<string>, dimensionFields: seq<string>,
    aggregation: Aggregation)

  datatype Source = Source(connector: string, mappings: seq<Mapping>, records: seq<(string, seq<Record>)>)

  /** Time and number parsing, currency clean-up and check, dimension clean-up, case folding. */
  datatype Parsers = Parsers(
    time: Option<string> -> Option<nat>, decimal: Option<string> -> Option<real>, blank: string -> bool,
    currency: string -> string, currencyCode: string -> bool, dimension: Option<string> -> string,
    fold: string -> string)

  datatype Request = Request(metrics: set<string>, start: nat, end: nat, bucket: Bucket)

  datatype Code = InvalidTimestamp | OutOfRange | InvalidValue | InvalidWeight | MissingCurrency | InvalidCurrency

  datatype Sample = Sample(time: nat, value: real, weight: Option<real>)

  datatype SeriesKey = SeriesKey(
    connector: string, metric: string, currency: Option<string>, dimensions: seq<(string, string)>)

  /** What one record comes to: one warning, or one sample of one series. */
  datatype Outcome =
    | Warned(code: Code)
    | Sampled(currency: Option<string>, dimensions: seq<(string, string)>, sample: Sample)

  function Get(r: Record, field: string): Option<string> {
    if field in r then Some(r[field]) else None
  }

  function Dimensions(ps: Parsers, r: Record, fields: seq<string>): seq<(string, string)> {
    if fields == [] then []
    else
      var field := fields[|fields| - 1];
      Dimensions(ps, r, fields[..|fields| - 1]) + [(field, ps.dimension(Get(r, field)))]
  }

  function CurrencyOf(ps: Parsers, m: Mapping, r: Record): Result<Option<string>, Code> {
    if m.currencyField.None? then Ok(m.fixedCurrency)
    else
      var raw := Get(r, m.currencyField.value);
      if raw.None? || ps.blank(raw.value) then Err(MissingCurrency)
      else
        var code := ps.currency(raw.value);
        if ps.currencyCode(code) then Ok(Some(code)) else Err(InvalidCurrency)
  }

  function Classify(ps: Parsers, req: Request, m: Mapping, r: Record): Outcome {
    var time := ps.time(Get(r, m.timestampField));
    if time.None? then Warned(InvalidTimestamp)
    else if time.value < req.start || time.value >= req.end then Warned(OutOfRange)
    else
      var value := ps.decimal(Get(r, m.valueField));
      if value.None? then Warned(InvalidValue)
      else
        var weight := if m.weightField.Some? then ps.decimal(Get(r, m.weightField.value)) else None;
        if m.weightField.Some? && (weight.None? || weight.value < 0.0) then Warned(InvalidWeight)
        else
          match CurrencyOf(ps, m, r)
          case Err(code) => Warned(code)
          case Ok(currency) =>
            Sampled(currency, Dimensions(ps, r, m.dimensionFields), Sample(time.value, value.value, weight))
  }

  /* ---------- scanning ---------- */

  datatype Row = Row(connector: string, metric: string, aggregation: Aggregation, outcome: Outcome)

  type Groups = map<(SeriesKey, nat), seq<Sample>>

  datatype Ledger = Ledger(
    groups: Groups, aggregations: map<SeriesKey, Aggregation>, warnings: map<(string, string, Code), nat>)

  const EMPTY_LEDGER := Ledger(map[], map[], map[])

  function SeriesOf(row: Row): SeriesKey
    requires row.outcome.Sampled?
  {
    SeriesKey(row.connector, row.metric, row.outcome.currency, row.outcome.dimensions)
  }

  function Bump(
    w: map<(string, string, Code), nat>, key: (string, string, Code), n: nat): map<(string, string, Code), nat> {
    w[key := (if key in w then w[key] else 0) + n]
  }

  function Enter(l: Ledger, bucket: Bucket, row: Row): Ledger {
    match row.outcome
    case Warned(code) => l.(warnings := Bump(l.warnings, (row.connector, row.metric, code), 1))
    case Sampled(_, _, sample) =>
      var key := (SeriesOf(row), BucketStart(sample.time, bucket));
      var samples := if key in l.groups then l.groups[key] else [];
      l.(groups := l.groups[key := samples + [sample]],
          aggregations := l.aggregations[SeriesOf(row) := row.aggregation])
  }

  function EnterAll(l: Ledger, bucket: Bucket, rows: seq<Row>): Ledger {
    if rows == [] then l else Enter(EnterAll(l, bucket, rows[..|rows| - 1]), bucket, rows[|rows| - 1])
  }

  function RecordsOf(ps: Parsers, s: Source, entity: string): seq<Record> {
    var i := FirstIndex(s.records, (e: (string, seq<Record>)) => ps.fold(e.0) == ps.fold(entity));
    if i.None? then [] else s.records[i.value].1
  }

  function MappingRows(ps: Parsers, req: Request, s: Source, m: Mapping, records: seq<Record>): seq<Row> {
    if records == [] then []
    else MappingRows(ps, req, s, m, records[..|records| - 1]) +
         [Row(s.connector, m.metric, m.aggregation, Classify(ps, req, m, records[|records| - 1]))]
  }

  predicate Wanted(req: Request, m: Mapping) {
    req.metrics == {} || m.metric in req.metrics
  }

  function SourceRows(ps: Parsers, req: Request, s: Source, n: nat): seq<Row>
    requires n <= |s.mappings|
  {
    if n == 0 then []
    else
      var front, m := SourceRows(ps, req, s, n - 1), s.mappings[n - 1];
      if Wanted(req, m) then front + MappingRows(ps, req, s, m, RecordsOf(ps, s, m.entity)) else front
  }

  function AllRows(ps: Parsers, req: Request, sources: seq<Source>): seq<Row> {
    if sources == [] then []
    else
      var s := sources[|sources| - 1];
      AllRows(ps, req, sources[..|sources| - 1]) + SourceRows(ps, req, s, |s.mappings|)
  }

  lemma {:induction false} EnterAllConcat(l: Ledger, bucket: Bucket, a: seq<Row>, b: seq<Row>)
    ensures EnterAll(l, bucket, a + b) == EnterAll(EnterAll(l, bucket, a), bucket, b)
  {
    if b == [] {
      assert a + b == a;
    } else {
      EnterAllConcat(l, bucket, a, b[..|b| - 1]);
      assert (a + b)[..|a + b| - 1] == a + b[..|b| - 1];
    }
  }

  method ScanMapping(ps: Parsers, req: Request, s: Source, m: Mapping, before: Ledger) returns (l: Ledger)
    ensures l == EnterAll(before, req.bucket, MappingRows(ps, req, s, m, RecordsOf(ps, s, m.entity)))
  {
    l := before;
    var records := RecordsOf(ps, s, m.entity);
    for i := 0 to |records|
      invariant l == EnterAll(before, req.bucket, MappingRows(ps, req, s, m, records[..i]))
    {
      ghost var rows := MappingRows(ps, req, s, m, records[..i]);
      var row := Row(s.connector, m.metric, m.aggregation, Classify(ps, req, m, records[i]));
      assert records[..i + 1][..i] == records[..i];
      assert (rows + [row])[..|rows|] == rows;
      l := Enter(l, req.bucket, row);
    }
    assert records[..|records|] == records;
  }

  method ScanSource(ps: Parsers, req: Request, s: Source, before: Ledger) returns (l: Ledger)
    ensures l == EnterAll(before, req.bucket, SourceRows(ps, req, s, |s.mappings|))
  {
    l := before;
    for k := 0 to |s.mappings|
      invariant l == EnterAll(before, req.bucket, SourceRows(ps, req, s, k))
    {
      var m := s.mappings[k];
      if Wanted(req, m) {
        l := ScanMapping(ps, req, s, m, l);
        EnterAllConcat(before, req.bucket, SourceRows(ps, req, s, k),
            MappingRows(ps, req, s, m, RecordsOf(ps, s, m.entity)));
      }
    }
  }

  method Scan(ps: Parsers, req: Request, sources: seq<Source>) returns (l: Ledger)
    ensures l == EnterAll(EMPTY_LEDGER, req.bucket, AllRows(ps, req, sources))
  {
    l := EMPTY_LEDGER;
    for i := 0 to |sources|
      invariant l == EnterAll(EMPTY_LEDGER, req.bucket, AllRows(ps, req, sources[..i]))
    {
      var s := sources[i];
      l := ScanSource(ps, req, s, l);
      EnterAllConcat(EMPTY_LEDGER, req.bucket, AllRows(ps, req, sources[..i]), SourceRows(ps, req, s, |s.mappings|));
      assert sources[..i + 1][..i] == sources[..i];
    }
    assert sources[..|sources|] == sources;
  }

  /* ---------- points ---------- */

  function Total(f: Sample -> real, s: seq<Sample>): real {
    if s == [] then 0.0 else Total(f, s[..|s| - 1]) + f(s[|s| - 1])
  }

  function Least(s: seq<Sample>): (r: real)
    requires s != []
    ensures forall x | x in s :: r <= x.value
    ensures exists x :: x in s && x.value == r
  {
    var last := s[|s| - 1];
    assert s == s[..|s| - 1] + [last];
    if |s| == 1 then last.value
    else
      var r := Least(s[..|s| - 1]);
      if last.value < r then assert last in s; last.value else r
  }

  function Greatest(s: seq<Sample>): (r: real)
    requires s != []
    ensures forall x | x in s :: x.value <= r
    ensures exists x :: x in s && x.value == r
  {
    var last := s[|s| - 1];
    assert s == s[..|s| - 1] + [last];
    if |s| == 1 then last.value
    else
      var r := Greatest(s[..|s| - 1]);
      if last.value > r then assert last in s; last.value else r
  }

  /** The sample with the greatest time, the greatest value on ties. */
  function LatestOf(s: seq<Sample>): (r: Sample)
    requires s != []
    ensures r in s
    ensures forall x | x in s :: x.time < r.time || (x.time == r.time && x.value <= r.value)
  {
    var last := s[|s| - 1];
    assert s == s[..|s| - 1] + [last];
    if |s| == 1 then last
    else
      var r := LatestOf(s[..|s| - 1]);
      if last.time > r.time || (last.time == r.time && last.value > r.value) then last else r
  }

  function ValueOf(x: Sample): real {
    x.value
  }

  function WeightOf(x: Sample): real {
    if x.weight.Some? && x.weight.value >= 0.0 then x.weight.value else 0.0
  }

  function WeightedValue(x: Sample): real {
    x.value * WeightOf(x)
  }

  /** None only for samples without weight in a weighted average. */
  function AggregateOf(aggregation: Aggregation, s: seq<Sample>): Option<real> {
    if s == [] then None
    else
      match aggregation
      case Sum => Some(Total(ValueOf, s))
      case Minimum => Some(Least(s))
      case Maximum => Some(Greatest(s))
      case Latest => Some(LatestOf(s).value)
      case WeightedAverage =>
        if Total(WeightOf, s) == 0.0 then None else Some(Total(WeightedValue, s) / Total(WeightOf, s))
      case Average => Some(Total(ValueOf, s) / (|s| as real))
  }

  datatype Point = Point(start: nat, end: nat, value: real, samples: nat)

  function PeriodsOf(groups: Groups, series: SeriesKey): set<nat> {
    set g | g in groups && g.0 == series :: g.1
  }

  predicate StrictlyAscending(s: seq<nat>) {
    forall i, j | 0 <= i < j < |s| :: s[i] < s[j]
  }

  /** Python sorts series keys by their JSON text and periods by time. */
  datatype Sorting = Sorting(series: set<SeriesKey> -> seq<SeriesKey>, periods: set<nat> -> seq<nat>)

  ghost predicate Sorts(sorting: Sorting) {
    && (forall s :: NoDup(sorting.series(s)) && forall k :: k in sorting.series(s) <==> k in s)
    && (forall s :: StrictlyAscending(sorting.periods(s)) && forall p :: p in sorting.periods(s) <==> p in s)
  }

  function SamplesAt(groups: Groups, series: SeriesKey, period: nat): seq<Sample> {
    if (series, period) in groups then groups[(series, period)] else []
  }

  /** The points of one series over its sorted periods; periods without a value give none. */
  function Points(
    aggregation: Aggregation, groups: Groups, series: SeriesKey, bucket: Bucket, periods: seq<nat>): seq<Point> {
    if periods == [] then []
    else
      var front, p := Points(aggregation, groups, series, bucket, periods[..|periods| - 1]), periods[|periods| - 1];
      var samples := SamplesAt(groups, series, p);
      var value := AggregateOf(aggregation, samples);
      if value.None? then front else front + [Point(p, BucketEnd(p, bucket), value.value, |samples|)]
  }

  /** The samples of those periods, which are added to the invalid_weight warning. */
  function Dropped(aggregation: Aggregation, groups: Groups, series: SeriesKey, periods: seq<nat>): nat {
    if periods == [] then 0
    else
      var samples := SamplesAt(groups, series, periods[|periods| - 1]);
      Dropped(aggregation, groups, series, periods[..|periods| - 1]) +
      if AggregateOf(aggregation, samples).None? then |samples| else 0
  }

  datatype Series = Series(key: SeriesKey, points: seq<Point>)

  datatype Report = Report(series: seq<Series>, warnings: map<(string, string, Code), nat>)

  function AggregationOf(l: Ledger, key: SeriesKey): Aggregation {
    if key in l.aggregations then l.aggregations[key] else Sum
  }

  function PointsOf(sorting: Sorting, bucket: Bucket, l: Ledger, key: SeriesKey): seq<Point> {
    Points(AggregationOf(l, key), l.groups, key, bucket, sorting.periods(PeriodsOf(l.groups, key)))
  }

  function DroppedOf(sorting: Sorting, l: Ledger, key: SeriesKey): nat {
    Dropped(AggregationOf(l, key), l.groups, key, sorting.periods(PeriodsOf(l.groups, key)))
  }

  /** No warning is entered for no sample. */
  function WithDropped(
    w: map<(string, string, Code), nat>, key: SeriesKey, dropped: nat): map<(string, string, Code), nat> {
    if dropped == 0 then w else Bump(w, (key.connector, key.metric, InvalidWeight), dropped)
  }

  lemma DroppedAdds(w: map<(string, string, Code), nat>, key: SeriesKey, a: nat, b: nat)
    ensures WithDropped(WithDropped(w, key, a), key, b) == WithDropped(w, key, a + b)
  {
  }

  /** All series with at least one point, before the series cap, and the warnings with the dropped samples added. */
  function ReportUpTo(sorting: Sorting, bucket: Bucket, l: Ledger, keys: seq<SeriesKey>): Report {
    if keys == [] then Report([], l.warnings)
    else
      var front, key := ReportUpTo(sorting, bucket, l, keys[..|keys| - 1]), keys[|keys| - 1];
      var points, dropped := PointsOf(sorting, bucket, l, key), DroppedOf(sorting, l, key);
      Report(if points == [] then front.series else front.series + [Series(key, points)],
             WithDropped(front.warnings, key, dropped))
  }

  lemma PeriodStep(
    aggregation: Aggregation, groups: Groups, series: SeriesKey, bucket: Bucket, periods: seq<nat>, i: nat)
    requires i < |periods|
    ensures var p, samples := periods[i], SamplesAt(groups, series, periods[i]);
            var value := AggregateOf(aggregation, samples);
            && Points(aggregation, groups, series, bucket, periods[..i + 1]) ==
               Points(aggregation, groups, series, bucket, periods[..i]) +
               (if value.None? then [] else [Point(p, BucketEnd(p, bucket), value.value, |samples|)])
            && Dropped(aggregation, groups, series, periods[..i + 1]) ==
               Dropped(aggregation, groups, series, periods[..i]) + if value.None? then |samples| else 0
  {
    assert periods[..i + 1][..i] == periods[..i];
  }

  method SeriesPoints(
    sorting: Sorting, bucket: Bucket, l: Ledger, key: SeriesKey, before: map<(string, string, Code), nat>)
    returns (points: seq<Point>, warnings: map<(string, string, Code), nat>)
    ensures points == PointsOf(sorting, bucket, l, key)
    ensures warnings == WithDropped(before, key, DroppedOf(sorting, l, key))
  {
    var periods, aggregation := sorting.periods(PeriodsOf(l.groups, key)), AggregationOf(l, key);
    ghost var dropped := 0;
    points, warnings := [], before;
    for i := 0 to |periods|
      invariant points == Points(aggregation, l.groups, key, bucket, periods[..i])
      invariant dropped == Dropped(aggregation, l.groups, key, periods[..i])
      invariant warnings == WithDropped(before, key, dropped)
    {
      PeriodStep(aggregation, l.groups, key, bucket, periods, i);
      var samples := SamplesAt(l.groups, key, periods[i]);
      var value := AggregateOf(aggregation, samples);
      if value.None? {
        DroppedAdds(before, key, dropped, |samples|);
        if samples != [] {
          warnings := Bump(warnings, (key.connector, key.metric, InvalidWeight), |samples|);
        }
        dropped := dropped + |samples|;
      } else {
        points := points + [Point(periods[i], BucketEnd(periods[i], bucket), value.value, |samples|)];
      }
    }
    assert periods[..|periods|] == periods;
  }

  method AnalyzeErpRecords(ps: Parsers, sorting: Sorting, req: Request, sources: seq<Source>) returns (report: Report)
    ensures var l := EnterAll(EMPTY_LEDGER, req.bucket, AllRows(ps, req, sources));
            report == ReportUpTo(sorting, req.bucket, l, sorting.series(l.aggregations.Keys))
  {
    var l := Scan(ps, req, sources);
    var keys := sorting.series(l.aggregations.Keys);
    report := Report([], l.warnings);
    for i := 0 to |keys|
      invariant report == ReportUpTo(sorting, req.bucket, l, keys[..i])
    {
      assert keys[..i + 1][..i] == keys[..i];
      var points, warnings := SeriesPoints(sorting, req.bucket, l, keys[i], report.warnings);
      report := Report(if points == [] then report.series else report.series + [Series(keys[i], points)], warnings);
    }
    assert keys[..|keys|] == keys;
  }
}
