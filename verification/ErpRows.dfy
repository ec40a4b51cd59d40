/** Which records are scanned and what each comes to, told by the fields of the record. */
module ErpRows {
  import opened Sequences
  import opened ErpAnalytics

  /* ---------- which records are scanned ---------- */

  /** The mapping is wanted, and the record is of the first entity with the mapped name, up to case. */
  predicate Scanned(ps: Parsers, req: Request, s: Source, m: Mapping, r: Record) {
    && (req.metrics == {} || m.metric in req.metrics)
    && exists i :: 0 <= i < |s.records| && FirstNamed(ps, s, m.entity, i) && r in s.records[i].1
  }

  predicate FirstNamed(ps: Parsers, s: Source, entity: string, i: nat) {
    && i < |s.records| && ps.fold(s.records[i].0) == ps.fold(entity)
    && forall j | 0 <= j < i :: ps.fold(s.records[j].0) != ps.fold(entity)
  }

  ghost predicate RowFor(ps: Parsers, req: Request, s: Source, m: Mapping, row: Row) {
    exists r :: Scanned(ps, req, s, m, r) &&
                row == Row(s.connector, m.metric, m.aggregation, Classify(ps, req, m, r))
  }

  lemma {:induction false} MappingRowsAre(
    ps: Parsers, req: Request, s: Source, m: Mapping, records: seq<Record>, row: Row)
    ensures row in MappingRows(ps, req, s, m, records) <==>
            exists r :: r in records && row == Row(s.connector, m.metric, m.aggregation, Classify(ps, req, m, r))
  {
    if records != [] {
      var front, r := records[..|records| - 1], records[|records| - 1];
      assert records == front + [r];
      MappingRowsAre(ps, req, s, m, front, row);
    }
  }

  lemma ScannedIff(ps: Parsers, req: Request, s: Source, m: Mapping, r: Record)
    ensures Scanned(ps, req, s, m, r) <==> Wanted(req, m) && r in RecordsOf(ps, s, m.entity)
  {
    var i := FirstIndex(s.records, (e: (string, seq<Record>)) => ps.fold(e.0) == ps.fold(m.entity));
    if i.Some? {
      assert FirstNamed(ps, s, m.entity, i.value);
    }
  }

  lemma {:induction false} RowForIff(ps: Parsers, req: Request, s: Source, m: Mapping, row: Row)
    ensures RowFor(ps, req, s, m, row) <==>
            Wanted(req, m) && row in MappingRows(ps, req, s, m, RecordsOf(ps, s, m.entity))
  {
    forall r ensures Scanned(ps, req, s, m, r) <==> Wanted(req, m) && r in RecordsOf(ps, s, m.entity) {
      ScannedIff(ps, req, s, m, r);
    }
    MappingRowsAre(ps, req, s, m, RecordsOf(ps, s, m.entity), row);
  }

  lemma {:induction false} SourceRowsAre(ps: Parsers, req: Request, s: Source, n: nat, row: Row)
    requires n <= |s.mappings|
    ensures row in SourceRows(ps, req, s, n) <==> exists m :: m in s.mappings[..n] && RowFor(ps, req, s, m, row)
  {
    if n > 0 {
      var m := s.mappings[n - 1];
      assert s.mappings[..n] == s.mappings[..n - 1] + [m];
      SourceRowsAre(ps, req, s, n - 1, row);
      RowForIff(ps, req, s, m, row);
    }
  }

  /** The rows are those of the scanned records of all sources and mappings. */
  lemma {:induction false} RowsAre(ps: Parsers, req: Request, sources: seq<Source>, row: Row)
    ensures row in AllRows(ps, req, sources) <==>
            exists s, m :: s in sources && m in s.mappings && RowFor(ps, req, s, m, row)
  {
    if sources != [] {
      var front, s := sources[..|sources| - 1], sources[|sources| - 1];
      assert sources == front + [s];
      RowsAre(ps, req, front, row);
      SourceRowsAre(ps, req, s, |s.mappings|, row);
      assert s.mappings[..|s.mappings|] == s.mappings;
    }
  }

  /* ---------- what a record comes to ---------- */

  /** What is wrong with the record, each fault judged on its own. */
  predicate Faulty(ps: Parsers, req: Request, m: Mapping, r: Record, code: Code) {
    match code
    case InvalidTimestamp => ps.time(Get(r, m.timestampField)).None?
    case OutOfRange =>
      var t := ps.time(Get(r, m.timestampField));
      t.Some? && !(req.start <= t.value < req.end)
    case InvalidValue => ps.decimal(Get(r, m.valueField)).None?
    case InvalidWeight =>
      m.weightField.Some? &&
      var weight := ps.decimal(Get(r, m.weightField.value));
      weight.Some? ==> weight.value < 0.0
    case MissingCurrency =>
      m.currencyField.Some? && (m.currencyField.value in r ==> ps.blank(r[m.currencyField.value]))
    case InvalidCurrency =>
      m.currencyField.Some? && m.currencyField.value in r && !ps.blank(r[m.currencyField.value]) &&
      !ps.currencyCode(ps.currency(r[m.currencyField.value]))
  }

  /** The faults in the order of their weight: the record is warned about for the first. */
  const FAULTS := [InvalidTimestamp, OutOfRange, InvalidValue, InvalidWeight, MissingCurrency, InvalidCurrency]

  /** The sample has the parsed time, value and weight, the currency of record or mapping, and the dimensions. */
  predicate SampledAs(
    ps: Parsers, m: Mapping, r: Record, currency: Option<string>, dimensions: seq<(string, string)>, x: Sample)
  {
    && ps.time(Get(r, m.timestampField)) == Some(x.time) && ps.decimal(Get(r, m.valueField)) == Some(x.value)
    && x.weight == (if m.weightField.None? then None else ps.decimal(Get(r, m.weightField.value)))
    && (if m.currencyField.None? then currency == m.fixedCurrency
        else m.currencyField.value in r && currency == Some(ps.currency(r[m.currencyField.value])))
    && |dimensions| == |m.dimensionFields|
    && forall i | 0 <= i < |dimensions| ::
         dimensions[i] == (m.dimensionFields[i], ps.dimension(Get(r, m.dimensionFields[i])))
  }

  lemma {:induction false} DimensionsAre(ps: Parsers, r: Record, fields: seq<string>)
    ensures |Dimensions(ps, r, fields)| == |fields|
    ensures forall i | 0 <= i < |fields| :: Dimensions(ps, r, fields)[i] == (fields[i], ps.dimension(Get(r, fields[i])))
  {
    if fields != [] {
      DimensionsAre(ps, r, fields[..|fields| - 1]);
    }
  }

  /** A record is warned about for its first fault; one without fault is sampled with what its fields say. */
  lemma {:induction false} FirstFault(ps: Parsers, req: Request, m: Mapping, r: Record)
    ensures match Classify(ps, req, m, r)
            case Warned(code) =>
              exists i :: 0 <= i < |FAULTS| && FAULTS[i] == code && Faulty(ps, req, m, r, code) &&
                          forall j | 0 <= j < i :: !Faulty(ps, req, m, r, FAULTS[j])
            case Sampled(currency, dimensions, x) =>
              (forall code :: !Faulty(ps, req, m, r, code)) && SampledAs(ps, m, r, currency, dimensions, x)
  {
    DimensionsAre(ps, r, m.dimensionFields);
    if Classify(ps, req, m, r).Warned? {
      var code := Classify(ps, req, m, r).code;
      var i := FaultAt(code);
      assert FAULTS[i] == code;
    }
  }

  function FaultAt(code: Code): (i: nat)
    ensures i < |FAULTS| && FAULTS[i] == code
  {
    match code
    case InvalidTimestamp => 0
    case OutOfRange => 1
    case InvalidValue => 2
    case InvalidWeight => 3
    case MissingCurrency => 4
    case InvalidCurrency => 5
  }
}
