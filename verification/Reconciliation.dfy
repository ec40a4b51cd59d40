/** Fulfilment reconciliation across NetSuite, WMS and Amazon FBA (services/fulfillment_reconciliation.py). */
module Reconciliation {
  import opened Sequences

  const MAX_FINDINGS := 1_000
  const SMALLEST := 0.000001

  datatype Stage = Netsuite | Wms | AmazonFba

  datatype Key = Key(sku: string, reference: string, dimensions: seq<string>)

  datatype Aggregate = Aggregate(quantity: real, count: nat, updatedAt: Option<int>)

  type Table = map<Key, Aggregate>

  type Record = map<string, string>

  datatype Mapping = Mapping(
    flow: string, entity: string, skuField: string, quantityField: string, referenceField: Option<string>,
    dimensionFields: seq<string>, timestampField: Option<string>)

  datatype Source = Source(
    connector: string, stage: Stage, mappings: seq<Mapping>, records: seq<(string, seq<Record>)>)

  /** Text clean-up, number and time parsing, and case folding; each takes a missing field as None. */
  datatype Parsers = Parsers(
    reference: Option<string> -> string, decimal: Option<string> -> Option<real>, stamp: Option<string> -> Option<int>,
    fold: string -> string)

  /** Python sorts keys and flow ids; only that a sort lists each element once matters here. */
  datatype Sorting = Sorting(keys: set<Key> -> seq<Key>, flows: set<string> -> seq<string>)

  ghost predicate Enumerates(sorting: Sorting) {
    && (forall s :: NoDup(sorting.keys(s)) && forall k :: k in sorting.keys(s) <==> k in s)
    && (forall s :: NoDup(sorting.flows(s)) && forall f :: f in sorting.flows(s) <==> f in s)
  }

  datatype Request = Request(flows: set<string>, absolute: real, relative: real)

  datatype Code = MappingNotConfigured | InvalidRecord
  datatype Warning = Warning(connector: Option<string>, flow: Option<string>, code: Code)
  type Warnings = map<Warning, nat>

  function Bump(w: Warnings, key: Warning): Warnings {
    w[key := CountOf(w, key) + 1]
  }

  function CountOf(w: Warnings, key: Warning): nat {
    if key in w then w[key] else 0
  }

  /* ---------- reading records ---------- */

  /** A record as a mapping reads it. */
  datatype Reading = Reading(key: Key, quantity: Option<real>, stamp: Option<int>)

  function Get(r: Record, field: string): Option<string> {
    if field in r then Some(r[field]) else None
  }

  function Dimensions(ps: Parsers, r: Record, fields: seq<string>): seq<string> {
    if fields == [] then []
    else Dimensions(ps, r, fields[..|fields| - 1]) + [ps.reference(Get(r, fields[|fields| - 1]))]
  }

  function Read(ps: Parsers, m: Mapping, r: Record): Reading {
    Reading(
      Key(ps.reference(Get(r, m.skuField)),
          if m.referenceField.Some? then ps.reference(Get(r, m.referenceField.value)) else "",
          Dimensions(ps, r, m.dimensionFields)),
      ps.decimal(Get(r, m.quantityField)),
      if m.timestampField.Some? then ps.stamp(Get(r, m.timestampField.value)) else None)
  }

  predicate Accepted(r: Reading) {
    r.key.sku != "" && r.quantity.Some? && r.quantity.value >= 0.0
  }

  function Later(a: Option<int>, b: Option<int>): Option<int> {
    if b.Some? && (a.None? || b.value > a.value) then b else a
  }

  /** An accepted reading. */
  datatype Posting = Posting(key: Key, quantity: real, stamp: Option<int>)

  function PostingOf(r: Reading): Posting
    requires Accepted(r)
  {
    Posting(r.key, r.quantity.value, r.stamp)
  }

  function Post(t: Table, p: Posting): Table {
    var last := if p.key in t then t[p.key] else Aggregate(0.0, 0, None);
    t[p.key := Aggregate(last.quantity + p.quantity, last.count + 1, Later(last.updatedAt, p.stamp))]
  }

  /** What the scan meets, in order: a target table is opened, a source has no mapping, or a record is read. */
  datatype Item =
    | Unconfigured(connector: string)
    | Open(stage: Stage, flow: string)
    | Row(connector: string, stage: Stage, flow: string, reading: Reading)

  datatype Tally = Tally(tables: map<(Stage, string), Table>, warnings: Warnings, inspected: nat)

  const EMPTY_TALLY := Tally(map[], map[], 0)

  function Enter(t: Tally, item: Item): Tally {
    match item
    case Unconfigured(c) => t.(warnings := Bump(t.warnings, Warning(Some(c), None, MappingNotConfigured)))
    case Open(stage, flow) => if (stage, flow) in t.tables then t else t.(tables := t.tables[(stage, flow) := map[]])
    case Row(c, stage, flow, r) =>
      if !Accepted(r) then
        t.(inspected := t.inspected + 1, warnings := Bump(t.warnings, Warning(Some(c), Some(flow), InvalidRecord)))
      else
        var table := if (stage, flow) in t.tables then t.tables[(stage, flow)] else map[];
        t.(inspected := t.inspected + 1, tables := t.tables[(stage, flow) := Post(table, PostingOf(r))])
  }

  function EnterAll(t: Tally, items: seq<Item>): Tally {
    if items == [] then t else Enter(EnterAll(t, items[..|items| - 1]), items[|items| - 1])
  }

  function RecordsOf(ps: Parsers, s: Source, entity: string): seq<Record> {
    var i := FirstIndex(s.records, (e: (string, seq<Record>)) => ps.fold(e.0) == ps.fold(entity));
    if i.None? then [] else s.records[i.value].1
  }

  function RowItems(ps: Parsers, s: Source, m: Mapping, records: seq<Record>): seq<Item> {
    if records == [] then []
    else
      RowItems(ps, s, m, records[..|records| - 1]) +
      [Row(s.connector, s.stage, m.flow, Read(ps, m, records[|records| - 1]))]
  }

  function Batch(ps: Parsers, s: Source, m: Mapping): seq<Item> {
    [Open(s.stage, m.flow)] + RowItems(ps, s, m, RecordsOf(ps, s, m.entity))
  }

  predicate Wanted(req: Request, m: Mapping) {
    req.flows == {} || m.flow in req.flows
  }

  function MappingItems(ps: Parsers, req: Request, s: Source, n: nat): seq<Item>
    requires n <= |s.mappings|
  {
    if n == 0 then if s.mappings == [] then [Unconfigured(s.connector)] else []
    else
      var front, m := MappingItems(ps, req, s, n - 1), s.mappings[n - 1];
      if Wanted(req, m) then front + Batch(ps, s, m) else front
  }

  function Items(ps: Parsers, req: Request, sources: seq<Source>): seq<Item> {
    if sources == [] then []
    else
      var s := sources[|sources| - 1];
      Items(ps, req, sources[..|sources| - 1]) + MappingItems(ps, req, s, |s.mappings|)
  }

  lemma {:induction false} EnterAllConcat(t: Tally, a: seq<Item>, b: seq<Item>)
    ensures EnterAll(t, a + b) == EnterAll(EnterAll(t, a), b)
  {
    if b == [] {
      assert a + b == a;
    } else {
      EnterAllConcat(t, a, b[..|b| - 1]);
      assert (a + b)[..|a + b| - 1] == a + b[..|b| - 1];
    }
  }

  method ScanMapping(ps: Parsers, s: Source, m: Mapping, before: Tally) returns (t: Tally)
    ensures t == EnterAll(before, Batch(ps, s, m))
  {
    var open := [Open(s.stage, m.flow)];
    assert open[..0] == [];
    t := Enter(before, open[0]);
    var records := RecordsOf(ps, s, m.entity);
    for i := 0 to |records|
      invariant t == EnterAll(EnterAll(before, open), RowItems(ps, s, m, records[..i]))
    {
      ghost var rows := RowItems(ps, s, m, records[..i]);
      var row := Row(s.connector, s.stage, m.flow, Read(ps, m, records[i]));
      assert records[..i + 1][..i] == records[..i];
      assert (rows + [row])[..|rows|] == rows;
      t := Enter(t, row);
    }
    assert records[..|records|] == records;
    EnterAllConcat(before, open, RowItems(ps, s, m, records));
  }

  method ScanSource(ps: Parsers, req: Request, s: Source, before: Tally) returns (t: Tally)
    ensures t == EnterAll(before, MappingItems(ps, req, s, |s.mappings|))
  {
    t := before;
    if s.mappings == [] {
      t := Enter(t, Unconfigured(s.connector));
      assert [Unconfigured(s.connector)][..0] == [];
      return;
    }
    for k := 0 to |s.mappings|
      invariant t == EnterAll(before, MappingItems(ps, req, s, k))
    {
      if Wanted(req, s.mappings[k]) {
        t := ScanMapping(ps, s, s.mappings[k], t);
        EnterAllConcat(before, MappingItems(ps, req, s, k), Batch(ps, s, s.mappings[k]));
      }
    }
  }

  method Scan(ps: Parsers, req: Request, sources: seq<Source>) returns (t: Tally)
    ensures t == EnterAll(EMPTY_TALLY, Items(ps, req, sources))
  {
    t := EMPTY_TALLY;
    for i := 0 to |sources|
      invariant t == EnterAll(EMPTY_TALLY, Items(ps, req, sources[..i]))
    {
      var s := sources[i];
      t := ScanSource(ps, req, s, t);
      EnterAllConcat(EMPTY_TALLY, Items(ps, req, sources[..i]), MappingItems(ps, req, s, |s.mappings|));
      assert sources[..i + 1][..i] == sources[..i];
    }
    assert sources[..|sources|] == sources;
  }

  /* ---------- conservation of the scan ---------- */

  /** The accepted readings that belong to one table, in scan order. */
  function AcceptedFor(items: seq<Item>, stage: Stage, flow: string): seq<Posting> {
    if items == [] then []
    else
      var front, item := AcceptedFor(items[..|items| - 1], stage, flow), items[|items| - 1];
      if item.Row? && item.stage == stage && item.flow == flow && Accepted(item.reading)
      then front + [PostingOf(item.reading)] else front
  }

  function QuantityOf(rs: seq<Posting>, k: Key): real {
    if rs == [] then 0.0
    else QuantityOf(rs[..|rs| - 1], k) + if rs[|rs| - 1].key == k then rs[|rs| - 1].quantity else 0.0
  }

  function NumberOf(rs: seq<Posting>, k: Key): nat {
    if rs == [] then 0 else NumberOf(rs[..|rs| - 1], k) + if rs[|rs| - 1].key == k then 1 else 0
  }

  function LatestOf(rs: seq<Posting>, k: Key): Option<int> {
    if rs == [] then None
    else if rs[|rs| - 1].key == k then Later(LatestOf(rs[..|rs| - 1], k), rs[|rs| - 1].stamp)
    else LatestOf(rs[..|rs| - 1], k)
  }

  function TableAt(t: Tally, stage: Stage, flow: string): Table {
    if (stage, flow) in t.tables then t.tables[(stage, flow)] else map[]
  }

  function PostAll(rs: seq<Posting>): Table {
    if rs == [] then map[] else Post(PostAll(rs[..|rs| - 1]), rs[|rs| - 1])
  }

  /** Tables do not interfere: each is built from its own postings. */
  lemma {:induction false} TablesAreSeparate(items: seq<Item>, stage: Stage, flow: string)
    ensures TableAt(EnterAll(EMPTY_TALLY, items), stage, flow) == PostAll(AcceptedFor(items, stage, flow))
  {
    if items != [] {
      var front, item := items[..|items| - 1], items[|items| - 1];
      TablesAreSeparate(front, stage, flow);
      EnterOne(EnterAll(EMPTY_TALLY, front), item, stage, flow);
      var rs := AcceptedFor(front, stage, flow);
      if item.Row? && Accepted(item.reading) {
        assert (rs + [PostingOf(item.reading)])[..|rs|] == rs;
      }
    }
  }

  lemma EnterOne(t: Tally, item: Item, stage: Stage, flow: string)
    ensures TableAt(Enter(t, item), stage, flow) ==
            if item.Row? && item.stage == stage && item.flow == flow && Accepted(item.reading)
            then Post(TableAt(t, stage, flow), PostingOf(item.reading)) else TableAt(t, stage, flow)
  {
  }

  /** One row of a table against the postings it sums up. */
  ghost predicate RowAccounts(table: Table, rs: seq<Posting>, k: Key) {
    && (k in table <==> NumberOf(rs, k) > 0)
    && (k in table ==> table[k] == Aggregate(QuantityOf(rs, k), NumberOf(rs, k), LatestOf(rs, k)))
    && (k !in table ==> QuantityOf(rs, k) == 0.0 && LatestOf(rs, k) == None)
  }

  lemma {:induction false} PostAllAccounts(rs: seq<Posting>, k: Key)
    ensures RowAccounts(PostAll(rs), rs, k)
  {
    if rs != [] {
      PostAllAccounts(rs[..|rs| - 1], k);
    }
  }

  /** Every aggregate is the sum, the number and the latest stamp of exactly the accepted readings of its key. */
  lemma {:induction false} AggregatesAccountForRecords(items: seq<Item>, stage: Stage, flow: string, k: Key)
    ensures RowAccounts(TableAt(EnterAll(EMPTY_TALLY, items), stage, flow), AcceptedFor(items, stage, flow), k)
  {
    TablesAreSeparate(items, stage, flow);
    PostAllAccounts(AcceptedFor(items, stage, flow), k);
  }

  function Rows(items: seq<Item>): nat {
    if items == [] then 0 else Rows(items[..|items| - 1]) + if items[|items| - 1].Row? then 1 else 0
  }

  function RowsThat(items: seq<Item>, accepted: bool): nat {
    if items == [] then 0
    else
      var item := items[|items| - 1];
      RowsThat(items[..|items| - 1], accepted) + if item.Row? && Accepted(item.reading) == accepted then 1 else 0
  }

  function InvalidRows(items: seq<Item>, connector: string, flow: string): nat {
    if items == [] then 0
    else
      var item := items[|items| - 1];
      InvalidRows(items[..|items| - 1], connector, flow) +
      if item.Row? && item.connector == connector && item.flow == flow && !Accepted(item.reading) then 1 else 0
  }

  /** Inspected records are accepted or warned about, and each warning counts its own connector and flow exactly. */
  lemma {:induction false} InspectedAreAccounted(items: seq<Item>, connector: string, flow: string)
    ensures EnterAll(EMPTY_TALLY, items).inspected == Rows(items) == RowsThat(items, true) + RowsThat(items, false)
    ensures CountOf(EnterAll(EMPTY_TALLY, items).warnings, Warning(Some(connector), Some(flow), InvalidRecord)) ==
            InvalidRows(items, connector, flow)
  {
    if items != [] {
      InspectedAreAccounted(items[..|items| - 1], connector, flow);
    }
  }

  function TotalAccepted(rs: seq<Posting>): real {
    if rs == [] then 0.0 else TotalAccepted(rs[..|rs| - 1]) + rs[|rs| - 1].quantity
  }

  function TotalOver(ks: seq<Key>, t: Table): real {
    if ks == [] then 0.0
    else TotalOver(ks[..|ks| - 1], t) + if ks[|ks| - 1] in t then t[ks[|ks| - 1]].quantity else 0.0
  }

  function QuantitiesOver(ks: seq<Key>, rs: seq<Posting>): real {
    if ks == [] then 0.0 else QuantitiesOver(ks[..|ks| - 1], rs) + QuantityOf(rs, ks[|ks| - 1])
  }

  lemma {:induction false} OneMoreReading(ks: seq<Key>, rs: seq<Posting>, r: Posting)
    requires NoDup(ks)
    ensures QuantitiesOver(ks, rs + [r]) == QuantitiesOver(ks, rs) + if r.key in ks then r.quantity else 0.0
  {
    if ks != [] {
      var front, k := ks[..|ks| - 1], ks[|ks| - 1];
      assert ks == front + [k];
      OneMoreReading(front, rs, r);
      assert (rs + [r])[..|rs|] == rs;
    }
  }

  lemma {:induction false} NothingYet(ks: seq<Key>)
    ensures QuantitiesOver(ks, []) == 0.0
  {
    if ks != [] {
      NothingYet(ks[..|ks| - 1]);
    }
  }

  lemma {:induction false} QuantitiesAddUp(ks: seq<Key>, rs: seq<Posting>)
    requires NoDup(ks) && forall x | x in rs :: x.key in ks
    ensures QuantitiesOver(ks, rs) == TotalAccepted(rs)
  {
    if rs == [] {
      NothingYet(ks);
    } else {
      var front, r := rs[..|rs| - 1], rs[|rs| - 1];
      assert rs == front + [r];
      QuantitiesAddUp(ks, front);
      OneMoreReading(ks, front, r);
    }
  }

  lemma {:induction false} NumberPositive(rs: seq<Posting>, x: Posting)
    requires x in rs
    ensures NumberOf(rs, x.key) > 0
  {
    var front, r := rs[..|rs| - 1], rs[|rs| - 1];
    assert rs == front + [r];
    if x in front {
      NumberPositive(front, x);
    }
  }

  /** The quantities of a table add up to the accepted quantities scanned for it. */
  lemma {:induction false} QuantityIsConserved(items: seq<Item>, stage: Stage, flow: string, ks: seq<Key>)
    requires (stage, flow) in EnterAll(EMPTY_TALLY, items).tables
    requires NoDup(ks) && forall k :: k in ks <==> k in EnterAll(EMPTY_TALLY, items).tables[(stage, flow)]
    ensures TotalOver(ks, EnterAll(EMPTY_TALLY, items).tables[(stage, flow)]) ==
            TotalAccepted(AcceptedFor(items, stage, flow))
  {
    var table, rs := EnterAll(EMPTY_TALLY, items).tables[(stage, flow)], AcceptedFor(items, stage, flow);
    forall x | x in rs ensures x.key in ks {
      NumberPositive(rs, x);
      AggregatesAccountForRecords(items, stage, flow, x.key);
    }
    forall k | k in ks ensures k in table && table[k].quantity == QuantityOf(rs, k) {
      AggregatesAccountForRecords(items, stage, flow, k);
    }
    SameTotals(ks, table, rs);
    QuantitiesAddUp(ks, rs);
  }

  lemma {:induction false} SameTotals(ks: seq<Key>, t: Table, rs: seq<Posting>)
    requires forall k | k in ks :: k in t && t[k].quantity == QuantityOf(rs, k)
    ensures TotalOver(ks, t) == QuantitiesOver(ks, rs)
  {
    if ks != [] {
      assert ks[|ks| - 1] in ks;
      SameTotals(ks[..|ks| - 1], t, rs);
    }
  }

  /* ---------- findings ---------- */

  datatype Kind = MissingUpstream | MissingDownstream | DuplicateKey | QuantityMismatch
  datatype Severity = Low | Medium | High

  datatype Finding = Finding(
    kind: Kind, flow: string, upstream: Stage, key: Key, severity: Severity, up: Option<Aggregate>,
    down: Option<Aggregate>)

  function Abs(x: real): real {
    if x < 0.0 then -x else x
  }

  function Max(x: real, y: real): real {
    if x < y then y else x
  }

  function Difference(u: Aggregate, d: Aggregate): real {
    Abs(u.quantity - d.quantity)
  }

  function Percent(u: Aggregate, d: Aggregate): real {
    Difference(u, d) / Max(Max(Abs(u.quantity), Abs(d.quantity)), SMALLEST) * 100.0
  }

  predicate WithinTolerance(req: Request, u: Aggregate, d: Aggregate) {
    Difference(u, d) <= req.absolute || Percent(u, d) <= req.relative
  }

  function MismatchSeverity(percent: real): Severity {
    if percent >= 25.0 then High else if percent >= 10.0 then Medium else Low
  }

  /** The findings of one key of a shared flow: at most a duplicate and a mismatch. */
  function KeyFindings(req: Request, flow: string, upstream: Stage, up: Table, down: Table, k: Key): seq<Finding> {
    if k !in up && k !in down then []
    else if k !in up then [Finding(MissingUpstream, flow, upstream, k, Medium, None, Some(down[k]))]
    else if k !in down then [Finding(MissingDownstream, flow, upstream, k, High, Some(up[k]), None)]
    else
      var u, d := up[k], down[k];
      (if u.count > 1 || d.count > 1
       then [Finding(DuplicateKey, flow, upstream, k, Medium, Some(u), Some(d))] else []) +
      (if Difference(u, d) > req.absolute && Percent(u, d) > req.relative
       then [Finding(QuantityMismatch, flow, upstream, k, MismatchSeverity(Percent(u, d)), Some(u), Some(d))] else [])
  }

  function FlowFindings(
    req: Request, flow: string, upstream: Stage, up: Table, down: Table, ks: seq<Key>): seq<Finding> {
    if ks == [] then []
    else FlowFindings(req, flow, upstream, up, down, ks[..|ks| - 1]) +
         KeyFindings(req, flow, upstream, up, down, ks[|ks| - 1])
  }

  predicate Shared(t: Tally, up: Stage, down: Stage, flow: string) {
    (up, flow) in t.tables && (down, flow) in t.tables
  }

  function TransitionFindings(
    sorting: Sorting, req: Request, t: Tally, up: Stage, down: Stage, flows: seq<string>): seq<Finding>
  {
    if flows == [] then []
    else
      var front, flow := TransitionFindings(sorting, req, t, up, down, flows[..|flows| - 1]), flows[|flows| - 1];
      if !Shared(t, up, down, flow) then front
      else
        var u, d := t.tables[(up, flow)], t.tables[(down, flow)];
        front + FlowFindings(req, flow, up, u, d, sorting.keys(u.Keys + d.Keys))
  }

  function FlowIds(req: Request, t: Tally): set<string> {
    if req.flows != {} then req.flows else set target | target in t.tables :: target.1
  }

  predicate HasStage(sources: seq<Source>, stage: Stage) {
    exists s :: s in sources && s.stage == stage
  }

  /** All findings, before the cap. */
  function AllFindings(sorting: Sorting, req: Request, sources: seq<Source>, t: Tally): seq<Finding> {
    var flows := sorting.flows(FlowIds(req, t));
    (if HasStage(sources, Netsuite) && HasStage(sources, Wms)
     then TransitionFindings(sorting, req, t, Netsuite, Wms, flows) else []) +
    (if HasStage(sources, Wms) && HasStage(sources, AmazonFba)
     then TransitionFindings(sorting, req, t, Wms, AmazonFba, flows) else [])
  }

  function Take<T>(s: seq<T>, n: nat): seq<T> {
    if |s| <= n then s else s[..n]
  }

  /** The findings of the report. */
  function Reported(sorting: Sorting, req: Request, sources: seq<Source>, t: Tally): seq<Finding> {
    Take(AllFindings(sorting, req, sources, t), MAX_FINDINGS)
  }

  /** A finding is added only while there is room. */
  function AddFinding(findings: seq<Finding>, f: Finding): seq<Finding> {
    if |findings| >= MAX_FINDINGS then findings else findings + [f]
  }

  lemma TakeThenAdd(all: seq<Finding>, f: Finding)
    ensures AddFinding(Take(all, MAX_FINDINGS), f) == Take(all + [f], MAX_FINDINGS)
  {
  }

  method AddKeyFindings(
    findings: seq<Finding>, ghost all: seq<Finding>, req: Request, flow: string, upstream: Stage, up: Table,
    down: Table, k: Key)
    returns (after: seq<Finding>)
    requires findings == Take(all, MAX_FINDINGS) && (k in up || k in down)
    ensures after == Take(all + KeyFindings(req, flow, upstream, up, down, k), MAX_FINDINGS)
  {
    if k !in up {
      TakeThenAdd(all, Finding(MissingUpstream, flow, upstream, k, Medium, None, Some(down[k])));
      return AddFinding(findings, Finding(MissingUpstream, flow, upstream, k, Medium, None, Some(down[k])));
    }
    if k !in down {
      TakeThenAdd(all, Finding(MissingDownstream, flow, upstream, k, High, Some(up[k]), None));
      return AddFinding(findings, Finding(MissingDownstream, flow, upstream, k, High, Some(up[k]), None));
    }
    var u, d := up[k], down[k];
    after := findings;
    ghost var sofar := all;
    if u.count > 1 || d.count > 1 {
      var f := Finding(DuplicateKey, flow, upstream, k, Medium, Some(u), Some(d));
      TakeThenAdd(sofar, f);
      after := AddFinding(after, f);
      sofar := sofar + [f];
    }
    var difference, percent := Difference(u, d), Percent(u, d);
    if difference > req.absolute && percent > req.relative {
      var f := Finding(QuantityMismatch, flow, upstream, k, MismatchSeverity(percent), Some(u), Some(d));
      TakeThenAdd(sofar, f);
      after := AddFinding(after, f);
      sofar := sofar + [f];
    }
    assert sofar == all + KeyFindings(req, flow, upstream, up, down, k);
  }

  lemma FlowStep(
    req: Request, flow: string, upstream: Stage, up: Table, down: Table, ks: seq<Key>, j: nat, all: seq<Finding>)
    requires j < |ks|
    ensures all + FlowFindings(req, flow, upstream, up, down, ks[..j + 1]) ==
            all + FlowFindings(req, flow, upstream, up, down, ks[..j]) +
                KeyFindings(req, flow, upstream, up, down, ks[j])
  {
    assert ks[..j + 1][..j] == ks[..j];
  }

  method AddFlow(
    findings: seq<Finding>, ghost all: seq<Finding>, sorting: Sorting, req: Request, flow: string, upstream: Stage,
    up: Table, down: Table) returns (after: seq<Finding>)
    requires findings == Take(all, MAX_FINDINGS) && Enumerates(sorting)
    ensures var ks := sorting.keys(up.Keys + down.Keys);
            after == Take(all + FlowFindings(req, flow, upstream, up, down, ks), MAX_FINDINGS)
  {
    var ks := sorting.keys(up.Keys + down.Keys);
    after := findings;
    ghost var sofar := all;
    for j := 0 to |ks|
      invariant after == Take(sofar, MAX_FINDINGS)
      invariant sofar == all + FlowFindings(req, flow, upstream, up, down, ks[..j])
    {
      assert ks[j] in ks;
      after := AddKeyFindings(after, sofar, req, flow, upstream, up, down, ks[j]);
      FlowStep(req, flow, upstream, up, down, ks, j, all);
      sofar := all + FlowFindings(req, flow, upstream, up, down, ks[..j + 1]);
    }
    assert ks[..|ks|] == ks;
  }

  lemma TransitionStep(
    sorting: Sorting, req: Request, t: Tally, up: Stage, down: Stage, flows: seq<string>, i: nat, all: seq<Finding>)
    requires i < |flows|
    ensures all + TransitionFindings(sorting, req, t, up, down, flows[..i + 1]) ==
            all + TransitionFindings(sorting, req, t, up, down, flows[..i]) +
            if Shared(t, up, down, flows[i])
            then var u, d := t.tables[(up, flows[i])], t.tables[(down, flows[i])];
                 FlowFindings(req, flows[i], up, u, d, sorting.keys(u.Keys + d.Keys))
            else []
  {
    assert flows[..i + 1][..i] == flows[..i];
  }

  method AddTransition(
    findings: seq<Finding>, ghost all: seq<Finding>, sorting: Sorting, req: Request, t: Tally, up: Stage, down: Stage,
    flows: seq<string>) returns (after: seq<Finding>)
    requires findings == Take(all, MAX_FINDINGS) && Enumerates(sorting)
    ensures after == Take(all + TransitionFindings(sorting, req, t, up, down, flows), MAX_FINDINGS)
  {
    after := findings;
    ghost var sofar := all;
    for i := 0 to |flows|
      invariant after == Take(sofar, MAX_FINDINGS)
      invariant sofar == all + TransitionFindings(sorting, req, t, up, down, flows[..i])
    {
      var flow := flows[i];
      TransitionStep(sorting, req, t, up, down, flows, i, all);
      if Shared(t, up, down, flow) {
        after := AddFlow(after, sofar, sorting, req, flow, up, t.tables[(up, flow)], t.tables[(down, flow)]);
      }
      sofar := all + TransitionFindings(sorting, req, t, up, down, flows[..i + 1]);
    }
    assert flows[..|flows|] == flows;
  }

  /** The findings reported are the first 1000 of the uncapped sequence. */
  method Reconcile(ps: Parsers, sorting: Sorting, req: Request, sources: seq<Source>)
    returns (findings: seq<Finding>, t: Tally)
    requires Enumerates(sorting)
    ensures t == EnterAll(EMPTY_TALLY, Items(ps, req, sources))
    ensures findings == Reported(sorting, req, sources, t)
  {
    t := Scan(ps, req, sources);
    var flows := sorting.flows(FlowIds(req, t));
    findings := [];
    ghost var all: seq<Finding> := [];
    if HasStage(sources, Netsuite) && HasStage(sources, Wms) {
      findings := AddTransition(findings, all, sorting, req, t, Netsuite, Wms, flows);
      all := all + TransitionFindings(sorting, req, t, Netsuite, Wms, flows);
    }
    if HasStage(sources, Wms) && HasStage(sources, AmazonFba) {
      findings := AddTransition(findings, all, sorting, req, t, Wms, AmazonFba, flows);
      all := all + TransitionFindings(sorting, req, t, Wms, AmazonFba, flows);
    }
    assert all == AllFindings(sorting, req, sources, t);
  }

  /* ---------- what a clean result means ---------- */

  predicate Serious(f: Finding) {
    f.kind != DuplicateKey
  }

  /** Both sides have the same keys, and every key agrees within the absolute or the relative tolerance. */
  ghost predicate Consistent(req: Request, up: Table, down: Table) {
    up.Keys == down.Keys && forall k | k in up :: WithinTolerance(req, up[k], down[k])
  }

  lemma {:induction false} FlowFindingsSerious(
    req: Request, flow: string, upstream: Stage, up: Table, down: Table, ks: seq<Key>)
    ensures (forall f | f in FlowFindings(req, flow, upstream, up, down, ks) :: !Serious(f)) <==>
            forall k | k in ks :: (k in up <==> k in down) && (k in up ==> WithinTolerance(req, up[k], down[k]))
  {
    if ks != [] {
      var front, k := ks[..|ks| - 1], ks[|ks| - 1];
      assert ks == front + [k];
      FlowFindingsSerious(req, flow, upstream, up, down, front);
      KeyFindingsSerious(req, flow, upstream, up, down, k);
      var a, b := FlowFindings(req, flow, upstream, up, down, front), KeyFindings(req, flow, upstream, up, down, k);
      assert forall f :: f in a + b <==> f in a || f in b;
    }
  }

  lemma KeyFindingsSerious(req: Request, flow: string, upstream: Stage, up: Table, down: Table, k: Key)
    ensures (forall f | f in KeyFindings(req, flow, upstream, up, down, k) :: !Serious(f)) <==>
            (k in up <==> k in down) && (k in up ==> WithinTolerance(req, up[k], down[k]))
  {
    var fs := KeyFindings(req, flow, upstream, up, down, k);
    assert fs != [] ==> fs[|fs| - 1] in fs;
  }

  /** A shared flow has no missing or mismatch finding exactly when both sides are consistent. */
  lemma {:induction false} CleanFlowIff(
    sorting: Sorting, req: Request, flow: string, upstream: Stage, up: Table, down: Table)
    requires Enumerates(sorting)
    ensures (forall f | f in FlowFindings(req, flow, upstream, up, down, sorting.keys(up.Keys + down.Keys)) ::
               !Serious(f))
            <==> Consistent(req, up, down)
  {
    var ks := sorting.keys(up.Keys + down.Keys);
    FlowFindingsSerious(req, flow, upstream, up, down, ks);
    assert forall k :: k in ks <==> k in up.Keys + down.Keys;
  }

  lemma PercentZero(u: Aggregate, d: Aggregate)
    ensures Percent(u, d) <= 0.0 <==> u.quantity == d.quantity
    ensures Difference(u, d) <= 0.0 <==> u.quantity == d.quantity
  {
    var denominator := Max(Max(Abs(u.quantity), Abs(d.quantity)), SMALLEST);
    assert denominator > 0.0;
    if Difference(u, d) > 0.0 {
      assert Difference(u, d) / denominator > 0.0;
    } else {
      assert Difference(u, d) == 0.0;
    }
  }

  lemma {:induction false} EqualTotals(ks: seq<Key>, a: Table, b: Table)
    requires forall k | k in ks :: k in a && k in b && a[k].quantity == b[k].quantity
    ensures TotalOver(ks, a) == TotalOver(ks, b)
  {
    if ks != [] {
      assert ks[|ks| - 1] in ks;
      EqualTotals(ks[..|ks| - 1], a, b);
    }
  }

  /** With zero tolerances consistent sides have the same quantities and the same accepted totals. */
  lemma {:induction false} ConsistentConserves(
    sorting: Sorting, req: Request, items: seq<Item>, up: Stage, down: Stage, flow: string)
    requires Enumerates(sorting) && req.absolute == 0.0 && req.relative == 0.0
    requires Shared(EnterAll(EMPTY_TALLY, items), up, down, flow)
    requires var t := EnterAll(EMPTY_TALLY, items); Consistent(req, t.tables[(up, flow)], t.tables[(down, flow)])
    ensures var t := EnterAll(EMPTY_TALLY, items);
            var u, d := t.tables[(up, flow)], t.tables[(down, flow)];
            u.Keys == d.Keys && forall k | k in u :: u[k].quantity == d[k].quantity
    ensures TotalAccepted(AcceptedFor(items, up, flow)) == TotalAccepted(AcceptedFor(items, down, flow))
  {
    var t := EnterAll(EMPTY_TALLY, items);
    var u, d := t.tables[(up, flow)], t.tables[(down, flow)];
    forall k | k in u ensures u[k].quantity == d[k].quantity {
      PercentZero(u[k], d[k]);
    }
    var ks := sorting.keys(u.Keys);
    QuantityIsConserved(items, up, flow, ks);
    QuantityIsConserved(items, down, flow, ks);
    EqualTotals(ks, u, d);
  }

  /* ---------- what the report says about one flow ---------- */

  predicate Opens(item: Item, target: (Stage, string)) {
    (item.Open? || item.Row?) && (item.stage, item.flow) == target
  }

  /** Tables are opened for connected stages and for requested flows only. */
  predicate Belongs(req: Request, sources: seq<Source>, item: Item) {
    item.Unconfigured? || (HasStage(sources, item.stage) && (req.flows == {} || item.flow in req.flows))
  }

  lemma {:induction false} TablesOpened(items: seq<Item>, target: (Stage, string))
    requires target in EnterAll(EMPTY_TALLY, items).tables
    ensures exists item :: item in items && Opens(item, target)
  {
    var front, item := items[..|items| - 1], items[|items| - 1];
    assert items == front + [item];
    if target in EnterAll(EMPTY_TALLY, front).tables {
      TablesOpened(front, target);
    } else {
      assert item in items && Opens(item, target);
    }
  }

  lemma {:induction false} RowItemsBelong(
    ps: Parsers, req: Request, sources: seq<Source>, s: Source, m: Mapping, records: seq<Record>)
    requires s in sources && Wanted(req, m)
    ensures forall item | item in RowItems(ps, s, m, records) :: Belongs(req, sources, item)
  {
    if records != [] {
      RowItemsBelong(ps, req, sources, s, m, records[..|records| - 1]);
    }
  }

  lemma {:induction false} MappingItemsBelong(ps: Parsers, req: Request, sources: seq<Source>, s: Source, n: nat)
    requires s in sources && n <= |s.mappings|
    ensures forall item | item in MappingItems(ps, req, s, n) :: Belongs(req, sources, item)
  {
    if n > 0 {
      var m := s.mappings[n - 1];
      MappingItemsBelong(ps, req, sources, s, n - 1);
      if Wanted(req, m) {
        RowItemsBelong(ps, req, sources, s, m, RecordsOf(ps, s, m.entity));
      }
    }
  }

  lemma {:induction false} ItemsBelong(ps: Parsers, req: Request, sources: seq<Source>)
    ensures forall item | item in Items(ps, req, sources) :: Belongs(req, sources, item)
  {
    if sources != [] {
      var front, s := sources[..|sources| - 1], sources[|sources| - 1];
      assert sources == front + [s];
      ItemsBelong(ps, req, front);
      forall item | item in Items(ps, req, front) ensures Belongs(req, sources, item) {
        assert Belongs(req, front, item);
      }
      MappingItemsBelong(ps, req, sources, s, |s.mappings|);
    }
  }

  /** What was scanned for a target makes it a table of a connected stage and a listed flow. */
  lemma {:induction false} TargetsListed(ps: Parsers, req: Request, sources: seq<Source>, target: (Stage, string))
    requires target in EnterAll(EMPTY_TALLY, Items(ps, req, sources)).tables
    ensures HasStage(sources, target.0) && target.1 in FlowIds(req, EnterAll(EMPTY_TALLY, Items(ps, req, sources)))
  {
    TablesOpened(Items(ps, req, sources), target);
    ItemsBelong(ps, req, sources);
  }

  lemma {:induction false} FlowFindingsNamed(
    req: Request, flow: string, upstream: Stage, up: Table, down: Table, ks: seq<Key>)
    ensures forall f | f in FlowFindings(req, flow, upstream, up, down, ks) :: f.flow == flow && f.upstream == upstream
  {
    if ks != [] {
      FlowFindingsNamed(req, flow, upstream, up, down, ks[..|ks| - 1]);
    }
  }

  /** The findings of one shared flow. */
  function SharedFindings(sorting: Sorting, req: Request, t: Tally, up: Stage, down: Stage, flow: string): seq<Finding>
    requires Shared(t, up, down, flow)
  {
    var u, d := t.tables[(up, flow)], t.tables[(down, flow)];
    FlowFindings(req, flow, up, u, d, sorting.keys(u.Keys + d.Keys))
  }

  /** The findings of a transition that name a flow are exactly the findings of that flow. */
  lemma {:induction false} TransitionMembers(
    sorting: Sorting, req: Request, t: Tally, up: Stage, down: Stage, flows: seq<string>, f: Finding)
    ensures f in TransitionFindings(sorting, req, t, up, down, flows) <==>
            f.flow in flows && Shared(t, up, down, f.flow) && f in SharedFindings(sorting, req, t, up, down, f.flow)
    ensures f in TransitionFindings(sorting, req, t, up, down, flows) ==> f.upstream == up
  {
    if flows != [] {
      var front, flow := flows[..|flows| - 1], flows[|flows| - 1];
      assert flows == front + [flow];
      TransitionMembers(sorting, req, t, up, down, front, f);
      if Shared(t, up, down, flow) {
        var u, d := t.tables[(up, flow)], t.tables[(down, flow)];
        FlowFindingsNamed(req, flow, up, u, d, sorting.keys(u.Keys + d.Keys));
      }
    }
  }

  /** The stages that are compared: NetSuite with the WMS, the WMS with Amazon FBA. */
  predicate Adjacent(up: Stage, down: Stage) {
    (up == Netsuite && down == Wms) || (up == Wms && down == AmazonFba)
  }

  lemma {:induction false} ReportMembers(
    ps: Parsers, sorting: Sorting, req: Request, sources: seq<Source>, up: Stage, down: Stage, flow: string, f: Finding)
    requires Enumerates(sorting) && Adjacent(up, down) && f.flow == flow && f.upstream == up
    requires Shared(EnterAll(EMPTY_TALLY, Items(ps, req, sources)), up, down, flow)
    ensures var t := EnterAll(EMPTY_TALLY, Items(ps, req, sources));
            f in AllFindings(sorting, req, sources, t) <==> f in SharedFindings(sorting, req, t, up, down, flow)
  {
    var t := EnterAll(EMPTY_TALLY, Items(ps, req, sources));
    var flows := sorting.flows(FlowIds(req, t));
    TargetsListed(ps, req, sources, (up, flow));
    TargetsListed(ps, req, sources, (down, flow));
    TransitionMembers(sorting, req, t, Netsuite, Wms, flows, f);
    TransitionMembers(sorting, req, t, Wms, AmazonFba, flows, f);
  }

  /**
    What the returned findings say about a shared flow: a consistent flow has no missing or mismatch finding, and when
    the finding limit is not reached the absence of such findings means that the two sides are consistent.
   */
  lemma {:induction false} CleanReportIff(
    ps: Parsers, sorting: Sorting, req: Request, sources: seq<Source>, up: Stage, down: Stage, flow: string)
    requires Enumerates(sorting) && Adjacent(up, down)
    requires Shared(EnterAll(EMPTY_TALLY, Items(ps, req, sources)), up, down, flow)
    ensures var t := EnterAll(EMPTY_TALLY, Items(ps, req, sources));
            var findings := Reported(sorting, req, sources, t);
            var consistent := Consistent(req, t.tables[(up, flow)], t.tables[(down, flow)]);
            && (consistent ==> CleanFor(findings, up, flow))
            && (|findings| < MAX_FINDINGS && CleanFor(findings, up, flow) ==> consistent)
  {
    var t := EnterAll(EMPTY_TALLY, Items(ps, req, sources));
    var all, findings := AllFindings(sorting, req, sources, t), Reported(sorting, req, sources, t);
    var mine := SharedFindings(sorting, req, t, up, down, flow);
    var u, d := t.tables[(up, flow)], t.tables[(down, flow)];
    CleanFlowIff(sorting, req, flow, up, u, d);
    FlowFindingsNamed(req, flow, up, u, d, sorting.keys(u.Keys + d.Keys));
    forall f | f in findings && f.flow == flow && f.upstream == up ensures f in mine {
      assert f in all;
      ReportMembers(ps, sorting, req, sources, up, down, flow, f);
    }
    forall f | f in mine ensures f in all {
      ReportMembers(ps, sorting, req, sources, up, down, flow, f);
    }
  }

  /** No returned finding of this flow and upstream stage is about a missing key or a quantity. */
  predicate CleanFor(findings: seq<Finding>, up: Stage, flow: string) {
    forall f | f in findings && f.flow == flow && f.upstream == up :: !Serious(f)
  }

  /** With zero tolerances a clean report conserves: equal quantities per key, and equal totals of what was scanned. */
  lemma {:induction false} CleanReportConserves(
    ps: Parsers, sorting: Sorting, req: Request, sources: seq<Source>, up: Stage, down: Stage, flow: string)
    requires Enumerates(sorting) && Adjacent(up, down) && req.absolute == 0.0 && req.relative == 0.0
    requires Shared(EnterAll(EMPTY_TALLY, Items(ps, req, sources)), up, down, flow)
    requires var findings := Reported(sorting, req, sources, EnterAll(EMPTY_TALLY, Items(ps, req, sources)));
             |findings| < MAX_FINDINGS && CleanFor(findings, up, flow)
    ensures var t := EnterAll(EMPTY_TALLY, Items(ps, req, sources));
            var u, d := t.tables[(up, flow)], t.tables[(down, flow)];
            u.Keys == d.Keys && forall k | k in u :: u[k].quantity == d[k].quantity
    ensures var items := Items(ps, req, sources);
            TotalAccepted(AcceptedFor(items, up, flow)) == TotalAccepted(AcceptedFor(items, down, flow))
  {
    CleanReportIff(ps, sorting, req, sources, up, down, flow);
    ConsistentConserves(sorting, req, Items(ps, req, sources), up, down, flow);
  }
}
