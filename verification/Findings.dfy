/** What each returned finding says about the two systems, and which records the scan reads. */
module Findings {
  import opened Sequences
  import opened Reconciliation

  /* ---------- what a finding means ---------- */

  /** The greater of the two quantities, but at least the smallest amount that a percentage can refer to. */
  predicate Reference(x: real, y: real, r: real) {
    && (r == x || r == -x || r == y || r == -y || r == 0.000001)
    && r >= x && r >= -x && r >= y && r >= -y && r >= 0.000001
  }

  /** The quantities differ by x, which is this percentage of the greater one. */
  ghost predicate Apart(u: Aggregate, d: Aggregate, x: real, percent: real) {
    && x >= 0.0 && (u.quantity - d.quantity == x || d.quantity - u.quantity == x)
    && exists r :: Reference(u.quantity, d.quantity, r) && percent * r == x * 100.0
  }

  /** What the finding reports is the case in the upstream table u and the downstream table d. */
  ghost predicate Holds(req: Request, u: Table, d: Table, f: Finding) {
    match f.kind
    case MissingUpstream =>
      f.key !in u && f.key in d && f.severity == Medium && f.up == None && f.down == Some(d[f.key])
    case MissingDownstream =>
      f.key in u && f.key !in d && f.severity == High && f.up == Some(u[f.key]) && f.down == None
    case DuplicateKey =>
      && f.key in u && f.key in d && (u[f.key].count >= 2 || d[f.key].count >= 2)
      && f.severity == Medium && f.up == Some(u[f.key]) && f.down == Some(d[f.key])
    case QuantityMismatch =>
      && f.key in u && f.key in d && f.up == Some(u[f.key]) && f.down == Some(d[f.key])
      && exists x, percent ::
           && Apart(u[f.key], d[f.key], x, percent) && x > req.absolute && percent > req.relative
           && f.severity == if percent >= 25.0 then High else if percent >= 10.0 then Medium else Low
  }

  lemma QuotientUnique(p: real, q: real, r: real)
    requires r > 0.0 && p * r == q * r
    ensures p == q
  {
  }

  lemma PercentTimes(u: Aggregate, d: Aggregate)
    ensures var r := Max(Max(Abs(u.quantity), Abs(d.quantity)), SMALLEST);
            Reference(u.quantity, d.quantity, r) && Percent(u, d) * r == Difference(u, d) * 100.0
  {
    var r := Max(Max(Abs(u.quantity), Abs(d.quantity)), SMALLEST);
    var x := Difference(u, d);
    assert x / r * r == x;
    assert x / r * 100.0 * r == x / r * r * 100.0;
  }

  lemma ApartIff(u: Aggregate, d: Aggregate, x: real, percent: real)
    ensures Apart(u, d, x, percent) <==> x == Difference(u, d) && percent == Percent(u, d)
  {
    PercentTimes(u, d);
    if Apart(u, d, x, percent) {
      var r :| Reference(u.quantity, d.quantity, r) && percent * r == x * 100.0;
      assert r == Max(Max(Abs(u.quantity), Abs(d.quantity)), SMALLEST);
      QuotientUnique(percent, Percent(u, d), r);
    }
  }

  lemma {:induction false} KeyFindingsHold(
    req: Request, flow: string, upstream: Stage, up: Table, down: Table, k: Key, f: Finding)
    ensures f in KeyFindings(req, flow, upstream, up, down, k) <==>
            f.flow == flow && f.upstream == upstream && f.key == k && Holds(req, up, down, f)
  {
    if k in up && k in down {
      var x, percent := Difference(up[k], down[k]), Percent(up[k], down[k]);
      ApartIff(up[k], down[k], x, percent);
      forall y, p ensures Apart(up[k], down[k], y, p) <==> y == x && p == percent {
        ApartIff(up[k], down[k], y, p);
      }
    }
  }

  lemma {:induction false} FlowFindingsHold(
    req: Request, flow: string, upstream: Stage, up: Table, down: Table, ks: seq<Key>, f: Finding)
    ensures f in FlowFindings(req, flow, upstream, up, down, ks) <==>
            f.flow == flow && f.upstream == upstream && f.key in ks && Holds(req, up, down, f)
  {
    if ks != [] {
      var front, k := ks[..|ks| - 1], ks[|ks| - 1];
      assert ks == front + [k];
      FlowFindingsHold(req, flow, upstream, up, down, front, f);
      KeyFindingsHold(req, flow, upstream, up, down, k, f);
    }
  }

  /** The finding compares two connected stages, both with a table of its flow, and what it reports is the case. */
  ghost predicate Explained(req: Request, t: Tally, f: Finding) {
    && f.upstream != AmazonFba
    && var down := if f.upstream == Netsuite then Wms else AmazonFba;
       Shared(t, f.upstream, down, f.flow) && Holds(req, t.tables[(f.upstream, f.flow)], t.tables[(down, f.flow)], f)
  }

  /**
    Every returned finding reports what is the case; below the limit of a thousand, everything that is the case in
    the flows that both systems of a transition have is reported.
   */
  lemma {:induction false} FindingsExplained(
    ps: Parsers, sorting: Sorting, req: Request, sources: seq<Source>, f: Finding)
    requires Enumerates(sorting)
    ensures var t := EnterAll(EMPTY_TALLY, Items(ps, req, sources));
            var findings := Reported(sorting, req, sources, t);
            && |findings| <= 1000
            && (f in findings ==> Explained(req, t, f))
            && (|findings| < 1000 && Explained(req, t, f) ==> f in findings)
  {
    var t := EnterAll(EMPTY_TALLY, Items(ps, req, sources));
    var all, findings := AllFindings(sorting, req, sources, t), Reported(sorting, req, sources, t);
    AllExplained(ps, sorting, req, sources, f);
    assert f in findings ==> f in all;
  }

  lemma {:induction false} AllExplained(
    ps: Parsers, sorting: Sorting, req: Request, sources: seq<Source>, f: Finding)
    requires Enumerates(sorting)
    ensures var t := EnterAll(EMPTY_TALLY, Items(ps, req, sources));
            f in AllFindings(sorting, req, sources, t) <==> Explained(req, t, f)
  {
    var t := EnterAll(EMPTY_TALLY, Items(ps, req, sources));
    var flows := sorting.flows(FlowIds(req, t));
    TransitionMembers(sorting, req, t, Netsuite, Wms, flows, f);
    TransitionMembers(sorting, req, t, Wms, AmazonFba, flows, f);
    if f.upstream != AmazonFba {
      var down := if f.upstream == Netsuite then Wms else AmazonFba;
      if Shared(t, f.upstream, down, f.flow) {
        ReportMembers(ps, sorting, req, sources, f.upstream, down, f.flow, f);
        SharedHold(sorting, req, t, f.upstream, down, f);
      }
    }
  }

  lemma {:induction false} SharedHold(
    sorting: Sorting, req: Request, t: Tally, up: Stage, down: Stage, f: Finding)
    requires Enumerates(sorting) && Shared(t, up, down, f.flow) && f.upstream == up
    ensures f in SharedFindings(sorting, req, t, up, down, f.flow) <==>
            Holds(req, t.tables[(up, f.flow)], t.tables[(down, f.flow)], f)
  {
    var u, d := t.tables[(up, f.flow)], t.tables[(down, f.flow)];
    var ks := sorting.keys(u.Keys + d.Keys);
    FlowFindingsHold(req, f.flow, up, u, d, ks, f);
    assert f.key in ks <==> f.key in u.Keys + d.Keys;
  }

  /* ---------- the order of the findings ---------- */

  /** NetSuite to WMS goes first, then flows and keys in their sorted order, a repeated key before its quantities. */
  predicate GoesBefore(flows: seq<string>, keys: Finding -> seq<Key>, f: Finding, g: Finding) {
    if f.upstream != g.upstream then f.upstream == Netsuite && g.upstream == Wms
    else if f.flow != g.flow then StandsBefore(flows, f.flow, g.flow)
    else if f.key != g.key then StandsBefore(keys(f), f.key, g.key)
    else f.kind == DuplicateKey && g.kind == QuantityMismatch
  }

  ghost predicate InOrder(flows: seq<string>, keys: Finding -> seq<Key>, fs: seq<Finding>) {
    forall i, j | 0 <= i < j < |fs| :: GoesBefore(flows, keys, fs[i], fs[j])
  }

  /** The sorted keys of the flow that the finding is about. */
  function SharedKeys(sorting: Sorting, t: Tally, f: Finding): seq<Key> {
    var down := if f.upstream == Netsuite then Wms else AmazonFba;
    sorting.keys(TableAt(t, f.upstream, f.flow).Keys + TableAt(t, down, f.flow).Keys)
  }

  lemma InOrderConcat(flows: seq<string>, keys: Finding -> seq<Key>, a: seq<Finding>, b: seq<Finding>)
    requires InOrder(flows, keys, a) && InOrder(flows, keys, b)
    requires forall f, g | f in a && g in b :: GoesBefore(flows, keys, f, g)
    ensures InOrder(flows, keys, a + b)
  {
    var c := a + b;
    forall i, j | 0 <= i < j < |c| ensures GoesBefore(flows, keys, c[i], c[j]) {
      assert i < |a| ==> c[i] in a;
      assert |a| <= j ==> c[j] in b;
    }
  }

  lemma {:induction false} FlowInOrder(
    req: Request, flow: string, upstream: Stage, up: Table, down: Table, ks: seq<Key>, flows: seq<string>,
    keys: Finding -> seq<Key>, all: seq<Key>)
    requires NoDup(ks) && ks <= all
    requires forall f: Finding | f.flow == flow && f.upstream == upstream :: keys(f) == all
    ensures InOrder(flows, keys, FlowFindings(req, flow, upstream, up, down, ks))
  {
    if ks != [] {
      var front, k := ks[..|ks| - 1], ks[|ks| - 1];
      assert ks == front + [k];
      FlowInOrder(req, flow, upstream, up, down, front, flows, keys, all);
      var a, b := FlowFindings(req, flow, upstream, up, down, front), KeyFindings(req, flow, upstream, up, down, k);
      forall f, g | f in a && g in b ensures GoesBefore(flows, keys, f, g) {
        FlowFindingsHold(req, flow, upstream, up, down, front, f);
        KeyFindingsHold(req, flow, upstream, up, down, k, g);
        KeyBefore(all, ks, f.key, k);
      }
      InOrderConcat(flows, keys, a, b);
    }
  }

  lemma KeyBefore(all: seq<Key>, ks: seq<Key>, x: Key, k: Key)
    requires NoDup(ks) && ks <= all && ks != [] && ks[|ks| - 1] == k && x in ks[..|ks| - 1]
    ensures x != k && StandsBefore(all, x, k)
  {
    var a :| 0 <= a < |ks| - 1 && ks[a] == x;
    assert all[a] == x && all[|ks| - 1] == k;
  }

  lemma {:induction false} TransitionInOrder(
    sorting: Sorting, req: Request, t: Tally, up: Stage, down: Stage, flows: seq<string>, all: seq<string>,
    keys: Finding -> seq<Key>)
    requires Enumerates(sorting) && NoDup(flows) && flows <= all && Adjacent(up, down)
    requires forall f :: keys(f) == SharedKeys(sorting, t, f)
    ensures InOrder(all, keys, TransitionFindings(sorting, req, t, up, down, flows))
  {
    if flows != [] {
      var front, flow := flows[..|flows| - 1], flows[|flows| - 1];
      assert flows == front + [flow];
      TransitionInOrder(sorting, req, t, up, down, front, all, keys);
      if Shared(t, up, down, flow) {
        var u, d := t.tables[(up, flow)], t.tables[(down, flow)];
        var ks := sorting.keys(u.Keys + d.Keys);
        FlowInOrder(req, flow, up, u, d, ks, all, keys, ks);
        var a, b := TransitionFindings(sorting, req, t, up, down, front), FlowFindings(req, flow, up, u, d, ks);
        forall f, g | f in a && g in b ensures GoesBefore(all, keys, f, g) {
          TransitionMembers(sorting, req, t, up, down, front, f);
          FlowFindingsHold(req, flow, up, u, d, ks, g);
          FlowBefore(all, flows, f.flow, flow);
        }
        InOrderConcat(all, keys, a, b);
      }
    }
  }

  lemma FlowBefore(all: seq<string>, flows: seq<string>, x: string, flow: string)
    requires NoDup(flows) && flows <= all && flows != [] && flows[|flows| - 1] == flow && x in flows[..|flows| - 1]
    ensures x != flow && StandsBefore(all, x, flow)
  {
    var a :| 0 <= a < |flows| - 1 && flows[a] == x;
    assert all[a] == x && all[|flows| - 1] == flow;
  }

  /** The returned findings stand in this order, so the limit drops the last ones, and none is returned twice. */
  lemma {:induction false} FindingsInOrder(sorting: Sorting, req: Request, sources: seq<Source>, t: Tally)
    requires Enumerates(sorting)
    ensures var keys := (f: Finding) => SharedKeys(sorting, t, f);
            InOrder(sorting.flows(FlowIds(req, t)), keys, AllFindings(sorting, req, sources, t)) &&
            InOrder(sorting.flows(FlowIds(req, t)), keys, Reported(sorting, req, sources, t)) &&
            Reported(sorting, req, sources, t) <= AllFindings(sorting, req, sources, t)
  {
    var keys, flows := (f: Finding) => SharedKeys(sorting, t, f), sorting.flows(FlowIds(req, t));
    TransitionInOrder(sorting, req, t, Netsuite, Wms, flows, flows, keys);
    TransitionInOrder(sorting, req, t, Wms, AmazonFba, flows, flows, keys);
    var a, b := TransitionFindings(sorting, req, t, Netsuite, Wms, flows),
                TransitionFindings(sorting, req, t, Wms, AmazonFba, flows);
    forall f, g | f in a && g in b ensures GoesBefore(flows, keys, f, g) {
      TransitionMembers(sorting, req, t, Netsuite, Wms, flows, f);
      TransitionMembers(sorting, req, t, Wms, AmazonFba, flows, g);
    }
    InOrderConcat(flows, keys, a, b);
  }

  /* ---------- which records are read ---------- */

  /** The mapping is wanted, and the record is of the first entity with the mapped name, up to case. */
  predicate Scanned(ps: Parsers, req: Request, s: Source, m: Mapping, r: Record) {
    && (req.flows == {} || m.flow in req.flows)
    && exists i :: 0 <= i < |s.records| && FirstNamed(ps, s, m.entity, i) && r in s.records[i].1
  }

  predicate FirstNamed(ps: Parsers, s: Source, entity: string, i: nat) {
    && i < |s.records| && ps.fold(s.records[i].0) == ps.fold(entity)
    && forall j | 0 <= j < i :: ps.fold(s.records[j].0) != ps.fold(entity)
  }

  /** The reading takes each part from the field that the mapping names for it. */
  predicate ReadAs(ps: Parsers, m: Mapping, r: Record, reading: Reading) {
    && reading.key.sku == ps.reference(Get(r, m.skuField))
    && reading.quantity == ps.decimal(Get(r, m.quantityField))
    && (match m.referenceField
        case None => reading.key.reference == ""
        case Some(field) => reading.key.reference == ps.reference(Get(r, field)))
    && (match m.timestampField
        case None => reading.stamp == None
        case Some(field) => reading.stamp == ps.stamp(Get(r, field)))
    && |reading.key.dimensions| == |m.dimensionFields|
    && forall i | 0 <= i < |m.dimensionFields| ::
         reading.key.dimensions[i] == ps.reference(Get(r, m.dimensionFields[i]))
  }

  lemma {:induction false} DimensionsAre(ps: Parsers, r: Record, fields: seq<string>)
    ensures |Dimensions(ps, r, fields)| == |fields|
    ensures forall i | 0 <= i < |fields| :: Dimensions(ps, r, fields)[i] == ps.reference(Get(r, fields[i]))
  {
    if fields != [] {
      DimensionsAre(ps, r, fields[..|fields| - 1]);
    }
  }

  lemma ReadIs(ps: Parsers, m: Mapping, r: Record, reading: Reading)
    ensures ReadAs(ps, m, r, reading) <==> reading == Read(ps, m, r)
  {
    DimensionsAre(ps, r, m.dimensionFields);
    if ReadAs(ps, m, r, reading) {
      assert reading.key.dimensions == Dimensions(ps, r, m.dimensionFields);
    }
  }

  /** The item reads a scanned record of the mapping. */
  ghost predicate RowFor(ps: Parsers, req: Request, s: Source, m: Mapping, item: Item) {
    && item.Row? && item.connector == s.connector && item.stage == s.stage && item.flow == m.flow
    && exists r :: Scanned(ps, req, s, m, r) && ReadAs(ps, m, r, item.reading)
  }

  lemma ScannedIff(ps: Parsers, req: Request, s: Source, m: Mapping, r: Record)
    ensures Scanned(ps, req, s, m, r) <==> Wanted(req, m) && r in RecordsOf(ps, s, m.entity)
  {
    var i := FirstIndex(s.records, (e: (string, seq<Record>)) => ps.fold(e.0) == ps.fold(m.entity));
    if i.Some? {
      assert FirstNamed(ps, s, m.entity, i.value);
    }
  }

  lemma {:induction false} RowItemsAre(ps: Parsers, s: Source, m: Mapping, records: seq<Record>, item: Item)
    ensures item in RowItems(ps, s, m, records) <==>
            exists r :: r in records && item == Row(s.connector, s.stage, m.flow, Read(ps, m, r))
  {
    if records != [] {
      var front, r := records[..|records| - 1], records[|records| - 1];
      assert records == front + [r];
      RowItemsAre(ps, s, m, front, item);
    }
  }

  lemma {:induction false} RowForIff(ps: Parsers, req: Request, s: Source, m: Mapping, item: Item)
    requires item.Row?
    ensures RowFor(ps, req, s, m, item) <==> Wanted(req, m) && item in Batch(ps, s, m)
  {
    forall r ensures Scanned(ps, req, s, m, r) <==> Wanted(req, m) && r in RecordsOf(ps, s, m.entity) {
      ScannedIff(ps, req, s, m, r);
    }
    forall r ensures ReadAs(ps, m, r, item.reading) <==> item.reading == Read(ps, m, r) {
      ReadIs(ps, m, r, item.reading);
    }
    RowItemsAre(ps, s, m, RecordsOf(ps, s, m.entity), item);
  }

  lemma {:induction false} MappingItemsAre(ps: Parsers, req: Request, s: Source, n: nat, item: Item)
    requires n <= |s.mappings| && item.Row?
    ensures item in MappingItems(ps, req, s, n) <==> exists m :: m in s.mappings[..n] && RowFor(ps, req, s, m, item)
  {
    if n > 0 {
      var m := s.mappings[n - 1];
      assert s.mappings[..n] == s.mappings[..n - 1] + [m];
      MappingItemsAre(ps, req, s, n - 1, item);
      RowForIff(ps, req, s, m, item);
    }
  }

  /** The rows read are those of the scanned records of all sources and mappings, part by part from their fields. */
  lemma {:induction false} RowsAre(ps: Parsers, req: Request, sources: seq<Source>, item: Item)
    requires item.Row?
    ensures item in Items(ps, req, sources) <==>
            exists s, m :: s in sources && m in s.mappings && RowFor(ps, req, s, m, item)
  {
    if sources != [] {
      var front, s := sources[..|sources| - 1], sources[|sources| - 1];
      assert sources == front + [s];
      RowsAre(ps, req, front, item);
      MappingItemsAre(ps, req, s, |s.mappings|, item);
      assert s.mappings[..|s.mappings|] == s.mappings;
    }
  }

  function UnconfiguredIn(items: seq<Item>, connector: string): nat {
    if items == [] then 0
    else UnconfiguredIn(items[..|items| - 1], connector) +
         if items[|items| - 1] == Unconfigured(connector) then 1 else 0
  }

  /** The sources of this connector that have no mapping. */
  function WithoutMapping(sources: seq<Source>, connector: string): nat {
    if sources == [] then 0
    else
      var s := sources[|sources| - 1];
      WithoutMapping(sources[..|sources| - 1], connector) +
      if s.connector == connector && s.mappings == [] then 1 else 0
  }

  lemma {:induction false} UnconfiguredConcat(a: seq<Item>, b: seq<Item>, connector: string)
    ensures UnconfiguredIn(a + b, connector) == UnconfiguredIn(a, connector) + UnconfiguredIn(b, connector)
  {
    if b == [] {
      assert a + b == a;
    } else {
      UnconfiguredConcat(a, b[..|b| - 1], connector);
      assert (a + b)[..|a + b| - 1] == a + b[..|b| - 1];
    }
  }

  lemma {:induction false} RowsAreConfigured(
    ps: Parsers, s: Source, m: Mapping, records: seq<Record>, connector: string)
    ensures UnconfiguredIn(RowItems(ps, s, m, records), connector) == 0
  {
    if records != [] {
      RowsAreConfigured(ps, s, m, records[..|records| - 1], connector);
    }
  }

  lemma {:induction false} UnconfiguredMappings(ps: Parsers, req: Request, s: Source, n: nat, connector: string)
    requires n <= |s.mappings|
    ensures UnconfiguredIn(MappingItems(ps, req, s, n), connector) ==
            if s.connector == connector && s.mappings == [] then 1 else 0
  {
    if n == 0 {
      assert [Unconfigured(s.connector)][..0] == [];
    } else {
      var m := s.mappings[n - 1];
      UnconfiguredMappings(ps, req, s, n - 1, connector);
      if Wanted(req, m) {
        var open, rows := [Open(s.stage, m.flow)], RowItems(ps, s, m, RecordsOf(ps, s, m.entity));
        assert open[..0] == [];
        RowsAreConfigured(ps, s, m, RecordsOf(ps, s, m.entity), connector);
        UnconfiguredConcat(open, rows, connector);
        UnconfiguredConcat(MappingItems(ps, req, s, n - 1), open + rows, connector);
      }
    }
  }

  lemma {:induction false} UnconfiguredSources(ps: Parsers, req: Request, sources: seq<Source>, connector: string)
    ensures UnconfiguredIn(Items(ps, req, sources), connector) == WithoutMapping(sources, connector)
  {
    if sources != [] {
      var front, s := sources[..|sources| - 1], sources[|sources| - 1];
      UnconfiguredSources(ps, req, front, connector);
      UnconfiguredMappings(ps, req, s, |s.mappings|, connector);
      UnconfiguredConcat(Items(ps, req, front), MappingItems(ps, req, s, |s.mappings|), connector);
    }
  }

  lemma {:induction false} UnconfiguredCounted(items: seq<Item>, connector: string)
    ensures CountOf(EnterAll(EMPTY_TALLY, items).warnings, Warning(Some(connector), None, MappingNotConfigured)) ==
            UnconfiguredIn(items, connector)
  {
    if items != [] {
      UnconfiguredCounted(items[..|items| - 1], connector);
    }
  }

  /** The warning about a missing mapping counts the sources of its connector that have none. */
  lemma {:induction false} MissingMappingsCounted(ps: Parsers, req: Request, sources: seq<Source>, connector: string)
    ensures CountOf(EnterAll(EMPTY_TALLY, Items(ps, req, sources)).warnings,
                    Warning(Some(connector), None, MappingNotConfigured)) == WithoutMapping(sources, connector)
  {
    UnconfiguredCounted(Items(ps, req, sources), connector);
    UnconfiguredSources(ps, req, sources, connector);
  }

  /** A posting of the table is an item that names an article and a quantity that is not negative. */
  lemma {:induction false} PostingsAre(items: seq<Item>, stage: Stage, flow: string, p: Posting)
    ensures p in AcceptedFor(items, stage, flow) <==>
            p.key.sku != "" && p.quantity >= 0.0 &&
            exists c :: Row(c, stage, flow, Reading(p.key, Some(p.quantity), p.stamp)) in items
  {
    if items != [] {
      var front, item := items[..|items| - 1], items[|items| - 1];
      assert items == front + [item];
      PostingsAre(front, stage, flow, p);
    }
  }

  /** The latest stamp among the postings of the key, none if none of them has any. */
  ghost predicate Latest(rs: seq<Posting>, k: Key, stamp: Option<int>) {
    && (forall p | p in rs && p.key == k && p.stamp.Some? :: stamp.Some? && p.stamp.value <= stamp.value)
    && (stamp.Some? ==> exists p :: p in rs && p.key == k && p.stamp == stamp)
  }

  lemma {:induction false} LatestOfIsLatest(rs: seq<Posting>, k: Key)
    ensures Latest(rs, k, LatestOf(rs, k))
  {
    if rs != [] {
      var front, p := rs[..|rs| - 1], rs[|rs| - 1];
      assert rs == front + [p];
      LatestOfIsLatest(front, k);
    }
  }

  /** The aggregate of a key carries the latest stamp of its accepted records. */
  lemma {:induction false} AggregateIsLatest(items: seq<Item>, stage: Stage, flow: string, k: Key)
    requires k in TableAt(EnterAll(EMPTY_TALLY, items), stage, flow)
    ensures Latest(AcceptedFor(items, stage, flow), k,
                   TableAt(EnterAll(EMPTY_TALLY, items), stage, flow)[k].updatedAt)
  {
    AggregatesAccountForRecords(items, stage, flow, k);
    LatestOfIsLatest(AcceptedFor(items, stage, flow), k);
  }
}
