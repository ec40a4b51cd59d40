/** When fact ids stay unique: ids repeat whenever a statement reuses a number for a problem and slot. */
module FactIds {
  import opened Contracts
  import opened Sequences
  import opened Templates
  import opened Analyzer
  import opened Reducer
  import opened Identity
  import opened Facts
  import opened FactLinks
  import opened GapLaws
  import opened Engine
  import opened EngineLaws
  import opened HearLaws
  import opened Invariants
  import opened Runs

  /** The routed fact only repeats the value of the active fact it meets. */
  predicate Repeats(facts: seq<Fact>, r: Routed) {
    var found := FirstActive(facts, r.lineage, r.pf.slot);
    found.Some? && facts[found.value].value == r.pf.value
  }

  /** Its number is new to its problem and slot. */
  predicate IdIsFree(facts: seq<Fact>, r: Routed) {
    forall f | f in facts :: f.id != FactId(r.pain, r.pf.slot, r.seqNo)
  }

  /** It repeats a value, or its fact gets an id of its own. */
  predicate KeepsId(facts: seq<Fact>, r: Routed) {
    Repeats(facts, r) || IdIsFree(facts, r)
  }

  /** Each statement keeps ids unique in the log that it meets. */
  ghost predicate OwnIds(facts: seq<Fact>, rs: seq<Routed>) {
    forall k | 0 <= k < |rs| :: KeepsId(AbsorbAll(facts, rs[..k]), rs[k])
  }

  lemma AbsorbKeepsIdsIff(facts: seq<Fact>, r: Routed)
    ensures DistinctFactIds(Absorb(facts, r)) <==> DistinctFactIds(facts) && KeepsId(facts, r)
  {
    var after := Absorb(facts, r);
    assert forall j | 0 <= j < |facts| :: after[j].id == facts[j].id;
    if !Repeats(facts, r) {
      assert |after| == |facts| + 1 && after[|facts|].id == FactId(r.pain, r.pf.slot, r.seqNo);
    }
  }

  lemma OwnIdsStep(facts: seq<Fact>, rs: seq<Routed>, r: Routed)
    ensures OwnIds(facts, rs + [r]) <==> OwnIds(facts, rs) && KeepsId(AbsorbAll(facts, rs), r)
  {
    var all := rs + [r];
    assert all[..|rs|] == rs && all[|rs|] == r;
    assert forall k | 0 <= k < |rs| :: all[..k] == rs[..k] && all[k] == rs[k];
  }

  /** Any list of statements keeps ids unique exactly when each of them does in turn. */
  lemma {:induction false} AbsorbAllKeepsIdsIff(facts: seq<Fact>, rs: seq<Routed>)
    ensures DistinctFactIds(AbsorbAll(facts, rs)) <==> DistinctFactIds(facts) && OwnIds(facts, rs)
  {
    if rs != [] {
      var front, r := rs[..|rs| - 1], rs[|rs| - 1];
      assert rs == front + [r];
      AbsorbAllKeepsIdsIff(facts, front);
      AbsorbKeepsIdsIff(AbsorbAll(facts, front), r);
      OwnIdsStep(facts, front, r);
    }
  }

  /* ---------- statements that do not meet ---------- */

  lemma IdAside(facts: seq<Fact>, q: Routed, r: Routed)
    requires Aside(q, r.lineage, r.pf.slot) && r.pain in r.lineage
    ensures IdIsFree(Absorb(facts, q), r) <==> IdIsFree(facts, r)
  {
    var after := Absorb(facts, q);
    assert forall j | 0 <= j < |facts| :: after[j].id == facts[j].id;
    assert forall j | |facts| <= j < |after| :: after[j].id == FactId(q.pain, q.pf.slot, q.seqNo);
    if IdIsFree(after, r) {
      forall f | f in facts ensures f.id != FactId(r.pain, r.pf.slot, r.seqNo) {
        var j :| 0 <= j < |facts| && facts[j] == f;
        assert after[j] in after;
      }
    }
  }

  lemma {:induction false} AbsorbAllAside(facts: seq<Fact>, rs: seq<Routed>, r: Routed)
    requires r.pain in r.lineage && forall q | q in rs :: Aside(q, r.lineage, r.pf.slot)
    ensures KeepsId(AbsorbAll(facts, rs), r) <==> KeepsId(facts, r)
  {
    AbsorbAllQuiet(facts, rs, r.lineage, r.pf.slot);
    QuietFirst(facts, AbsorbAll(facts, rs), r.lineage, r.pf.slot);
    AllIdsAside(facts, rs, r);
  }

  lemma {:induction false} AllIdsAside(facts: seq<Fact>, rs: seq<Routed>, r: Routed)
    requires r.pain in r.lineage && forall q | q in rs :: Aside(q, r.lineage, r.pf.slot)
    ensures IdIsFree(AbsorbAll(facts, rs), r) <==> IdIsFree(facts, r)
  {
    if rs != [] {
      AllIdsAside(facts, rs[..|rs| - 1], r);
      IdAside(AbsorbAll(facts, rs[..|rs| - 1]), rs[|rs| - 1], r);
    }
  }

  predicate Independent(rs: seq<Routed>) {
    && (forall r | r in rs :: r.pain in r.lineage)
    && forall m, n | 0 <= m < n < |rs| :: Aside(rs[m], rs[n].lineage, rs[n].pf.slot)
  }

  /** Statements that do not meet are judged by the log before any of them. */
  lemma {:induction false} IndependentOwnIds(facts: seq<Fact>, rs: seq<Routed>)
    requires Independent(rs)
    ensures OwnIds(facts, rs) <==> forall r | r in rs :: KeepsId(facts, r)
  {
    forall k | 0 <= k < |rs| ensures KeepsId(AbsorbAll(facts, rs[..k]), rs[k]) <==> KeepsId(facts, rs[k]) {
      forall q | q in rs[..k] ensures Aside(q, rs[k].lineage, rs[k].pf.slot) {
        var m :| 0 <= m < k && rs[m] == q;
      }
      assert rs[k] in rs;
      AbsorbAllAside(facts, rs[..k], rs[k]);
    }
  }

  lemma {:induction false} DifferentSlotsIndependent(pains: seq<Pain>, rs: seq<Routed>)
    requires IdentityInv(pains) && DifferentSlots(rs) && forall r | r in rs :: RoutedIn(pains, r)
    ensures Independent(rs)
  {
    forall r | r in rs ensures r.pain in r.lineage {
      assert RoutedIn(pains, r);
      InLineage(pains, r.pain, r.pain);
    }
    forall m, n | 0 <= m < n < |rs| ensures Aside(rs[m], rs[n].lineage, rs[n].pf.slot) {
      assert rs[m] in rs && rs[n] in rs;
      forall x | x in rs[m].lineage && x in rs[n].lineage ensures rs[m].pf.category == rs[n].pf.category {
        LineageCategory(pains, x, rs[m]);
        LineageCategory(pains, x, rs[n]);
      }
    }
  }

  /* ---------- statements with numbers of their own ---------- */

  /** No two of the statements name one problem and slot under one number. */
  predicate DifferentIds(rs: seq<Routed>) {
    forall m, n | 0 <= m < n < |rs| ::
      rs[m].pain != rs[n].pain || rs[m].pf.slot != rs[n].pf.slot || rs[m].seqNo != rs[n].seqNo
  }

  lemma {:induction false} NewNumbersOwnIds(facts: seq<Fact>, rs: seq<Routed>)
    requires (forall f | f in facts :: Named(f)) && DifferentIds(rs) && forall r | r in rs :: IdIsFree(facts, r)
    ensures OwnIds(facts, rs)
  {
    forall k | 0 <= k < |rs| ensures KeepsId(AbsorbAll(facts, rs[..k]), rs[k]) {
      var before, r := AbsorbAll(facts, rs[..k]), rs[k];
      AbsorbAllNamed(facts, rs[..k]);
      AbsorbAllSourced(facts, rs[..k]);
      assert r in rs;
      forall f | f in before ensures f.id != FactId(r.pain, r.pf.slot, r.seqNo) {
        assert Named(f) && Sourced(f, facts, rs[..k]);
        if g :| g in facts && g.pain == f.pain && g.slot == f.slot && g.createdSeq == f.createdSeq {
          assert Named(g);
        } else {
          var q :| q in rs[..k] && q.pain == f.pain && q.pf.slot == f.slot && q.seqNo == f.createdSeq;
          var m :| 0 <= m < k && rs[m] == q;
        }
      }
    }
  }

  lemma {:induction false} AbsorbAllNamed(facts: seq<Fact>, rs: seq<Routed>)
    requires forall f | f in facts :: Named(f)
    ensures forall f | f in AbsorbAll(facts, rs) :: Named(f)
  {
    if rs != [] {
      var before, after := AbsorbAll(facts, rs[..|rs| - 1]), AbsorbAll(facts, rs);
      AbsorbAllNamed(facts, rs[..|rs| - 1]);
      forall f | f in after ensures Named(f) {
        var i :| 0 <= i < |after| && after[i] == f;
        assert i < |before| ==> before[i] in before;
      }
    }
  }

  /** In every reachable state a fact id names the problem, slot and number of its fact. */
  lemma {:induction false} FactsAlwaysNamed(cfg: Config, ops: seq<Op>)
    requires WellFormed(cfg.registry)
    ensures forall f | f in Run(cfg, ops).state.facts :: Named(f)
  {
    if ops != [] {
      var m := Run(cfg, ops[..|ops| - 1]);
      FactsAlwaysNamed(cfg, ops[..|ops| - 1]);
      Reachable(cfg, ops[..|ops| - 1]);
      match ops[|ops| - 1]
      case HearOp(e) =>
        if Accepts(m, e) {
          HearNormalForm(cfg, m.state, e);
          AbsorbAllNamed(m.state.facts, HearRoutes(cfg, m.state, e));
        }
      case DecideOp(_, _, _) =>
      case ConfirmOp(hint) =>
        if HintAccepted(cfg, m, hint) {
          AbsorbAllNamed(m.state.facts, HintRoutes(cfg, m, hint));
        }
    }
  }

  /* ---------- hints ---------- */

  /**
    A confirmed hint reuses the number of the event it cites. Ids stay unique exactly when each of its statements
    repeats the value it meets or has a number new to its problem and slot.
   */
  lemma {:induction false} HintKeepsIdsIff(cfg: Config, ops: seq<Op>, hint: Hint)
    requires HintAccepted(cfg, Run(cfg, ops), hint)
    ensures var m := Run(cfg, ops);
            DistinctFactIds(Run(cfg, ops + [ConfirmOp(hint)]).state.facts) <==>
            DistinctFactIds(m.state.facts) && OwnIds(m.state.facts, HintRoutes(cfg, m, hint))
  {
    assert (ops + [ConfirmOp(hint)])[..|ops|] == ops;
    AbsorbAllKeepsIdsIff(Run(cfg, ops).state.facts, HintRoutes(cfg, Run(cfg, ops), hint));
  }

  predicate NamesSlotsOnce(hint: Hint) {
    forall i, j | 0 <= i < j < |hint.facts| :: hint.facts[i].slot != hint.facts[j].slot
  }

  /** For a hint that names each slot once, the state before the call decides. */
  lemma {:induction false} HintOwnIdsIff(cfg: Config, ops: seq<Op>, hint: Hint)
    requires WellFormed(cfg.registry) && HintAccepted(cfg, Run(cfg, ops), hint) && NamesSlotsOnce(hint)
    ensures var m := Run(cfg, ops);
            OwnIds(m.state.facts, HintRoutes(cfg, m, hint)) <==>
            forall r | r in HintRoutes(cfg, m, hint) :: KeepsId(m.state.facts, r)
  {
    var m := Run(cfg, ops);
    Reachable(cfg, ops);
    HintBoardKeeps(cfg, m, hint);
    HintRoutesIn(cfg, m, hint);
    HintRoutesDifferent(cfg, m, hint);
    DifferentSlotsIndependent(HintPains(cfg, m, hint), HintRoutes(cfg, m, hint));
    IndependentOwnIds(m.state.facts, HintRoutes(cfg, m, hint));
  }

  lemma {:induction false} HintRoutesDifferent(cfg: Config, m: Memory, hint: Hint)
    requires HintAccepted(cfg, m, hint) && NamesSlotsOnce(hint)
    ensures DifferentSlots(HintRoutes(cfg, m, hint))
  {
    var e := LatestCited(m.state.transcript, hint.evidence);
    var result := HintResult(cfg, hint, e);
    var d := DetectAll(m.state.pains, e.seqNo, result.pains, true);
    RouteAllDifferent(d.pains, ContextOf(m.state.pains, d, e.seqNo, result, true), e.seqNo, e.id, result.facts);
  }

  /* ---------- events ---------- */

  /** An accepted event keeps ids unique exactly when each statement it routes or replays does in turn. */
  lemma {:induction false} EventKeepsIdsIff(cfg: Config, ops: seq<Op>, e: Event)
    requires WellFormed(cfg.registry) && Accepts(Run(cfg, ops), e)
    ensures var st := Run(cfg, ops).state;
            DistinctFactIds(Run(cfg, ops + [HearOp(e)]).state.facts) <==>
            DistinctFactIds(st.facts) && OwnIds(st.facts, HearRoutes(cfg, st, e))
  {
    var st := Run(cfg, ops).state;
    Reachable(cfg, ops);
    assert (ops + [HearOp(e)])[..|ops|] == ops;
    HearNormalForm(cfg, st, e);
    AbsorbAllKeepsIdsIff(st.facts, HearRoutes(cfg, st, e));
  }

  predicate DifferentNumbers(events: seq<Event>) {
    forall i, j | 0 <= i < j < |events| :: events[i].seqNo != events[j].seqNo
  }

  /** Each of the events proposes at most one fact for a slot of a category. */
  predicate Tidy(rules: Rules, events: seq<Event>) {
    forall e | e in events :: OneFactPerSlot(Analyze(rules, e).facts)
  }

  /** Statements of one event name different problems or slots when its proposed facts do. */
  lemma {:induction false} OneEventDiffers(pains: seq<Pain>, rs: seq<Routed>)
    requires IdentityInv(pains) && DifferentSlots(rs) && forall r | r in rs :: RoutedIn(pains, r)
    ensures DifferentIds(rs)
  {
    forall m, n | 0 <= m < n < |rs| ensures rs[m].pain != rs[n].pain || rs[m].pf.slot != rs[n].pf.slot {
      assert rs[m] in rs && rs[n] in rs;
      RoutedCategory(pains, rs[m]);
      RoutedCategory(pains, rs[n]);
    }
  }

  /** Replaying events with different numbers never makes one id twice. */
  lemma {:induction false} ReplayDiffers(rules: Rules, pains: seq<Pain>, newIds: set<PainId>, events: seq<Event>)
    requires IdentityInv(pains) && Tidy(rules, events) && DifferentNumbers(events)
    ensures DifferentIds(ReplayRoutes(rules, pains, newIds, events))
  {
    if events != [] {
      var front, e := events[..|events| - 1], events[|events| - 1];
      assert events == front + [e];
      ReplayDiffers(rules, pains, newIds, front);
      ReplayRoutesIn(rules, pains, newIds, front);
      OneReplayDiffers(rules, pains, newIds, e);
      OtherNumbers(front, e);
      DifferentConcat(ReplayRoutes(rules, pains, newIds, front), ReplayOneRoutes(rules, pains, newIds, e));
    }
  }

  lemma OtherNumbers(front: seq<Event>, e: Event)
    requires DifferentNumbers(front + [e])
    ensures forall t | t in front :: t.seqNo != e.seqNo
  {
    forall t | t in front ensures t.seqNo != e.seqNo {
      var k :| 0 <= k < |front| && front[k] == t;
      assert (front + [e])[k] == t && (front + [e])[|front|] == e;
    }
  }

  lemma {:induction false} OneReplayDiffers(rules: Rules, pains: seq<Pain>, newIds: set<PainId>, e: Event)
    requires IdentityInv(pains) && OneFactPerSlot(Analyze(rules, e).facts)
    ensures DifferentIds(ReplayOneRoutes(rules, pains, newIds, e))
    ensures forall r | r in ReplayOneRoutes(rules, pains, newIds, e) :: r.seqNo == e.seqNo
  {
    var pfs := Analyze(rules, e).facts;
    var relevant := Relevant(pains, newIds, pfs);
    RelevantTidy(pains, newIds, pfs);
    RouteAllDifferent(pains, ReplayContext(pains, relevant), e.seqNo, e.id, relevant);
    RouteAllIn(pains, ReplayContext(pains, relevant), e.seqNo, e.id, relevant);
    OneEventDiffers(pains, ReplayOneRoutes(rules, pains, newIds, e));
  }

  lemma DifferentConcat(a: seq<Routed>, b: seq<Routed>)
    requires DifferentIds(a) && DifferentIds(b)
    requires forall q, r | q in a && r in b :: q.seqNo != r.seqNo || q.pain != r.pain
    ensures DifferentIds(a + b)
  {
    var c := a + b;
    forall m, n | 0 <= m < n < |c|
      ensures c[m].pain != c[n].pain || c[m].pf.slot != c[n].pf.slot || c[m].seqNo != c[n].seqNo
    {
      if m < |a| <= n {
        assert c[m] in a && c[n] in b;
      } else if |a| <= m {
        assert c[m] == b[m - |a|] && c[n] == b[n - |a|];
      }
    }
  }

  lemma {:induction false} RestrictRoutesUniform(rs: seq<Routed>, ids: set<PainId>, side: bool, inside: bool)
    requires forall r | r in rs :: (r.pain in ids) == side
    ensures RestrictRoutes(rs, ids, inside) == if side == inside then rs else []
  {
    if rs != [] {
      var front, r := rs[..|rs| - 1], rs[|rs| - 1];
      assert rs == front + [r];
      RestrictRoutesUniform(front, ids, side, inside);
    }
  }

  /** The events whose facts may be replayed to problems that e creates: numbered apart, one fact a slot each. */
  ghost predicate TidyContext(cfg: Config, st: MeetingState, e: Event) {
    Created(cfg, st, e) == {} ||
    (Tidy(cfg.rules, ContextOfLast(st.transcript + [e])) && DifferentNumbers(ContextOfLast(st.transcript + [e])))
  }

  /** What such an event replays has ids of its own. */
  lemma {:induction false} ReplayedDiffers(cfg: Config, st: MeetingState, e: Event)
    requires IdentityInv(st.pains) && TidyContext(cfg, st, e)
    ensures DifferentIds(Replayed(cfg, st, e))
  {
    HearSetup(cfg, st, e);
    ReplayedInside(cfg, st, e);
    if Created(cfg, st, e) != {} {
      ReplayDiffers(cfg.rules, PainsAfter(cfg, st, e), Created(cfg, st, e), ContextOfLast(st.transcript + [e]));
    }
  }

  lemma {:induction false} OwnIdsConcat(facts: seq<Fact>, a: seq<Routed>, b: seq<Routed>)
    ensures OwnIds(facts, a + b) <==> OwnIds(facts, a) && OwnIds(AbsorbAll(facts, a), b)
  {
    if b == [] {
      assert a + b == a;
    } else {
      var front, r := b[..|b| - 1], b[|b| - 1];
      assert b == front + [r] && a + b == (a + front) + [r];
      OwnIdsConcat(facts, a, front);
      OwnIdsStep(facts, a + front, r);
      OwnIdsStep(AbsorbAll(facts, a), front, r);
      AbsorbAllConcat(facts, a, front);
    }
  }

  lemma {:induction false} HearRoutesSplit(cfg: Config, st: MeetingState, e: Event)
    requires IdentityInv(st.pains)
    ensures HearRoutes(cfg, st, e) ==
            RestrictRoutes(FirstRoutes(cfg, st, e), Created(cfg, st, e), false) + Replayed(cfg, st, e)
  {
    ReplayedInside(cfg, st, e);
    if Created(cfg, st, e) == {} {
      RestrictRoutesUniform(FirstRoutes(cfg, st, e), {}, false, false);
    }
  }

  lemma {:induction false} KeptIndependent(cfg: Config, st: MeetingState, e: Event)
    requires IdentityInv(st.pains) && OneFactPerSlot(Analyze(cfg.rules, e).facts)
    ensures Independent(RestrictRoutes(FirstRoutes(cfg, st, e), Created(cfg, st, e), false))
  {
    var result := Analyze(cfg.rules, e);
    var d := DetectAll(st.pains, e.seqNo, result.pains, cfg.allowPromotion);
    var ctx := ContextOf(st.pains, d, e.seqNo, result, cfg.allowPromotion);
    HearSetup(cfg, st, e);
    RouteAllDifferent(d.pains, ctx, e.seqNo, e.id, result.facts);
    DifferentSlotsIndependent(d.pains, FirstRoutes(cfg, st, e));
    RestrictIndependent(FirstRoutes(cfg, st, e), Created(cfg, st, e), false);
  }

  lemma {:induction false} RestrictIndependent(rs: seq<Routed>, ids: set<PainId>, inside: bool)
    requires Independent(rs)
    ensures Independent(RestrictRoutes(rs, ids, inside))
  {
    if rs != [] {
      var front, r := rs[..|rs| - 1], rs[|rs| - 1];
      assert rs == front + [r];
      RestrictIndependent(front, ids, inside);
      forall q | q in front ensures Aside(q, r.lineage, r.pf.slot) {
        var k :| 0 <= k < |front| && front[k] == q;
        assert Aside(rs[k], rs[|front|].lineage, rs[|front|].pf.slot);
      }
      var kept := RestrictRoutes(front, ids, inside);
      forall m | 0 <= m < |kept| ensures Aside(kept[m], r.lineage, r.pf.slot) {
        assert kept[m] in kept;
      }
    }
  }

  /** Whatever older problems receive, the replayed statements meet new problems without facts. */
  lemma {:induction false} ReplayedOwnIds(cfg: Config, st: MeetingState, e: Event, kept: seq<Routed>)
    requires IdentityInv(st.pains) && FactsPlaced(st) && TidyContext(cfg, st, e)
    requires (forall f | f in st.facts :: Named(f)) && forall r | r in kept :: r.pain !in Created(cfg, st, e)
    ensures OwnIds(AbsorbAll(st.facts, kept), Replayed(cfg, st, e))
  {
    var before := AbsorbAll(st.facts, kept);
    HearSetup(cfg, st, e);
    ReplayedInside(cfg, st, e);
    ReplayedDiffers(cfg, st, e);
    AbsorbAllNamed(st.facts, kept);
    AbsorbAllSourced(st.facts, kept);
    forall f | f in before ensures f.pain !in Created(cfg, st, e) {
      assert Sourced(f, st.facts, kept);
    }
    NewNumbersOwnIds(before, Replayed(cfg, st, e));
  }

  /**
    For an event that names each slot once, with a tidy context, the statements routed to older problems decide, and
    they are judged by the state before the call.
   */
  lemma {:induction false} EventOwnIdsIff(cfg: Config, ops: seq<Op>, e: Event)
    requires WellFormed(cfg.registry) && Accepts(Run(cfg, ops), e)
    requires OneFactPerSlot(Analyze(cfg.rules, e).facts) && TidyContext(cfg, Run(cfg, ops).state, e)
    ensures var st := Run(cfg, ops).state;
            OwnIds(st.facts, HearRoutes(cfg, st, e)) <==>
            forall r | r in FirstRoutes(cfg, st, e) && r.pain !in Created(cfg, st, e) :: KeepsId(st.facts, r)
  {
    var st := Run(cfg, ops).state;
    var kept := RestrictRoutes(FirstRoutes(cfg, st, e), Created(cfg, st, e), false);
    Reachable(cfg, ops);
    FactsAlwaysNamed(cfg, ops);
    HearRoutesSplit(cfg, st, e);
    OwnIdsConcat(st.facts, kept, Replayed(cfg, st, e));
    ReplayedOwnIds(cfg, st, e, kept);
    KeptIndependent(cfg, st, e);
    IndependentOwnIds(st.facts, kept);
  }

  /* ---------- runs ---------- */

  /** The call keeps ids unique: each statement it absorbs does in turn. */
  ghost predicate StepOwnsIds(cfg: Config, m: Memory, op: Op) {
    match op
    case HearOp(e) => Accepts(m, e) ==> OwnIds(m.state.facts, HearRoutes(cfg, m.state, e))
    case DecideOp(_, _, _) => true
    case ConfirmOp(hint) => HintAccepted(cfg, m, hint) ==> OwnIds(m.state.facts, HintRoutes(cfg, m, hint))
  }

  ghost predicate RunOwnsIds(cfg: Config, ops: seq<Op>) {
    ops == [] ||
    (RunOwnsIds(cfg, ops[..|ops| - 1]) && StepOwnsIds(cfg, Run(cfg, ops[..|ops| - 1]), ops[|ops| - 1]))
  }

  lemma {:induction false} StepKeepsIdsIff(cfg: Config, ops: seq<Op>, op: Op)
    requires WellFormed(cfg.registry)
    ensures DistinctFactIds(Run(cfg, ops + [op]).state.facts) <==>
            DistinctFactIds(Run(cfg, ops).state.facts) && StepOwnsIds(cfg, Run(cfg, ops), op)
  {
    var m := Run(cfg, ops);
    assert (ops + [op])[..|ops|] == ops;
    match op
    case HearOp(e) =>
      if Accepts(m, e) {
        EventKeepsIdsIff(cfg, ops, e);
      }
    case DecideOp(action, ids, survivor) =>
      if Decide(cfg, m, action, ids, survivor).Ok? {
        DecideStepLinks(cfg, m, action, ids, survivor);
      }
    case ConfirmOp(hint) =>
      if HintAccepted(cfg, m, hint) {
        HintKeepsIdsIff(cfg, ops, hint);
      }
  }

  /** Over any run fact ids are unique exactly when every call of it kept them unique. */
  lemma {:induction false} IdsUniqueIff(cfg: Config, ops: seq<Op>)
    requires WellFormed(cfg.registry)
    ensures DistinctFactIds(Run(cfg, ops).state.facts) <==> RunOwnsIds(cfg, ops)
  {
    if ops != [] {
      var front, op := ops[..|ops| - 1], ops[|ops| - 1];
      assert ops == front + [op];
      IdsUniqueIff(cfg, front);
      StepKeepsIdsIff(cfg, front, op);
    }
  }

  /** Accepted events have numbers of their own, in any order, and name each slot of a category once. */
  predicate NumberedRun(cfg: Config, ops: seq<Op>) {
    ops == [] ||
    (NumberedRun(cfg, ops[..|ops| - 1]) && NumberedStep(cfg, Run(cfg, ops[..|ops| - 1]), ops[|ops| - 1]))
  }

  /** What NumberedRun asks of one call. */
  predicate NumberedStep(cfg: Config, m: Memory, op: Op) {
    op.HearOp? && Accepts(m, op.e) ==>
      OneFactPerSlot(Analyze(cfg.rules, op.e).facts) && forall t | t in m.state.transcript :: t.seqNo != op.e.seqNo
  }

  /** Every accepted hint of the run kept ids unique. */
  ghost predicate HintsOwnIds(cfg: Config, ops: seq<Op>) {
    ops == [] ||
    (HintsOwnIds(cfg, ops[..|ops| - 1]) &&
     (ops[|ops| - 1].ConfirmOp? ==> StepOwnsIds(cfg, Run(cfg, ops[..|ops| - 1]), ops[|ops| - 1])))
  }

  lemma {:induction false} NumberedTranscript(cfg: Config, ops: seq<Op>)
    requires WellFormed(cfg.registry) && NumberedRun(cfg, ops)
    ensures DifferentNumbers(Run(cfg, ops).state.transcript) && Tidy(cfg.rules, Run(cfg, ops).state.transcript)
  {
    if ops != [] {
      NumberedTranscript(cfg, ops[..|ops| - 1]);
      StepTranscript(cfg, Run(cfg, ops[..|ops| - 1]), ops[|ops| - 1]);
    }
  }

  lemma {:induction false} StepTranscript(cfg: Config, m: Memory, op: Op)
    ensures Step(cfg, m, op).state.transcript ==
            m.state.transcript + if op.HearOp? && Accepts(m, op.e) then [op.e] else []
  {
    if op.DecideOp? && Decide(cfg, m, op.action, op.ids, op.survivor).Ok? {
      DecideStepLinks(cfg, m, op.action, op.ids, op.survivor);
    }
  }

  /** In every reachable state each fact carries the number of some event of the transcript. */
  lemma {:induction false} FactsAlwaysNumbered(cfg: Config, ops: seq<Op>)
    requires WellFormed(cfg.registry)
    ensures Numbered(Run(cfg, ops).state.facts, Run(cfg, ops).state.transcript)
  {
    if ops != [] {
      var front, op := ops[..|ops| - 1], ops[|ops| - 1];
      var m := Run(cfg, front);
      FactsAlwaysNumbered(cfg, front);
      Reachable(cfg, front);
      match op
      case HearOp(e) =>
        if Accepts(m, e) {
          HearNormalForm(cfg, m.state, e);
          HearRoutesIn(cfg, m.state, e);
          AbsorbAllNumbered(m.state.facts, HearRoutes(cfg, m.state, e), m.state.transcript, m.state.transcript + [e]);
        }
      case DecideOp(action, ids, survivor) =>
        if Decide(cfg, m, action, ids, survivor).Ok? {
          DecideStepLinks(cfg, m, action, ids, survivor);
        }
      case ConfirmOp(hint) =>
        if HintAccepted(cfg, m, hint) {
          HintRoutesNumbered(cfg, m, hint);
          AbsorbAllNumbered(m.state.facts, HintRoutes(cfg, m, hint), m.state.transcript, m.state.transcript);
        }
    }
  }

  ghost predicate Numbered(facts: seq<Fact>, transcript: seq<Event>) {
    forall f | f in facts :: exists t :: t in transcript && t.seqNo == f.createdSeq
  }

  lemma {:induction false} AbsorbAllNumbered(facts: seq<Fact>, rs: seq<Routed>, earlier: seq<Event>, now: seq<Event>)
    requires Numbered(facts, earlier) && earlier <= now
    requires forall r | r in rs :: exists t :: t in now && t.seqNo == r.seqNo
    ensures Numbered(AbsorbAll(facts, rs), now)
  {
    AbsorbAllSourced(facts, rs);
    forall f | f in AbsorbAll(facts, rs) ensures exists t :: t in now && t.seqNo == f.createdSeq {
      assert Sourced(f, facts, rs);
      if g :| g in facts && g.pain == f.pain && g.slot == f.slot && g.createdSeq == f.createdSeq {
        var t :| t in earlier && t.seqNo == g.createdSeq;
        assert t in now;
      }
    }
  }

  lemma {:induction false} HintRoutesNumbered(cfg: Config, m: Memory, hint: Hint)
    requires HintAccepted(cfg, m, hint)
    ensures forall r | r in HintRoutes(cfg, m, hint) :: exists t :: t in m.state.transcript && t.seqNo == r.seqNo
  {
    var e := LatestCited(m.state.transcript, hint.evidence);
    var result := HintResult(cfg, hint, e);
    var d := DetectAll(m.state.pains, e.seqNo, result.pains, true);
    RouteAllIn(d.pains, ContextOf(m.state.pains, d, e.seqNo, result, true), e.seqNo, e.id, result.facts);
    forall r | r in HintRoutes(cfg, m, hint) ensures exists t :: t in m.state.transcript && t.seqNo == r.seqNo {
      assert StampedBy(r, e.seqNo, e.id, result.facts);
    }
  }

  lemma {:induction false} TidyTranscript(cfg: Config, st: MeetingState, e: Event)
    requires DifferentNumbers(st.transcript + [e]) && Tidy(cfg.rules, st.transcript + [e])
    ensures TidyContext(cfg, st, e)
  {
    var all, context := st.transcript + [e], ContextOfLast(st.transcript + [e]);
    ContextInTranscript(all);
    var at := ContextMeaning(all);
    forall i, j | 0 <= i < j < |context| ensures context[i].seqNo != context[j].seqNo {
      assert at[i] < at[j];
      assert all[at[i]].seqNo != all[at[j]].seqNo;
    }
  }

  /** An event with a number of its own keeps ids unique, in any order of arrival. */
  lemma {:induction false} NumberedEventOwnsIds(cfg: Config, ops: seq<Op>, e: Event)
    requires WellFormed(cfg.registry) && NumberedRun(cfg, ops + [HearOp(e)]) && Accepts(Run(cfg, ops), e)
    ensures StepOwnsIds(cfg, Run(cfg, ops), HearOp(e))
  {
    var st := Run(cfg, ops).state;
    assert (ops + [HearOp(e)])[..|ops|] == ops;
    NumberedTranscript(cfg, ops + [HearOp(e)]);
    FactsAlwaysNumbered(cfg, ops);
    FactsAlwaysNamed(cfg, ops);
    Reachable(cfg, ops);
    TidyTranscript(cfg, st, e);
    EventOwnIdsIff(cfg, ops, e);
    HearSetup(cfg, st, e);
    forall r | r in FirstRoutes(cfg, st, e) ensures KeepsId(st.facts, r) {
      assert StampedBy(r, e.seqNo, e.id, Analyze(cfg.rules, e).facts);
      forall f | f in st.facts ensures f.id != FactId(r.pain, r.pf.slot, r.seqNo) {
        assert Named(f);
      }
    }
  }

  /**
    On runs whose events have numbers of their own, in any order, only a hint can repeat an id: ids are unique exactly
    when every accepted hint kept them unique.
   */
  lemma {:induction false} NumberedIdsIff(cfg: Config, ops: seq<Op>)
    requires WellFormed(cfg.registry) && NumberedRun(cfg, ops)
    ensures DistinctFactIds(Run(cfg, ops).state.facts) <==> HintsOwnIds(cfg, ops)
  {
    if ops != [] {
      var front, op := ops[..|ops| - 1], ops[|ops| - 1];
      assert ops == front + [op];
      NumberedIdsIff(cfg, front);
      StepKeepsIdsIff(cfg, front, op);
      if op.HearOp? && Accepts(Run(cfg, front), op.e) {
        NumberedEventOwnsIds(cfg, front, op.e);
      }
    }
  }
}
