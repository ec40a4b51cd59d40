/**
  Short meetings to reason about. Each event states one data mismatch, a problem of its own under the id of the event,
  and the text of the event, if any, names the owner.
 */
module Meetings {
  import opened Contracts
  import opened Sequences
  import opened Templates
  import opened Analyzer
  import opened Reducer
  import opened Identity
  import opened Facts
  import opened GapLaws
  import opened Selection
  import opened Engine
  import opened EngineLaws
  import opened HearLaws
  import opened Invariants
  import opened Runs
  import opened Readers
  import opened FactIds
  import opened Routing

  function OwnerStated(name: string, key: Option<string>): Proposed {
    Proposed(DataMismatch, Owner, name, key, Evidence, Supersede, Deterministic)
  }

  const RULES := Rules(
    (e: Event) => RawAnalysis([DataMismatch], if e.text == "" then [] else [OwnerStated(e.text, None)]),
    (c: Category, e: Event, pfs: seq<Proposed>) => ProblemIdentity(e.id, true))

  const WORDING := Wording(
    (s: string) => s, (s: Signal, t: string) => false, (l: Lang, c: Category, s: Slot) => true, (id: GapId) => "")

  const CFG := Config("meeting", STANDARD, RULES, WORDING, true)

  /** Events are a hundred seconds apart, so none is context of a later one. */
  function Said(id: string, n: nat, text: string): Event {
    Event(id, n, En, 100.0 * (n as real), 100.0 * (n as real), true, text)
  }

  function IdOf(key: string): PainId {
    PainId(DataMismatch, key)
  }

  function ProblemOf(e: Event): Pain {
    NewPain(Detected(DataMismatch, e.id, e.id, true), e.seqNo)
  }

  function FactOf(e: Event): Fact {
    NewFact(Routed(IdOf(e.id), {IdOf(e.id)}, e.seqNo, e.id, OwnerStated(e.text, Some(e.id))), Active, None, [])
  }

  function FactsOf(e: Event): seq<Fact> {
    if e.text == "" then [] else [FactOf(e)]
  }

  lemma WhatIsSaid(e: Event)
    requires e.isFinal
    ensures Analyze(RULES, e) == AnalysisResult(
              [Detected(DataMismatch, e.id, e.id, true)], if e.text == "" then []
                  else [OwnerStated(e.text, Some(e.id))])
  {
    var raw := RULES.extract(e);
    assert Identified(RULES, e, raw, 0) == [];
    assert Identified(RULES, e, raw, 1) == [Detected(DataMismatch, e.id, e.id, true)];
  }

  /** Nothing here is ever provisional, and nobody has heard of e. */
  ghost predicate Unheard(m: Memory, e: Event) {
    && Inv(CFG, m) && Accepts(m, e)
    && (forall p | p in m.state.pains :: p.anchored)
    && FindOwner(m.state.pains, DataMismatch, e.id).None?
    && forall t | t in m.state.transcript :: e.tsStart - t.tsEnd > CONTEXT_SECONDS
  }

  lemma {:induction false} NothingPromotable(m: Memory, e: Event)
    requires Unheard(m, e)
    ensures forall i | 0 <= i < |m.state.pains| :: !Promotable(m.state.pains[i], DataMismatch, e.seqNo)
    ensures Ambiguous(CFG, m.state.pains, e) == {}
  {
    WhatIsSaid(e);
    forall i | 0 <= i < |m.state.pains| ensures !Promotable(m.state.pains[i], DataMismatch, e.seqNo) {
      assert m.state.pains[i] in m.state.pains;
    }
  }

  lemma {:induction false} ProblemAdded(m: Memory, e: Event)
    requires Unheard(m, e)
    ensures PainsAfter(CFG, m.state, e) == m.state.pains + [ProblemOf(e)]
  {
    var pains, dp := m.state.pains, Detected(DataMismatch, e.id, e.id, true);
    WhatIsSaid(e);
    NothingPromotable(m, e);
    assert PromotionTarget(pains, DataMismatch, e.seqNo).None?;
    DetectOne(pains, e.seqNo, dp, true);
  }

  lemma {:induction false} NewProblem(m: Memory, e: Event)
    requires Unheard(m, e)
    ensures PainsAfter(CFG, m.state, e) == m.state.pains + [ProblemOf(e)]
    ensures Created(CFG, m.state, e) == {IdOf(e.id)} && IdOf(e.id) !in PainIds(m.state.pains)
  {
    ProblemAdded(m, e);
    NothingPromotable(m, e);
    MintedIdIsFresh(m.state.pains, DataMismatch, e.id);
    OnlyNewId(m.state.pains, e);
  }

  lemma OnlyNewId(pains: seq<Pain>, e: Event)
    requires forall i | 0 <= i < |pains| :: pains[i].id != IdOf(e.id)
    ensures NewIds(pains, pains + [ProblemOf(e)], e.seqNo, {}) == {IdOf(e.id)} && IdOf(e.id) !in PainIds(pains)
  {
    var after := pains + [ProblemOf(e)];
    assert after[|pains|] in after;
    forall p | p in after ensures p in pains || p == ProblemOf(e) {
    }
  }

  lemma {:induction false} ContextAlone(window: seq<Event>, n: nat)
    requires window != [] && n < |window|
    requires forall k | 0 <= k < |window| - 1 :: window[|window| - 1].tsStart - window[k].tsEnd > CONTEXT_SECONDS
    ensures ContextUpTo(window, n) == []
  {
    if n > 0 {
      ContextAlone(window, n - 1);
    }
  }

  lemma {:induction false} NoContext(m: Memory, e: Event)
    requires Unheard(m, e)
    ensures ContextOfLast(m.state.transcript + [e]) == [e]
  {
    var events := m.state.transcript + [e];
    var window := LastN(events, CONTEXT_EVENTS);
    assert window[|window| - 1] == e;
    forall k | 0 <= k < |window| - 1 ensures e.tsStart - window[k].tsEnd > CONTEXT_SECONDS {
      assert window[k] in m.state.transcript;
    }
    ContextAlone(window, |window| - 1);
  }

  lemma {:induction false} NewTarget(m: Memory, e: Event)
    requires Unheard(m, e)
    ensures ReplayTarget(m.state.pains + [ProblemOf(e)], OwnerStated(e.text, Some(e.id))) == Some(|m.state.pains|)
  {
    var pains := m.state.pains;
    forall i | 0 <= i < |pains| ensures !(pains[i].category == DataMismatch && pains[i].open && pains[i].key == e.id) {
      assert Shaped(pains, i) && !pains[i].Owns(DataMismatch, e.id);
    }
    assert (pains + [ProblemOf(e)])[|pains|] == ProblemOf(e);
  }

  lemma NewOwner(m: Memory, e: Event)
    requires Unheard(m, e)
    ensures FindOwner(m.state.pains + [ProblemOf(e)], DataMismatch, e.id) == Some(|m.state.pains|)
  {
    var pains := m.state.pains;
    assert (pains + [ProblemOf(e)])[|pains|].Owns(DataMismatch, e.id);
    assert forall i | 0 <= i < |pains| :: !pains[i].Owns(DataMismatch, e.id);
  }

  lemma {:induction false} FirstGoesHome(m: Memory, e: Event, r: Routed)
    requires Unheard(m, e) && r in FirstRoutes(CFG, m.state, e)
    ensures r.pain == IdOf(e.id)
  {
    HomeOwner(m, e);
    OnlyStatement(e);
    SoleRoute(CFG, m.state, e, r, OwnerStated(e.text, Some(e.id)), |m.state.pains|);
  }

  lemma {:induction false} HomeOwner(m: Memory, e: Event)
    requires Unheard(m, e)
    ensures FindOwner(PainsAfter(CFG, m.state, e), DataMismatch, e.id) == Some(|m.state.pains|)
    ensures PainsAfter(CFG, m.state, e)[|m.state.pains|].id == IdOf(e.id)
  {
    ProblemAdded(m, e);
    NewOwner(m, e);
    assert (m.state.pains + [ProblemOf(e)])[|m.state.pains|] == ProblemOf(e);
  }

  lemma OnlyStatement(e: Event)
    requires e.isFinal
    ensures forall q | q in Analyze(CFG.rules, e).facts :: q == OwnerStated(e.text, Some(e.id))
  {
    WhatIsSaid(e);
  }

  lemma {:induction false} NothingKept(m: Memory, e: Event)
    requires Unheard(m, e)
    ensures RestrictRoutes(FirstRoutes(CFG, m.state, e), {IdOf(e.id)}, false) == []
  {
    forall r | r in FirstRoutes(CFG, m.state, e) ensures r.pain == IdOf(e.id) {
      FirstGoesHome(m, e, r);
    }
    NoElements(RestrictRoutes(FirstRoutes(CFG, m.state, e), {IdOf(e.id)}, false));
  }

  function RouteHome(e: Event): seq<Routed> {
    if e.text == "" then []
    else [Routed(IdOf(e.id), {IdOf(e.id)}, e.seqNo, e.id, OwnerStated(e.text, Some(e.id)))]
  }

  lemma {:induction false} MatchesHome(m: Memory, e: Event)
    requires Unheard(m, e)
    ensures Matching(RULES, m.state.pains + [ProblemOf(e)], IdOf(e.id), [e]) == RouteHome(e)
  {
    var after, facts := m.state.pains + [ProblemOf(e)], Analyze(RULES, e).facts;
    assert [e][..0] == [] && Matching(RULES, after, IdOf(e.id), []) == [];
    assert Matching(RULES, after, IdOf(e.id), [e]) == [] + MatchingOne(after, IdOf(e.id), e, facts);
    WhatIsSaid(e);
    if e.text != "" {
      NewTarget(m, e);
      MatchingSole(after, |m.state.pains|, e, OwnerStated(e.text, Some(e.id)));
    }
  }

  lemma MatchingSole(pains: seq<Pain>, i: nat, e: Event, pf: Proposed)
    requires i < |pains| && ReplayTarget(pains, pf) == Some(i)
    ensures MatchingOne(pains, pains[i].id, e, [pf]) == [ReplayedAs(pains, i, e, pf)]
  {
    assert [pf][..0] == [];
    assert MatchingOne(pains, pains[i].id, e, []) == [];
  }

  lemma {:induction false} ReplaysHome(m: Memory, e: Event)
    requires Unheard(m, e)
    ensures Replayed(CFG, m.state, e) == RouteHome(e)
  {
    var id, after := IdOf(e.id), PainsAfter(CFG, m.state, e);
    HearSetup(CFG, m.state, e);
    NewProblem(m, e);
    NoContext(m, e);
    ReplayRoutesMatch(RULES, after, {id}, id, [e]);
    RestrictRoutesUniform(Replayed(CFG, m.state, e), {id}, true, true);
    MatchesHome(m, e);
  }

  lemma {:induction false} NewRoutes(m: Memory, e: Event)
    requires Unheard(m, e)
    ensures HearRoutes(CFG, m.state, e) == RouteHome(e)
  {
    NewProblem(m, e);
    NothingKept(m, e);
    ReplaysHome(m, e);
  }

  lemma AbsorbHome(m: Memory, e: Event)
    requires Inv(CFG, m) && IdOf(e.id) !in PainIds(m.state.pains)
    ensures AbsorbAll(m.state.facts, RouteHome(e)) == m.state.facts + FactsOf(e)
  {
    if e.text != "" {
      var r := RouteHome(e)[0];
      assert [r][..0] == [];
      assert AbsorbAll(m.state.facts, []) == m.state.facts;
      forall f | f in m.state.facts ensures !Holds(f, r.lineage, Owner) {
        assert f.pain in PainIds(m.state.pains);
      }
    }
  }

  /** The event adds its problem, and its fact if it states one. */
  lemma {:induction false} HearNew(m: Memory, e: Event)
    requires Unheard(m, e)
    ensures var after := Hear(CFG, m, e).state;
            && after.pains == m.state.pains + [ProblemOf(e)] && after.facts == m.state.facts + FactsOf(e)
            && after.transcript == m.state.transcript + [e] && after.decisions == m.state.decisions
            && after.confirmedHints == m.state.confirmedHints
  {
    assert HearBoard(CFG, m.state, e) == Board(m.state.pains + [ProblemOf(e)], m.state.facts + FactsOf(e)) by {
      HearNormalForm(CFG, m.state, e);
      NewRoutes(m, e);
      NewProblem(m, e);
      AbsorbHome(m, e);
    }
  }

  /* ---------- building up a meeting ---------- */

  function Hearing(events: seq<Event>): seq<Op> {
    if events == [] then [] else Hearing(events[..|events| - 1]) + [HearOp(events[|events| - 1])]
  }

  function ProblemsOf(events: seq<Event>): (r: seq<Pain>)
    ensures |r| == |events| && forall i | 0 <= i < |r| :: r[i] == ProblemOf(events[i])
  {
    if events == [] then [] else ProblemsOf(events[..|events| - 1]) + [ProblemOf(events[|events| - 1])]
  }

  function AllFactsOf(events: seq<Event>): seq<Fact> {
    if events == [] then [] else AllFactsOf(events[..|events| - 1]) + FactsOf(events[|events| - 1])
  }

  predicate Spaced(events: seq<Event>) {
    && (forall e | e in events :: e.isFinal)
    && forall i, j | 0 <= i < j < |events| ::
         events[i].id != events[j].id && events[j].tsStart - events[i].tsEnd > CONTEXT_SECONDS
  }

  lemma RunExtends(ops: seq<Op>, op: Op)
    ensures Run(CFG, ops + [op]) == Step(CFG, Run(CFG, ops), op)
  {
    assert (ops + [op])[..|ops|] == ops;
  }

  lemma {:induction false} AllReachable(ops: seq<Op>)
    ensures Inv(CFG, Run(CFG, ops)) && WellFormed(CFG.registry)
  {
    StandardWellFormed();
    Reachable(CFG, ops);
  }

  lemma {:induction false} StillUnheard(m: Memory, events: seq<Event>, e: Event)
    requires Inv(CFG, m) && m.state.pains == ProblemsOf(events) && m.state.transcript == events && Spaced(events + [e])
    ensures Unheard(m, e)
  {
    var all := events + [e];
    forall t | t in events ensures t.id != e.id && e.tsStart - t.tsEnd > CONTEXT_SECONDS {
      var k :| 0 <= k < |events| && events[k] == t;
      assert all[k] == t && all[|events|] == e;
    }
    assert e in all;
    forall i | 0 <= i < |events| ensures !m.state.pains[i].Owns(DataMismatch, e.id) && m.state.pains[i].anchored {
      assert events[i] in events;
    }
  }

  lemma {:induction false} HearAll(events: seq<Event>)
    requires Spaced(events)
    ensures var st := Run(CFG, Hearing(events)).state;
            && st.pains == ProblemsOf(events) && st.facts == AllFactsOf(events) && st.transcript == events
            && st.decisions == [] && st.confirmedHints == []
  {
    if events != [] {
      var front, e := events[..|events| - 1], events[|events| - 1];
      assert events == front + [e];
      assert Spaced(front);
      HearAll(front);
      AllReachable(Hearing(front));
      RunExtends(Hearing(front), HearOp(e));
      StillUnheard(Run(CFG, Hearing(front)), front, e);
      HearNew(Run(CFG, Hearing(front)), e);
    }
  }

  /** Deciding two unmerged problems for the first time. */
  lemma {:induction false} DecideStep(m: Memory, action: Action, i: nat, j: nat, survivor: Option<PainId>)
    requires Inv(CFG, m) && i < j < |m.state.pains| && m.state.pains[i].Live() && m.state.pains[j].Live()
    requires m.state.pains[i].category == m.state.pains[j].category && !action.OtherAction?
    requires survivor.None? || survivor.value == m.state.pains[i].id || survivor.value == m.state.pains[j].id
    requires forall e | e in m.state.decisions ::
        e.action != action || e.pains != {m.state.pains[i].id, m.state.pains[j].id}
    ensures var st, ids := m.state, [m.state.pains[i].id, m.state.pains[j].id];
            var after, d := Step(CFG, m, DecideOp(action, ids, survivor)).state, DecisionOf(st, action, ids, survivor);
            && d.pains == {st.pains[i].id, st.pains[j].id}
            && Decisions(after.pains, after.decisions) == DecidedTo(st.pains, st.decisions, d, i, j)
            && after.facts == st.facts && after.transcript == st.transcript && after.confirmedHints == st.confirmedHints
  {
    var st := m.state;
    var d := DecisionOf(st, action, [st.pains[i].id, st.pains[j].id], survivor);
    assert d.pains == {st.pains[i].id, st.pains[j].id};
    assert st.pains[i].id != st.pains[j].id;
    assert |d.pains| == 2;
    PairDecided(st.pains, st.decisions, d, i, j);
  }

  /** Merging problems i and j for the first time, into the named one. */
  lemma {:induction false} MergeStep(m: Memory, i: nat, j: nat, s: nat, x: nat)
    requires Inv(CFG, m) && i < j < |m.state.pains| && m.state.pains[i].Live() && m.state.pains[j].Live()
    requires m.state.pains[i].category == m.state.pains[j].category && ((s == i && x == j) || (s == j && x == i))
    requires forall e | e in m.state.decisions :: e.pains != {m.state.pains[i].id, m.state.pains[j].id}
    ensures var st, ids := m.state, [m.state.pains[i].id, m.state.pains[j].id];
            var after := Step(CFG, m, DecideOp(Merge, ids, Some(st.pains[s].id))).state;
            && after.pains == MergeAt(st.pains, s, x) && after.facts == st.facts && after.transcript == st.transcript
            && after.confirmedHints == st.confirmedHints && |after.decisions| == |st.decisions| + 1
            && after.decisions[|st.decisions|].pains == {st.pains[i].id, st.pains[j].id}
  {
    DecideStep(m, Merge, i, j, Some(m.state.pains[s].id));
    assert Roles(m.state.pains, i, j, Some(m.state.pains[s].id)) == (s, x);
  }

  lemma AloneLineage(pains: seq<Pain>, i: nat)
    requires i < |pains| && forall k | 0 <= k < |pains| :: pains[k].Live()
    ensures Lineage(pains, pains[i].id) == {pains[i].id}
  {
    forall x ensures x in Lineage(pains, pains[i].id) <==> x == pains[i].id {
      InLineage(pains, pains[i].id, x);
    }
  }

  lemma OwnerTracked(pains: seq<Pain>, i: nat)
    requires i < |pains| && pains[i].category == DataMismatch && pains[i].open && pains[i].Live()
    ensures Tracked(STANDARD, pains, GapId(pains[i].id, Owner))
  {
    assert StandardTemplate(DataMismatch).slots[2] == Owner;
  }

  /** The owner gap of an unmerged problem names the first active fact, if any. */
  lemma {:induction false} OwnerGap(ops: seq<Op>, i: nat)
    requires i < |Run(CFG, ops).state.pains| && Run(CFG, ops).state.pains[i].Live()
    requires Run(CFG, ops).state.pains[i].category == DataMismatch
    ensures var st := Run(CFG, ops).state;
            var id := GapId(st.pains[i].id, Owner);
            var first := FirstActive(st.facts, Lineage(st.pains, st.pains[i].id), Owner);
            && PriorOf(st.gaps, id).Some?
            && PriorOf(st.gaps, id).value.resolvedBy == (if first.Some? then Some(st.facts[first.value].id) else None)
            && (if first.Some? then AnsweredAt(st, id) else OpenAt(st, id))
  {
    var st := Run(CFG, ops).state;
    AllReachable(ops);
    assert Shaped(st.pains, i);
    OwnerTracked(st.pains, i);
    GapsAreCurrent(CFG, ops, GapId(st.pains[i].id, Owner));
    GapNamesFirstActive(CFG, ops, GapId(st.pains[i].id, Owner));
  }

  /* ---------- hints ---------- */

  /** A reviewed hint that cites one event and names owners. */
  function OwnerHint(eventId: string, names: seq<string>): Hint {
    Hint("hint", "meeting", DataMismatch, [eventId],
         seq(|names|, i requires 0 <= i < |names| => HintFact(Owner, names[i], Evidence)))
  }

  function OwnersConfirmed(names: seq<string>, key: string): (r: seq<Proposed>)
    ensures |r| == |names|
    ensures forall i | 0 <= i < |r| :: r[i] == OwnerStated(names[i], Some(key)).(origin := SemanticConfirmed)
  {
    if names == [] then []
    else OwnersConfirmed(names[..|names| - 1], key) +
         [OwnerStated(names[|names| - 1], Some(key)).(origin := SemanticConfirmed)]
  }

  function HintedOwner(pains: seq<Pain>, e: Event, name: string): Routed
    requires pains != []
  {
    Routed(pains[0].id, Lineage(pains, pains[0].id), e.seqNo, e.id,
           OwnerStated(name, Some(e.id)).(origin := SemanticConfirmed))
  }

  function HintedOwners(pains: seq<Pain>, e: Event, names: seq<string>): seq<Routed>
    requires pains != []
  {
    if names == [] then []
    else HintedOwners(pains, e, names[..|names| - 1]) + [HintedOwner(pains, e, names[|names| - 1])]
  }

  /** The first problem is the one that event e stated. */
  ghost predicate FirstIsOf(m: Memory, e: Event) {
    && Inv(CFG, m) && e in m.state.transcript && m.state.confirmedHints == []
    && m.state.pains != [] && m.state.pains[0].Live() && m.state.pains[0].open
    && m.state.pains[0].category == DataMismatch && m.state.pains[0].key == e.id && e.id in m.state.pains[0].evidence
  }

  lemma {:induction false} HintCites(m: Memory, e: Event, names: seq<string>)
    requires FirstIsOf(m, e)
    ensures HintAccepted(CFG, m, OwnerHint(e.id, names))
    ensures LatestCited(m.state.transcript, [e.id]) == e
  {
    var found := EventById(m.state.transcript, e.id);
    SameEvent(m.state.transcript, found.value, e);
  }

  lemma {:induction false} HintNames(e: Event, names: seq<string>)
    ensures HintResult(CFG, OwnerHint(e.id, names), e) ==
            AnalysisResult([Detected(DataMismatch, e.id, e.id, true)], OwnersConfirmed(names, e.id))
  {
    assert HintFacts(OwnerHint(e.id, names), Some(e.id)) == OwnersConfirmed(names, e.id);
  }

  lemma {:induction false} HintDetects(m: Memory, e: Event)
    requires FirstIsOf(m, e)
    ensures var dp := Detected(DataMismatch, e.id, e.id, true);
            && DetectAll(m.state.pains, e.seqNo, [dp], true) ==
               Detection(m.state.pains, map[(DataMismatch, e.id) := e.id])
            && AmbiguousKeys(m.state.pains, [dp], e.seqNo) == {}
  {
    var dp := Detected(DataMismatch, e.id, e.id, true);
    assert [dp][..0] == [];
    assert m.state.pains[0].Owns(DataMismatch, e.id);
    assert FindOwner(m.state.pains, DataMismatch, e.id) == Some(0);
    assert m.state.pains[0 := m.state.pains[0]] == m.state.pains;
  }

  lemma {:induction false} OwnersRouted(pains: seq<Pain>, ctx: Context, e: Event, names: seq<string>)
    requires pains != [] && Candidate(pains[0], DataMismatch) && pains[0].HasKey(e.id)
    requires ctx.ambiguous == {} && ctx.resolved == map[(DataMismatch, e.id) := e.id]
    ensures RouteAll(pains, ctx, e.seqNo, e.id, OwnersConfirmed(names, e.id)) == HintedOwners(pains, e, names)
  {
    if names != [] {
      var pfs, front := OwnersConfirmed(names, e.id), names[..|names| - 1];
      OwnersRouted(pains, ctx, e, front);
      assert pfs[..|pfs| - 1] == OwnersConfirmed(front, e.id);
      assert Target(pains, ctx, pfs[|pfs| - 1]) == Some(0);
    }
  }

  lemma {:induction false} HintRoutesOwners(m: Memory, e: Event, names: seq<string>)
    requires FirstIsOf(m, e)
    ensures HintAccepted(CFG, m, OwnerHint(e.id, names))
    ensures HintRoutes(CFG, m, OwnerHint(e.id, names)) == HintedOwners(m.state.pains, e, names)
    ensures HintPains(CFG, m, OwnerHint(e.id, names)) == m.state.pains
  {
    HintCites(m, e, names);
    HintNames(e, names);
    HintDetects(m, e);
    var resolved := map[(DataMismatch, e.id) := e.id];
    var ctx := Context({}, resolved, OwnerCategory(m.state.pains, OwnersConfirmed(names, e.id)));
    OwnersRouted(m.state.pains, ctx, e, names);
  }

  lemma {:induction false} ConfirmOwners(m: Memory, e: Event, names: seq<string>)
    requires FirstIsOf(m, e)
    ensures var after := Step(CFG, m, ConfirmOp(OwnerHint(e.id, names))).state;
            && after.pains == m.state.pains
            && after.facts == AbsorbAll(m.state.facts, HintedOwners(m.state.pains, e, names))
  {
    HintRoutesOwners(m, e, names);
  }

  lemma {:induction false} ConfirmOwner(m: Memory, e: Event, name: string)
    requires FirstIsOf(m, e)
    ensures var after := Step(CFG, m, ConfirmOp(OwnerHint(e.id, [name]))).state;
            after.pains == m.state.pains && after.facts == Absorb(m.state.facts, HintedOwner(m.state.pains, e, name))
  {
    var r := HintedOwner(m.state.pains, e, name);
    ConfirmOwners(m, e, [name]);
    assert [name][..0] == [] && [r][..0] == [];
    assert HintedOwners(m.state.pains, e, [name]) == [r];
    assert AbsorbAll(m.state.facts, [r]) == Absorb(m.state.facts, r);
  }
}
