/** The invariant of the engine, kept by every operation in any order, and how two successive states relate. */
module Invariants {
  import opened Contracts
  import opened Sequences
  import opened Templates
  import opened Analyzer
  import opened Reducer
  import opened Identity
  import opened Facts
  import opened GapLaws
  import opened Engine
  import opened EngineLaws
  import opened HearLaws

  ghost predicate PainsTraced(pains: seq<Pain>, events: set<string>) {
    forall p | p in pains :: p.evidence != [] && forall e | e in p.evidence :: e in events
  }

  function EventIds(transcript: seq<Event>): set<string> {
    set e | e in transcript :: e.id
  }

  predicate DistinctEvents(transcript: seq<Event>) {
    forall i, j | 0 <= i < j < |transcript| :: transcript[i].id != transcript[j].id
  }

  /** One gap of the table, against the problems and facts it summarizes. */
  ghost predicate GapMatches(reg: Registry, st: MeetingState, id: GapId) {
    var now := PriorOf(st.gaps, id);
    && (now.Some? <==> Tracked(reg, st.pains, id))
    && (now.Some? ==> (now.value.answered <==> Answered(st.pains, st.facts, id)))
  }

  predicate DistinctGaps(gaps: seq<Gap>) {
    forall a, b | 0 <= a < b < |gaps| :: gaps[a].id != gaps[b].id
  }

  /** A recorded merge has retired one of its two problems; every decision is about two problems. */
  ghost predicate DecisionsRecorded(st: MeetingState) {
    forall d | d in st.decisions && d.action == Merge :: exists p :: p in st.pains && p.id in d.pains && !p.Live()
  }

  ghost predicate Inv(cfg: Config, m: Memory) {
    && IdentityInv(m.state.pains)
    && PainsTraced(m.state.pains, m.seen)
    && Traced(m.state.facts, PainIds(m.state.pains), m.seen)
    && m.seen == EventIds(m.state.transcript)
    && DistinctEvents(m.state.transcript)
    && (forall id :: GapMatches(cfg.registry, m.state, id))
    && DistinctGaps(m.state.gaps)
    && DecisionsRecorded(m.state)
  }

  /** Two states of one run: problems and facts keep their place, nothing is forgotten. */
  ghost predicate Evolves(a: MeetingState, b: MeetingState) {
    && PainsEvolve(a.pains, b.pains)
    && FactsEvolve(a.facts, b.facts)
    && a.transcript <= b.transcript
    && a.decisions <= b.decisions
    && a.version <= b.version
  }

  lemma EvolvesReflexive(a: MeetingState)
    ensures Evolves(a, a)
  {
  }

  lemma {:induction false} EvolvesTransitive(a: MeetingState, b: MeetingState, c: MeetingState)
    requires Evolves(a, b) && Evolves(b, c)
    ensures Evolves(a, c)
  {
    PainsEvolveTransitive(a.pains, b.pains, c.pains);
    FactsEvolveTransitive(a.facts, b.facts, c.facts);
  }

  lemma PainIdsGrow(a: seq<Pain>, b: seq<Pain>)
    requires PainsEvolve(a, b)
    ensures PainIds(a) <= PainIds(b)
  {
    forall id | id in PainIds(a) ensures id in PainIds(b) {
      var i :| 0 <= i < |a| && a[i].id == id;
      assert PainEvolves(a[i], b[i]);
      assert b[i] in b;
    }
  }

  lemma TracedMore(facts: seq<Fact>, a: set<PainId>, b: set<PainId>, x: set<string>, y: set<string>)
    requires Traced(facts, a, x) && a <= b && x <= y
    ensures Traced(facts, b, y)
  {
  }

  /** Publishing recomputes the gap table from the new problems and facts. */
  lemma {:induction false} PublishMatches(cfg: Config, st: MeetingState, pains: seq<Pain>, facts: seq<Fact>, lang: Lang)
    requires WellFormed(cfg.registry) && DistinctIds(pains)
    ensures forall id :: GapMatches(cfg.registry, Publish(cfg, st, pains, facts, lang), id)
    ensures DistinctGaps(Publish(cfg, st, pains, facts, lang).gaps)
  {
    forall id ensures GapMatches(cfg.registry, Publish(cfg, st, pains, facts, lang), id) {
      GapTable(cfg.registry, pains, facts, st.gaps, id);
    }
    GapIdsDistinct(cfg.registry, pains, facts, st.gaps, |pains|);
  }

  lemma {:induction false} DetectAllTraced(
    pains: seq<Pain>, seqNo: int, dps: seq<Detected>, allow: bool, events: set<string>)
    requires PainsTraced(pains, events) && forall dp | dp in dps :: dp.evidence in events
    ensures PainsTraced(DetectAll(pains, seqNo, dps, allow).pains, events)
  {
    if dps != [] {
      var front, dp := dps[..|dps| - 1], dps[|dps| - 1];
      assert dps == front + [dp];
      DetectAllTraced(pains, seqNo, front, allow, events);
      var d := DetectAll(pains, seqNo, front, allow);
      DetectTraced(d, seqNo, dp, allow, events);
    }
  }

  lemma DetectTraced(d: Detection, seqNo: int, dp: Detected, allow: bool, events: set<string>)
    requires PainsTraced(d.pains, events) && dp.evidence in events
    ensures PainsTraced(Detect(d, seqNo, dp, allow).pains, events)
  {
    var after := Detect(d, seqNo, dp, allow).pains;
    forall p | p in after ensures p.evidence != [] && forall e | e in p.evidence :: e in events {
      var i :| 0 <= i < |after| && after[i] == p;
      if i < |d.pains| {
        assert d.pains[i] in d.pains;
        assert dp.evidence in (d.pains[i].evidence + [dp.evidence]);
        assert p.evidence == [] ==> dp.evidence !in p.evidence;
      }
    }
  }

  lemma MergeTraced(pains: seq<Pain>, s: nat, m: nat, events: set<string>)
    requires PainsTraced(pains, events) && s < |pains| && m < |pains|
    ensures PainsTraced(MergeAt(pains, s, m), events)
  {
    var after := MergeAt(pains, s, m);
    assert pains[s] in pains && pains[m] in pains;
    assert pains[s].evidence[0] in pains[s].evidence + pains[m].evidence;
    forall p | p in after ensures p.evidence != [] && forall e | e in p.evidence :: e in events {
      var i :| 0 <= i < |after| && after[i] == p;
      assert pains[i] in pains;
    }
  }

  /** Retired problems stay, so recorded merges stay accounted for. */
  lemma DecisionsStay(a: MeetingState, b: MeetingState)
    requires DecisionsRecorded(a) && PainsEvolve(a.pains, b.pains) && a.decisions == b.decisions
    ensures DecisionsRecorded(b)
  {
    forall d | d in b.decisions && d.action == Merge
      ensures exists p :: p in b.pains && p.id in d.pains && !p.Live()
    {
      RetiredStays(a, b, d);
    }
  }

  lemma RetiredStays(a: MeetingState, b: MeetingState, d: Decision)
    requires PainsEvolve(a.pains, b.pains) && exists p :: p in a.pains && p.id in d.pains && !p.Live()
    ensures exists p :: p in b.pains && p.id in d.pains && !p.Live()
  {
    var p :| p in a.pains && p.id in d.pains && !p.Live();
    var i :| 0 <= i < |a.pains| && a.pains[i] == p;
    assert PainEvolves(a.pains[i], b.pains[i]);
    assert b.pains[i] in b.pains;
  }

  /* ---------- events ---------- */

  lemma {:induction false} HearFactsKeep(cfg: Config, m: Memory, e: Event)
    requires Inv(cfg, m) && Accepts(m, e)
    ensures FactsEvolve(m.state.facts, HearBoard(cfg, m.state, e).facts)
    ensures Traced(HearBoard(cfg, m.state, e).facts, PainIds(PainsAfter(cfg, m.state, e)), m.seen + {e.id})
  {
    var after := PainsAfter(cfg, m.state, e);
    HearNormalForm(cfg, m.state, e);
    HearSetup(cfg, m.state, e);
    HearRoutesIn(cfg, m.state, e);
    var rs := HearRoutes(cfg, m.state, e);
    AbsorbAllEvolves(m.state.facts, rs);
    PainIdsGrow(m.state.pains, after);
    TracedMore(m.state.facts, PainIds(m.state.pains), PainIds(after), m.seen, m.seen + {e.id});
    forall r | r in rs ensures r.pain in PainIds(after) && r.eventId in m.seen + {e.id} {
      assert RoutedIn(after, r);
    }
    AbsorbAllTraced(m.state.facts, rs, PainIds(after), m.seen + {e.id});
  }

  lemma {:induction false} HearPainsKeep(cfg: Config, m: Memory, e: Event)
    requires Inv(cfg, m) && Accepts(m, e)
    ensures HearBoard(cfg, m.state, e).pains == PainsAfter(cfg, m.state, e)
    ensures IdentityInv(PainsAfter(cfg, m.state, e)) && PainsEvolve(m.state.pains, PainsAfter(cfg, m.state, e))
    ensures PainsTraced(PainsAfter(cfg, m.state, e), m.seen + {e.id})
  {
    HearNormalForm(cfg, m.state, e);
    HearSetup(cfg, m.state, e);
    var result := Analyze(cfg.rules, e);
    DetectAllTraced(m.state.pains, e.seqNo, result.pains, cfg.allowPromotion, m.seen + {e.id});
  }

  lemma {:induction false} HearKeeps(cfg: Config, m: Memory, e: Event)
    requires WellFormed(cfg.registry) && Inv(cfg, m)
    ensures Inv(cfg, Hear(cfg, m, e)) && Evolves(m.state, Hear(cfg, m, e).state)
  {
    if Accepts(m, e) {
      var b := HearBoard(cfg, m.state, e);
      HearPainsKeep(cfg, m, e);
      HearFactsKeep(cfg, m, e);
      var st := m.state.(transcript := m.state.transcript + [e], lastSeq := e.seqNo);
      PublishMatches(cfg, st, b.pains, b.facts, e.lang);
      DecisionsStay(m.state, Hear(cfg, m, e).state);
      EventAppended(m.state.transcript, e);
    } else {
      EvolvesReflexive(m.state);
    }
  }

  lemma EventAppended(transcript: seq<Event>, e: Event)
    requires DistinctEvents(transcript) && e.id !in EventIds(transcript)
    ensures DistinctEvents(transcript + [e]) && EventIds(transcript + [e]) == EventIds(transcript) + {e.id}
  {
    forall i | 0 <= i < |transcript| ensures transcript[i].id != e.id {
      assert transcript[i] in transcript;
    }
    assert (transcript + [e])[|transcript|] == e;
  }

  /* ---------- decisions ---------- */

  lemma {:induction false} DecisionPainsKeep(
    pains: seq<Pain>, decisions: seq<Decision>, d: Decision, events: set<string>)
    requires IdentityInv(pains) && PainsTraced(pains, events) && ApplyDecision(pains, decisions, d).Ok?
    ensures PainsTraced(ApplyDecision(pains, decisions, d).value.pains, events)
    ensures PainIds(ApplyDecision(pains, decisions, d).value.pains) == PainIds(pains)
  {
    var merging := Merging(pains, decisions, d);
    if merging.Some? {
      MergeTraced(pains, merging.value.0, merging.value.1, events);
      MergePainIds(pains, merging.value.0, merging.value.1);
    }
  }

  lemma MergePainIds(pains: seq<Pain>, s: nat, m: nat)
    requires s < |pains| && m < |pains|
    ensures PainIds(MergeAt(pains, s, m)) == PainIds(pains)
  {
    var b := MergeAt(pains, s, m);
    forall id ensures id in PainIds(b) <==> id in PainIds(pains) {
      if id in PainIds(b) {
        var i :| 0 <= i < |b| && b[i].id == id;
        assert pains[i] in pains;
      }
      if id in PainIds(pains) {
        var i :| 0 <= i < |pains| && pains[i].id == id;
        assert b[i] in b;
      }
    }
  }

  lemma {:induction false} DecisionRecords(st: MeetingState, d: Decision)
    requires DecisionsRecorded(st) && IdentityInv(st.pains) && ApplyDecision(st.pains, st.decisions, d).Ok?
    ensures var after := ApplyDecision(st.pains, st.decisions, d).value;
            st.decisions <= after.decisions &&
            DecisionsRecorded(st.(pains := after.pains, decisions := after.decisions))
  {
    var after := ApplyDecision(st.pains, st.decisions, d).value;
    DecisionKeeps(st.pains, st.decisions, d);
    DecisionRecorded(st.pains, st.decisions, d);
    RetiredByDecision(st.pains, st.decisions, d);
    forall e | e in after.decisions && e.action == Merge
      ensures exists p :: p in after.pains && p.id in e.pains && !p.Live()
    {
      if e in st.decisions {
        RetiredStays(st, st.(pains := after.pains), e);
      } else {
        assert e.SameId(d);
      }
    }
  }

  lemma RetiredByDecision(pains: seq<Pain>, decisions: seq<Decision>, d: Decision)
    requires ApplyDecision(pains, decisions, d).Ok?
    ensures d.action == Merge && !Decided(decisions, d) ==>
            exists p :: p in ApplyDecision(pains, decisions, d).value.pains && p.id in d.pains && !p.Live()
  {
    var merging := Merging(pains, decisions, d);
    if merging.Some? {
      var (s, m) := merging.value;
      MergeLinks(pains, s, m);
      assert MergeAt(pains, s, m)[m] in MergeAt(pains, s, m);
    }
  }

  lemma {:induction false} DecideKeeps(
    cfg: Config, m: Memory, action: Action, ids: seq<PainId>, survivor: Option<PainId>)
    requires WellFormed(cfg.registry) && Inv(cfg, m) && Decide(cfg, m, action, ids, survivor).Ok?
    ensures Inv(cfg, Decide(cfg, m, action, ids, survivor).value)
    ensures Evolves(m.state, Decide(cfg, m, action, ids, survivor).value.state)
  {
    var d := DecisionOf(m.state, action, ids, survivor);
    var after := ApplyDecision(m.state.pains, m.state.decisions, d).value;
    DecisionKeeps(m.state.pains, m.state.decisions, d);
    DecisionPainsKeep(m.state.pains, m.state.decisions, d, m.seen);
    DecisionRecords(m.state, d);
    var st := m.state.(decisions := after.decisions);
    PublishMatches(cfg, st, after.pains, st.facts, LanguageOf(st.transcript));
  }

  /* ---------- hints ---------- */

  function HintRoutes(cfg: Config, m: Memory, hint: Hint): seq<Routed>
    requires HintAccepted(cfg, m, hint)
  {
    var e := LatestCited(m.state.transcript, hint.evidence);
    Routes(m.state.pains, e.seqNo, e.id, HintResult(cfg, hint, e), true)
  }

  function HintPains(cfg: Config, m: Memory, hint: Hint): seq<Pain>
    requires HintAccepted(cfg, m, hint)
  {
    var e := LatestCited(m.state.transcript, hint.evidence);
    DetectAll(m.state.pains, e.seqNo, HintResult(cfg, hint, e).pains, true).pains
  }

  lemma {:induction false} HintRoutesIn(cfg: Config, m: Memory, hint: Hint)
    requires HintAccepted(cfg, m, hint)
    ensures forall r | r in HintRoutes(cfg, m, hint) ::
              RoutedIn(HintPains(cfg, m, hint), r) && r.eventId in EventIds(m.state.transcript)
  {
    var e := LatestCited(m.state.transcript, hint.evidence);
    var result := HintResult(cfg, hint, e);
    var d := DetectAll(m.state.pains, e.seqNo, result.pains, true);
    RouteAllIn(d.pains, ContextOf(m.state.pains, d, e.seqNo, result, true), e.seqNo, e.id, result.facts);
    forall r | r in HintRoutes(cfg, m, hint) ensures r.eventId in EventIds(m.state.transcript) {
      assert StampedBy(r, e.seqNo, e.id, result.facts);
    }
  }

  lemma {:induction false} HintBoardKeeps(cfg: Config, m: Memory, hint: Hint)
    requires Inv(cfg, m) && HintAccepted(cfg, m, hint)
    ensures IdentityInv(HintPains(cfg, m, hint)) && PainsEvolve(m.state.pains, HintPains(cfg, m, hint))
    ensures PainsTraced(HintPains(cfg, m, hint), m.seen)
    ensures FactsEvolve(m.state.facts, AbsorbAll(m.state.facts, HintRoutes(cfg, m, hint)))
    ensures Traced(AbsorbAll(m.state.facts, HintRoutes(cfg, m, hint)), PainIds(HintPains(cfg, m, hint)), m.seen)
  {
    var e := LatestCited(m.state.transcript, hint.evidence);
    var result, after, rs := HintResult(cfg, hint, e), HintPains(cfg, m, hint), HintRoutes(cfg, m, hint);
    DetectAllKeeps(m.state.pains, e.seqNo, result.pains, true);
    assert hint.evidence[0] in hint.evidence;
    DetectAllTraced(m.state.pains, e.seqNo, result.pains, true, m.seen);
    AbsorbAllEvolves(m.state.facts, rs);
    HintRoutesIn(cfg, m, hint);
    PainIdsGrow(m.state.pains, after);
    TracedMore(m.state.facts, PainIds(m.state.pains), PainIds(after), m.seen, m.seen);
    forall r | r in rs ensures r.pain in PainIds(after) {
      assert RoutedIn(after, r);
    }
    AbsorbAllTraced(m.state.facts, rs, PainIds(after), m.seen);
  }

  lemma {:induction false} ConfirmKeeps(cfg: Config, m: Memory, hint: Hint)
    requires WellFormed(cfg.registry) && Inv(cfg, m) && Confirm(cfg, m, hint).Ok?
    ensures Inv(cfg, Confirm(cfg, m, hint).value) && Evolves(m.state, Confirm(cfg, m, hint).value.state)
  {
    if HintAccepted(cfg, m, hint) {
      var e := LatestCited(m.state.transcript, hint.evidence);
      HintBoardKeeps(cfg, m, hint);
      var st := m.state.(confirmedHints := m.state.confirmedHints + [hint.id]);
      var pains, facts := HintPains(cfg, m, hint), AbsorbAll(m.state.facts, HintRoutes(cfg, m, hint));
      PublishMatches(cfg, st, pains, facts, e.lang);
      DecisionsStay(m.state, Confirm(cfg, m, hint).value.state);
    } else {
      EvolvesReflexive(m.state);
    }
  }

  lemma {:induction false} FreshInv(cfg: Config)
    ensures Inv(cfg, FRESH)
  {
  }
}
