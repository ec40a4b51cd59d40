/** Where the facts of the log come from: the statements of an event and its context, or of a hint's latest event. */
module Statements {
  import opened Contracts
  import opened Sequences
  import opened Templates
  import opened Analyzer
  import opened Reducer
  import opened Identity
  import opened Engine
  import opened EngineLaws
  import opened HearLaws
  import opened Invariants
  import opened Runs

  /** The fact says what some of the routed statements says, under its number and with its event as first evidence. */
  ghost predicate StatedBy(f: Fact, rs: seq<Routed>) {
    exists r :: r in rs && SaysWhat(f, r)
  }

  predicate SaysWhat(f: Fact, r: Routed) {
    && f.pain == r.pain && f.slot == r.pf.slot && f.value == r.pf.value && f.kind == r.pf.kind
    && f.origin == r.pf.origin && f.createdSeq == r.seqNo && f.evidence != [] && f.evidence[0] == r.eventId
  }

  predicate FromEvent(evidence: string, rs: seq<Routed>) {
    exists r :: r in rs && r.eventId == evidence
  }

  /** New facts say what was stated, and evidence is gained from the stating events alone. */
  ghost predicate Grows(before: seq<Fact>, after: seq<Fact>, rs: seq<Routed>) {
    && |before| <= |after|
    && (forall n | |before| <= n < |after| ::
          StatedBy(after[n], rs) && forall x | x in after[n].evidence :: FromEvent(x, rs))
    && (forall n | 0 <= n < |before| ::
          forall x | x in after[n].evidence && x !in before[n].evidence :: FromEvent(x, rs))
  }

  lemma {:induction false} AbsorbAllGrows(facts: seq<Fact>, rs: seq<Routed>)
    ensures Grows(facts, AbsorbAll(facts, rs), rs)
  {
    if rs != [] {
      var front, r := rs[..|rs| - 1], rs[|rs| - 1];
      assert rs == front + [r];
      AbsorbAllGrows(facts, front);
      var before, after := AbsorbAll(facts, front), AbsorbAll(facts, rs);
      AbsorbGrows(before, r);
      forall n | |facts| <= n < |after|
        ensures StatedBy(after[n], rs) && forall x | x in after[n].evidence :: FromEvent(x, rs)
      {
        if n < |before| {
          assert StatedBy(before[n], front) && SameStatement(before[n], after[n], r.eventId);
          StillStated(before[n], after[n], front, r);
        } else {
          assert r in rs && SaysWhat(after[n], r);
        }
      }
      forall n, x | 0 <= n < |facts| && x in after[n].evidence && x !in facts[n].evidence ensures FromEvent(x, rs) {
        assert SameStatement(before[n], after[n], r.eventId);
        assert x in before[n].evidence ==> FromEvent(x, front);
        StillFrom(x, front, r);
      }
    }
  }

  lemma StillFrom(x: string, front: seq<Routed>, r: Routed)
    requires FromEvent(x, front) || x == r.eventId
    ensures FromEvent(x, front + [r])
  {
    assert (front + [r])[|front|] == r;
    if FromEvent(x, front) {
      var q :| q in front && q.eventId == x;
      assert q in front + [r];
    }
  }

  lemma StillStated(f: Fact, g: Fact, front: seq<Routed>, r: Routed)
    requires StatedBy(f, front) && SameStatement(f, g, r.eventId) && forall x | x in f.evidence :: FromEvent(x, front)
    ensures StatedBy(g, front + [r]) && forall x | x in g.evidence :: FromEvent(x, front + [r])
  {
    var q :| q in front && SaysWhat(f, q);
    assert q in front + [r] && SaysWhat(g, q);
    forall x | x in g.evidence ensures FromEvent(x, front + [r]) {
      StillFrom(x, front, r);
    }
  }

  /** One statement: at most one new fact, which says it; other facts keep what they say. */
  lemma AbsorbGrows(facts: seq<Fact>, r: Routed)
    ensures var after := Absorb(facts, r);
            && |facts| <= |after|
            && (forall n | |facts| <= n < |after| :: SaysWhat(after[n], r) && after[n].evidence == [r.eventId])
            && (forall n | 0 <= n < |facts| :: SameStatement(facts[n], after[n], r.eventId))
  {
    var found := FirstActive(facts, r.lineage, r.pf.slot);
    if found.Some? {
      MeetSays(facts[found.value], r);
    }
  }

  /** Same statement, with at most this event as new evidence, added at the end. */
  predicate SameStatement(f: Fact, g: Fact, eventId: string) {
    && f.pain == g.pain && f.slot == g.slot && f.value == g.value && f.kind == g.kind && f.origin == g.origin
    && f.createdSeq == g.createdSeq && (f.evidence != [] ==> g.evidence != [] && g.evidence[0] == f.evidence[0])
    && forall x | x in g.evidence :: x in f.evidence || x == eventId
  }

  lemma MeetSays(active: Fact, r: Routed)
    ensures SameStatement(active, Meet(active, r).0, r.eventId)
    ensures forall f | f in Meet(active, r).1 :: SaysWhat(f, r) && f.evidence == [r.eventId]
  {
    DedupeFirst(active.evidence, r.eventId);
  }

  lemma {:induction false} DedupeFirst(s: seq<string>, x: string)
    ensures s != [] ==> Dedupe(s + [x]) != [] && Dedupe(s + [x])[0] == s[0]
    decreases |s|
  {
    if s != [] {
      assert (s + [x])[..|s|] == s;
      if |s| > 1 {
        DedupeFirst(s[..|s| - 1], s[|s| - 1]);
        assert s == s[..|s| - 1] + [s[|s| - 1]];
      } else {
        assert s[..0] == [];
      }
    }
  }

  /* ---------- the event that a hint cites ---------- */

  /** The events with this id have numbers up to n, or less than n. */
  ghost predicate NotAfter(transcript: seq<Event>, id: string, n: int, strict: bool) {
    forall s | s in transcript && s.id == id :: s.seqNo <= n && (strict ==> s.seqNo < n)
  }

  ghost predicate LatestAt(transcript: seq<Event>, ids: seq<string>, t: Event, p: nat) {
    && p < |ids| && t in transcript && t.id == ids[p]
    && forall q | 0 <= q < |ids| :: NotAfter(transcript, ids[q], t.seqNo, q < p)
  }

  /** t is cited, no cited event has a greater number, and those cited before it have smaller ones. */
  ghost predicate LatestAmong(transcript: seq<Event>, ids: seq<string>, t: Event) {
    exists p: nat :: LatestAt(transcript, ids, t, p)
  }

  lemma {:induction false} LatestCitedIsLatest(transcript: seq<Event>, ids: seq<string>)
    requires DistinctEvents(transcript) && Supported(transcript, ids)
    ensures LatestAmong(transcript, ids, LatestCited(transcript, ids))
  {
    var n := |ids| - 1;
    var last := EventById(transcript, ids[n]).value;
    CitedOnce(transcript, last);
    if n == 0 {
      assert LatestAt(transcript, ids, last, 0);
    } else {
      assert forall q | 0 <= q < n :: ids[..n][q] in ids;
      LatestCitedIsLatest(transcript, ids[..n]);
      var before := LatestCited(transcript, ids[..n]);
      var p: nat :| LatestAt(transcript, ids[..n], before, p);
      LatestOfTwo(transcript, ids, before, p, last);
    }
  }

  lemma CitedOnce(transcript: seq<Event>, t: Event)
    requires DistinctEvents(transcript) && t in transcript
    ensures NotAfter(transcript, t.id, t.seqNo, false)
  {
    forall s | s in transcript && s.id == t.id ensures s == t {
      SameEventId(transcript, s, t);
    }
  }

  lemma LatestOfTwo(transcript: seq<Event>, ids: seq<string>, before: Event, p: nat, last: Event)
    requires |ids| > 1 && LatestAt(transcript, ids[..|ids| - 1], before, p)
    requires last in transcript && last.id == ids[|ids| - 1] && NotAfter(transcript, last.id, last.seqNo, false)
    ensures LatestAmong(transcript, ids, if last.seqNo > before.seqNo then last else before)
  {
    var n := |ids| - 1;
    forall q | 0 <= q < n ensures NotAfter(transcript, ids[q], before.seqNo, q < p) {
      assert ids[..n][q] == ids[q];
    }
    if last.seqNo > before.seqNo {
      assert LatestAt(transcript, ids, last, n);
    } else {
      assert NotAfter(transcript, ids[n], before.seqNo, false);
      assert LatestAt(transcript, ids, before, p);
    }
  }

  lemma SameEventId(transcript: seq<Event>, s: Event, t: Event)
    requires DistinctEvents(transcript) && s in transcript && t in transcript && s.id == t.id
    ensures s == t
  {
    var i :| 0 <= i < |transcript| && transcript[i] == s;
    var j :| 0 <= j < |transcript| && transcript[j] == t;
  }

  lemma LatestUnique(transcript: seq<Event>, ids: seq<string>, s: Event, t: Event)
    requires DistinctEvents(transcript) && LatestAmong(transcript, ids, s) && LatestAmong(transcript, ids, t)
    ensures s == t
  {
    var p: nat :| LatestAt(transcript, ids, s, p);
    var q: nat :| LatestAt(transcript, ids, t, q);
    assert NotAfter(transcript, ids[q], s.seqNo, q < p) && NotAfter(transcript, ids[p], t.seqNo, p < q);
    SameEventId(transcript, s, t);
  }

  /** A fact of this hint, stated as if by event t. */
  predicate HintSays(hint: Hint, t: Event, f: Fact) {
    && f.pain.category == hint.category && f.createdSeq == t.seqNo && f.evidence == [t.id]
    && f.origin == SemanticConfirmed
    && exists h :: h in hint.facts && h.slot == f.slot && h.value == f.value && h.kind == f.kind
  }

  /** New facts are statements of the hint as if by event t, and no other evidence than t is gained. */
  predicate GrowsByHint(hint: Hint, t: Event, before: seq<Fact>, after: seq<Fact>) {
    && |before| <= |after|
    && (forall n | |before| <= n < |after| :: HintSays(hint, t, after[n]))
    && (forall n | 0 <= n < |before| :: forall x | x in after[n].evidence && x !in before[n].evidence :: x == t.id)
  }

  /**
    An accepted hint speaks for the latest event it cites, the first cited one on ties: every fact it adds has the
    number of that event and its id as evidence, and no other evidence is gained.
   */
  lemma {:induction false} HintSpeaksForLatest(cfg: Config, ops: seq<Op>, hint: Hint)
    requires WellFormed(cfg.registry) && HintAccepted(cfg, Run(cfg, ops), hint)
    ensures exists t :: LatestAmong(Run(cfg, ops).state.transcript, hint.evidence, t) &&
              GrowsByHint(hint, t, Run(cfg, ops).state.facts, Run(cfg, ops + [ConfirmOp(hint)]).state.facts)
  {
    var m := Run(cfg, ops);
    assert Run(cfg, ops + [ConfirmOp(hint)]).state.facts == AbsorbAll(m.state.facts, HintRoutes(cfg, m, hint)) by {
      assert (ops + [ConfirmOp(hint)])[..|ops|] == ops;
    }
    Reachable(cfg, ops);
    LatestCitedIsLatest(m.state.transcript, hint.evidence);
    HintRoutesGrow(cfg, m, hint);
  }

  lemma {:induction false} HintRoutesGrow(cfg: Config, m: Memory, hint: Hint)
    requires Inv(cfg, m) && HintAccepted(cfg, m, hint)
    ensures GrowsByHint(hint, LatestCited(m.state.transcript, hint.evidence), m.state.facts,
                        AbsorbAll(m.state.facts, HintRoutes(cfg, m, hint)))
  {
    var rs, t := HintRoutes(cfg, m, hint), LatestCited(m.state.transcript, hint.evidence);
    var after := AbsorbAll(m.state.facts, rs);
    AbsorbAllGrows(m.state.facts, rs);
    HintRoutesSay(cfg, m, hint);
    forall n, x | 0 <= n < |m.state.facts| && x in after[n].evidence && x !in m.state.facts[n].evidence
      ensures x == t.id
    {
      assert FromEvent(x, rs);
    }
    AbsorbAllOneEvidence(m.state.facts, rs, t.id);
    forall n | |m.state.facts| <= n < |after| ensures HintSays(hint, t, after[n]) {
      var r :| r in rs && SaysWhat(after[n], r);
    }
  }

  lemma {:induction false} AbsorbAllOneEvidence(facts: seq<Fact>, rs: seq<Routed>, eventId: string)
    requires forall r | r in rs :: r.eventId == eventId
    ensures |facts| <= |AbsorbAll(facts, rs)|
    ensures forall n | |facts| <= n < |AbsorbAll(facts, rs)| :: AbsorbAll(facts, rs)[n].evidence == [eventId]
  {
    if rs != [] {
      AbsorbAllOneEvidence(facts, rs[..|rs| - 1], eventId);
      assert rs[|rs| - 1] in rs;
      AbsorbOneEvidence(AbsorbAll(facts, rs[..|rs| - 1]), rs[|rs| - 1]);
    }
  }

  lemma AbsorbOneEvidence(facts: seq<Fact>, r: Routed)
    ensures |facts| <= |Absorb(facts, r)|
    ensures forall n | |facts| <= n < |Absorb(facts, r)| :: Absorb(facts, r)[n].evidence == [r.eventId]
    ensures forall n | 0 <= n < |facts| && facts[n].evidence == [r.eventId] ::
              Absorb(facts, r)[n].evidence == [r.eventId]
  {
    var found := FirstActive(facts, r.lineage, r.pf.slot);
    if found.Some? {
      MeetSays(facts[found.value], r);
      if facts[found.value].evidence == [r.eventId] {
        MeetOneEvidence(facts[found.value], r);
      }
    }
  }

  lemma MeetOneEvidence(active: Fact, r: Routed)
    requires active.evidence == [r.eventId]
    ensures Meet(active, r).0.evidence == [r.eventId]
  {
    assert ([r.eventId] + [r.eventId])[..1] == [r.eventId];
    assert Dedupe([r.eventId]) == [r.eventId];
    assert Dedupe([r.eventId] + [r.eventId]) == [r.eventId];
  }

  lemma {:induction false} HintRoutesSay(cfg: Config, m: Memory, hint: Hint)
    requires Inv(cfg, m) && HintAccepted(cfg, m, hint)
    ensures forall r | r in HintRoutes(cfg, m, hint) ::
              var t := LatestCited(m.state.transcript, hint.evidence);
              && r.seqNo == t.seqNo && r.eventId == t.id && r.pf.origin == SemanticConfirmed
              && r.pain.category == hint.category
              && exists h :: h in hint.facts && h.slot == r.pf.slot && h.value == r.pf.value && h.kind == r.pf.kind
  {
    var t := LatestCited(m.state.transcript, hint.evidence);
    var result := HintResult(cfg, hint, t);
    var d := DetectAll(m.state.pains, t.seqNo, result.pains, true);
    HintBoardKeeps(cfg, m, hint);
    RouteAllIn(d.pains, ContextOf(m.state.pains, d, t.seqNo, result, true), t.seqNo, t.id, result.facts);
    forall r | r in HintRoutes(cfg, m, hint)
      ensures r.seqNo == t.seqNo && r.eventId == t.id && r.pf.origin == SemanticConfirmed
      ensures r.pain.category == hint.category
      ensures exists h :: h in hint.facts && h.slot == r.pf.slot && h.value == r.pf.value && h.kind == r.pf.kind
    {
      assert StampedBy(r, t.seqNo, t.id, result.facts) && RoutedIn(d.pains, r);
      RoutedCategory(d.pains, r);
      var i :| 0 <= i < |result.facts| && result.facts[i] == r.pf;
      assert hint.facts[i] in hint.facts;
    }
  }

  /* ---------- the statements of an event ---------- */

  /** The fact says what event t states for its category and slot. */
  ghost predicate EventSays(rules: Rules, t: Event, f: Fact) {
    && f.createdSeq == t.seqNo && f.evidence != [] && f.evidence[0] == t.id
    && t.isFinal
    && exists pf :: pf in rules.extract(t).facts && pf.category == f.pain.category && pf.slot == f.slot &&
                    pf.value == f.value && pf.kind == f.kind && pf.origin == f.origin
  }

  ghost predicate RouteSays(rules: Rules, t: Event, r: Routed) {
    && r.seqNo == t.seqNo && r.eventId == t.id
    && exists pf :: pf in Analyze(rules, t).facts && r.pf == pf.(key := r.pf.key)
  }

  lemma {:induction false} RelevantSays(pains: seq<Pain>, newIds: set<PainId>, pfs: seq<Proposed>)
    ensures forall x | x in Relevant(pains, newIds, pfs) :: exists pf :: pf in pfs && x == pf.(key := x.key)
  {
    if pfs != [] {
      var front, pf := pfs[..|pfs| - 1], pfs[|pfs| - 1];
      assert pfs == front + [pf];
      RelevantSays(pains, newIds, front);
    }
  }

  lemma {:induction false} ReplaySays(rules: Rules, pains: seq<Pain>, newIds: set<PainId>, events: seq<Event>)
    ensures forall r | r in ReplayRoutes(rules, pains, newIds, events) ::
              exists t :: t in events && RouteSays(rules, t, r)
  {
    if events != [] {
      var front, t := events[..|events| - 1], events[|events| - 1];
      assert events == front + [t];
      ReplaySays(rules, pains, newIds, front);
      var pfs := Analyze(rules, t).facts;
      var relevant := Relevant(pains, newIds, pfs);
      RelevantSays(pains, newIds, pfs);
      RouteAllIn(pains, ReplayContext(pains, relevant), t.seqNo, t.id, relevant);
      forall r | r in ReplayOneRoutes(rules, pains, newIds, t) ensures RouteSays(rules, t, r) {
        assert StampedBy(r, t.seqNo, t.id, relevant);
      }
      forall r | r in ReplayRoutes(rules, pains, newIds, events)
        ensures exists t :: t in events && RouteSays(rules, t, r)
      {
        if r in ReplayOneRoutes(rules, pains, newIds, t) {
          assert t in events && RouteSays(rules, t, r);
        } else {
          assert r in ReplayRoutes(rules, pains, newIds, front);
          var s :| s in front && RouteSays(rules, s, r);
          assert s in events;
        }
      }
    }
  }

  /** t is the accepted event or one of its context. */
  predicate Heard(st: MeetingState, e: Event, t: Event) {
    t == e || t in ContextOfLast(st.transcript + [e])
  }

  lemma {:induction false} HearRoutesSay(cfg: Config, st: MeetingState, e: Event)
    requires IdentityInv(st.pains)
    ensures forall r | r in HearRoutes(cfg, st, e) :: exists t :: Heard(st, e, t) && RouteSays(cfg.rules, t, r)
  {
    HearSetup(cfg, st, e);
    ReplaySays(cfg.rules, PainsAfter(cfg, st, e), Created(cfg, st, e), ContextOfLast(st.transcript + [e]));
    forall r | r in HearRoutes(cfg, st, e) ensures exists t :: Heard(st, e, t) && RouteSays(cfg.rules, t, r) {
      if r in FirstRoutes(cfg, st, e) {
        assert StampedBy(r, e.seqNo, e.id, Analyze(cfg.rules, e).facts);
        assert r.pf == r.pf.(key := r.pf.key);
        assert Heard(st, e, e) && RouteSays(cfg.rules, e, r);
      } else {
        var t :| t in ContextOfLast(st.transcript + [e]) && RouteSays(cfg.rules, t, r);
        assert Heard(st, e, t);
      }
    }
  }

  /** Some heard event says what the fact says. */
  ghost predicate SaidBySome(rules: Rules, st: MeetingState, e: Event, f: Fact) {
    exists t :: Heard(st, e, t) && EventSays(rules, t, f)
  }

  /** New facts say what some heard event says, and evidence is gained from heard events alone. */
  ghost predicate GrowsByHeard(rules: Rules, st: MeetingState, e: Event, before: seq<Fact>, after: seq<Fact>) {
    && |before| <= |after|
    && (forall n | |before| <= n < |after| :: SaidBySome(rules, st, e, after[n]))
    && (forall n, x | 0 <= n < |before| && x in after[n].evidence && x !in before[n].evidence ::
          exists t :: Heard(st, e, t) && t.id == x)
  }

  /**
    Every fact an accepted event adds says, word for word, what the event or one of its context says, and all evidence
    gained is of those events.
   */
  lemma {:induction false} EventFactsAreStated(cfg: Config, ops: seq<Op>, e: Event)
    requires WellFormed(cfg.registry) && Accepts(Run(cfg, ops), e)
    ensures GrowsByHeard(cfg.rules, Run(cfg, ops).state, e, Run(cfg, ops).state.facts,
                         Run(cfg, ops + [HearOp(e)]).state.facts)
  {
    var st := Run(cfg, ops).state;
    assert Run(cfg, ops + [HearOp(e)]).state.facts == AbsorbAll(st.facts, HearRoutes(cfg, st, e)) by {
      assert (ops + [HearOp(e)])[..|ops|] == ops;
      Reachable(cfg, ops);
      HearNormalForm(cfg, st, e);
    }
    assert IdentityInv(st.pains) by {
      Reachable(cfg, ops);
    }
    RoutesAreHeard(cfg, st, e);
  }

  lemma {:induction false} RoutesAreHeard(cfg: Config, st: MeetingState, e: Event)
    requires IdentityInv(st.pains)
    ensures GrowsByHeard(cfg.rules, st, e, st.facts, AbsorbAll(st.facts, HearRoutes(cfg, st, e)))
  {
    var rs := HearRoutes(cfg, st, e);
    AbsorbAllGrows(st.facts, rs);
    forall f | StatedBy(f, rs) ensures SaidBySome(cfg.rules, st, e, f) {
      var r :| r in rs && SaysWhat(f, r);
      RouteIsSaid(cfg, st, e, r, f);
    }
    forall x | FromEvent(x, rs) ensures exists t :: Heard(st, e, t) && t.id == x {
      HearRoutesSay(cfg, st, e);
    }
    HeardGrow(cfg.rules, st, e, rs, AbsorbAll(st.facts, rs));
  }

  lemma HeardGrow(rules: Rules, st: MeetingState, e: Event, rs: seq<Routed>, after: seq<Fact>)
    requires Grows(st.facts, after, rs)
    requires forall f | StatedBy(f, rs) :: SaidBySome(rules, st, e, f)
    requires forall x | FromEvent(x, rs) :: exists t :: Heard(st, e, t) && t.id == x
    ensures GrowsByHeard(rules, st, e, st.facts, after)
  {
    forall n, x | 0 <= n < |st.facts| && x in after[n].evidence && x !in st.facts[n].evidence
      ensures exists t :: Heard(st, e, t) && t.id == x
    {
      assert FromEvent(x, rs);
    }
  }

  /** What the analyzer proposes is what the rules extract, up to the key. */
  lemma RulesSay(rules: Rules, t: Event, r: Routed, f: Fact)
    requires RouteSays(rules, t, r) && SaysWhat(f, r) && r.pain.category == r.pf.category
    ensures EventSays(rules, t, f)
  {
    var facts, raw := Analyze(rules, t).facts, rules.extract(t).facts;
    var pf :| pf in facts && r.pf == pf.(key := r.pf.key);
    var i :| 0 <= i < |facts| && facts[i] == pf;
    assert raw[i] in raw;
  }

  lemma {:induction false} RouteIsSaid(cfg: Config, st: MeetingState, e: Event, r: Routed, f: Fact)
    requires IdentityInv(st.pains) && r in HearRoutes(cfg, st, e) && SaysWhat(f, r)
    ensures SaidBySome(cfg.rules, st, e, f)
  {
    HearSetup(cfg, st, e);
    HearRoutesIn(cfg, st, e);
    RoutedCategory(PainsAfter(cfg, st, e), r);
    HearRoutesSay(cfg, st, e);
    var t :| Heard(st, e, t) && RouteSays(cfg.rules, t, r);
    RulesSay(cfg.rules, t, r, f);
  }
}
