/** What one accepted event does: its normal form, the isolation of its backfill, and the links it leaves. */
module HearLaws {
  import opened Contracts
  import opened Sequences
  import opened Analyzer
  import opened Reducer
  import opened Identity
  import opened Facts
  import opened FactLinks
  import opened GapLaws
  import opened Engine
  import opened EngineLaws

  /** The board after the event's own analysis, before any backfill. */
  function FirstBoard(cfg: Config, st: MeetingState, e: Event): Board {
    ReduceAnalysis(Board(st.pains, st.facts), e.seqNo, e.id, Analyze(cfg.rules, e), cfg.allowPromotion)
  }

  function FirstRoutes(cfg: Config, st: MeetingState, e: Event): seq<Routed> {
    Routes(st.pains, e.seqNo, e.id, Analyze(cfg.rules, e), cfg.allowPromotion)
  }

  function PainsAfter(cfg: Config, st: MeetingState, e: Event): seq<Pain> {
    DetectAll(st.pains, e.seqNo, Analyze(cfg.rules, e).pains, cfg.allowPromotion).pains
  }

  /** The problems that this event creates without ambiguity. */
  function Created(cfg: Config, st: MeetingState, e: Event): set<PainId> {
    NewIds(st.pains, PainsAfter(cfg, st, e), e.seqNo, Ambiguous(cfg, st.pains, e))
  }

  function Replayed(cfg: Config, st: MeetingState, e: Event): seq<Routed> {
    ReplayRoutes(cfg.rules, PainsAfter(cfg, st, e), Created(cfg, st, e), ContextOfLast(st.transcript + [e]))
  }

  function HearRoutes(cfg: Config, st: MeetingState, e: Event): seq<Routed> {
    if Created(cfg, st, e) == {} then FirstRoutes(cfg, st, e)
    else RestrictRoutes(FirstRoutes(cfg, st, e), Created(cfg, st, e), false) + Replayed(cfg, st, e)
  }

  /** Facts name known problems. */
  ghost predicate FactsPlaced(st: MeetingState) {
    forall f | f in st.facts :: f.pain in PainIds(st.pains)
  }

  lemma {:induction false} CreatedAreNew(
    prior: seq<Pain>, after: seq<Pain>, seqNo: int, ambiguous: set<(Category, string)>)
    requires IdentityInv(prior) && LinksUnchanged(prior, after)
    ensures NewIds(prior, after, seqNo, ambiguous) !! PainIds(prior)
    ensures Childless(after, NewIds(prior, after, seqNo, ambiguous))
  {
    var ids := NewIds(prior, after, seqNo, ambiguous);
    forall i | 0 <= i < |after| && after[i].mergedInto.Some? ensures after[i].mergedInto.value !in ids {
      assert LinkCovered(prior, i);
      var j :| 0 <= j < |prior| && prior[j].id == prior[i].mergedInto.value && Covers(prior[j], prior[i]);
      assert prior[j] in prior;
    }
  }

  lemma RoutesUncut(prior: seq<Pain>, after: seq<Pain>, ids: set<PainId>, r: Routed)
    requires LinksUnchanged(prior, after) && Childless(after, ids) && ids !! PainIds(prior) && RoutedIn(after, r)
    ensures Uncut(r, ids)
  {
    InLineage(after, r.pain, r.pain);
    forall x | x in r.lineage ensures (x in ids) == (r.pain in ids) {
      InLineage(after, r.pain, x);
      if x != r.pain {
        var i :| 0 <= i < |after| && after[i].id == x && after[i].mergedInto == Some(r.pain);
        assert prior[i] in prior;
      }
    }
  }

  /** Everything the later proofs need to know about one event. */
  lemma {:induction false} HearSetup(cfg: Config, st: MeetingState, e: Event)
    requires IdentityInv(st.pains)
    ensures IdentityInv(PainsAfter(cfg, st, e)) && PainsEvolve(st.pains, PainsAfter(cfg, st, e))
    ensures LinksUnchanged(st.pains, PainsAfter(cfg, st, e))
    ensures Created(cfg, st, e) !! PainIds(st.pains) && Childless(PainsAfter(cfg, st, e), Created(cfg, st, e))
    ensures forall r | r in FirstRoutes(cfg, st, e) ::
              RoutedIn(PainsAfter(cfg, st, e), r) && StampedBy(r, e.seqNo, e.id, Analyze(cfg.rules, e).facts) &&
              Uncut(r, Created(cfg, st, e))
  {
    var result, after := Analyze(cfg.rules, e), PainsAfter(cfg, st, e);
    DetectAllKeeps(st.pains, e.seqNo, result.pains, cfg.allowPromotion);
    DetectAllLinks(st.pains, e.seqNo, result.pains, cfg.allowPromotion);
    CreatedAreNew(st.pains, after, e.seqNo, Ambiguous(cfg, st.pains, e));
    var d := DetectAll(st.pains, e.seqNo, result.pains, cfg.allowPromotion);
    RouteAllIn(after, ContextOf(st.pains, d, e.seqNo, result, cfg.allowPromotion), e.seqNo, e.id, result.facts);
    forall r | r in FirstRoutes(cfg, st, e) ensures Uncut(r, Created(cfg, st, e)) {
      RoutesUncut(st.pains, after, Created(cfg, st, e), r);
    }
  }

  /** The deleted facts leave no trace: an event absorbs HearRoutes, and nothing else happens to the log. */
  lemma {:induction false} HearNormalForm(cfg: Config, st: MeetingState, e: Event)
    requires IdentityInv(st.pains) && FactsPlaced(st)
    ensures HearBoard(cfg, st, e) == Board(PainsAfter(cfg, st, e), AbsorbAll(st.facts, HearRoutes(cfg, st, e)))
  {
    var ids := Created(cfg, st, e);
    HearSetup(cfg, st, e);
    if ids != {} {
      var first := FirstBoard(cfg, st, e);
      var kept := RestrictRoutes(FirstRoutes(cfg, st, e), ids, false);
      RestrictAbsorbAll(st.facts, FirstRoutes(cfg, st, e), ids, false);
      RestrictAll(st.facts, ids, false);
      assert Restrict(first.facts, ids, false) == AbsorbAll(st.facts, kept);
      ReplayAbsorbs(cfg.rules, first.(facts := AbsorbAll(st.facts, kept)), ids, ContextOfLast(st.transcript + [e]));
      AbsorbAllConcat(st.facts, kept, Replayed(cfg, st, e));
    }
  }

  /** The replay on its own: it fills the new problems from nothing and touches no other. */
  lemma {:induction false} ReplayIsIsolated(
    rules: Rules, pains: seq<Pain>, start: seq<Fact>, ids: set<PainId>, events: seq<Event>, id: PainId)
    requires IdentityInv(pains) && Childless(pains, ids) && id in ids && forall f | f in start :: f.pain !in ids
    ensures var after := Replay(rules, Board(pains, start), ids, events).facts;
            && Restrict(after, {id}, true) == AbsorbAll([], Matching(rules, pains, id, events))
            && Restrict(after, ids, false) == start
  {
    var rs := ReplayRoutes(rules, pains, ids, events);
    ReplayAbsorbs(rules, Board(pains, start), ids, events);
    ReplayRoutesMatch(rules, pains, ids, id, events);
    RestrictAbsorbAll(start, rs, {id}, true);
    RestrictAbsorbAll(start, rs, ids, false);
    RestrictAll(start, ids, false);
    NoElements(Restrict(start, {id}, true));
    NoElements(RestrictRoutes(rs, ids, false));
  }

  /**
    The backfill is an isolated chronological replay: the facts of each problem created by the event are the fold,
    from no facts, of the matching facts of the context in transcript order; no fact of another problem changes.
   */
  lemma {:induction false} BackfillIsIsolated(cfg: Config, st: MeetingState, e: Event, id: PainId)
    requires IdentityInv(st.pains) && FactsPlaced(st) && id in Created(cfg, st, e)
    ensures Restrict(HearBoard(cfg, st, e).facts, {id}, true) ==
            AbsorbAll([], Matching(cfg.rules, PainsAfter(cfg, st, e), id, ContextOfLast(st.transcript + [e])))
    ensures Restrict(HearBoard(cfg, st, e).facts, Created(cfg, st, e), false) ==
            Restrict(FirstBoard(cfg, st, e).facts, Created(cfg, st, e), false)
  {
    var ids := Created(cfg, st, e);
    HearSetup(cfg, st, e);
    ReplayIsIsolated(cfg.rules, PainsAfter(cfg, st, e), Restrict(FirstBoard(cfg, st, e).facts, ids, false), ids,
                     ContextOfLast(st.transcript + [e]), id);
  }

  /** The routes of an event go to unmerged problems and carry events of the transcript. */
  lemma {:induction false} HearRoutesIn(cfg: Config, st: MeetingState, e: Event)
    requires IdentityInv(st.pains)
    ensures forall r | r in HearRoutes(cfg, st, e) :: RoutedIn(PainsAfter(cfg, st, e), r)
    ensures forall r | r in HearRoutes(cfg, st, e) ::
              exists t :: t in st.transcript + [e] && t.id == r.eventId && t.seqNo == r.seqNo
  {
    HearSetup(cfg, st, e);
    ContextInTranscript(st.transcript + [e]);
    ReplayRoutesIn(cfg.rules, PainsAfter(cfg, st, e), Created(cfg, st, e), ContextOfLast(st.transcript + [e]));
    assert (st.transcript + [e])[|st.transcript|] == e;
    forall r | r in HearRoutes(cfg, st, e)
      ensures RoutedIn(PainsAfter(cfg, st, e), r)
      ensures exists t :: t in st.transcript + [e] && t.id == r.eventId && t.seqNo == r.seqNo
    {
      if r in FirstRoutes(cfg, st, e) {
        assert StampedBy(r, e.seqNo, e.id, Analyze(cfg.rules, e).facts);
        assert e in st.transcript + [e];
      }
    }
  }

  lemma {:induction false} RelevantToNobody(pains: seq<Pain>, pfs: seq<Proposed>)
    ensures Relevant(pains, {}, pfs) == []
  {
    if pfs != [] {
      RelevantToNobody(pains, pfs[..|pfs| - 1]);
    }
  }

  lemma {:induction false} ReplayToNobody(rules: Rules, pains: seq<Pain>, events: seq<Event>)
    ensures ReplayRoutes(rules, pains, {}, events) == []
  {
    if events != [] {
      ReplayToNobody(rules, pains, events[..|events| - 1]);
      RelevantToNobody(pains, Analyze(rules, events[|events| - 1]).facts);
    }
  }

  /** The replay routes facts to the new problems alone. */
  lemma {:induction false} ReplayedInside(cfg: Config, st: MeetingState, e: Event)
    requires IdentityInv(st.pains)
    ensures forall r | r in Replayed(cfg, st, e) :: r.pain in Created(cfg, st, e) && r.lineage == {r.pain}
    ensures Created(cfg, st, e) == {} ==> Replayed(cfg, st, e) == []
  {
    var ids, events := Created(cfg, st, e), ContextOfLast(st.transcript + [e]);
    HearSetup(cfg, st, e);
    if id :| id in ids {
      ReplayRoutesMatch(cfg.rules, PainsAfter(cfg, st, e), ids, id, events);
    } else {
      assert ids == {};
      ReplayToNobody(cfg.rules, PainsAfter(cfg, st, e), events);
    }
  }

  lemma {:induction false} ReplayRoutesIn(rules: Rules, pains: seq<Pain>, newIds: set<PainId>, events: seq<Event>)
    ensures forall r | r in ReplayRoutes(rules, pains, newIds, events) ::
              RoutedIn(pains, r) && exists t :: t in events && t.id == r.eventId && t.seqNo == r.seqNo
  {
    if events != [] {
      var front, e := events[..|events| - 1], events[|events| - 1];
      assert events == front + [e];
      ReplayRoutesIn(rules, pains, newIds, front);
      var relevant := Relevant(pains, newIds, Analyze(rules, e).facts);
      RouteAllIn(pains, ReplayContext(pains, relevant), e.seqNo, e.id, relevant);
      forall r | r in ReplayOneRoutes(rules, pains, newIds, e)
        ensures exists t :: t in events && t.id == r.eventId && t.seqNo == r.seqNo
      {
        assert StampedBy(r, e.seqNo, e.id, relevant);
        assert e in events;
      }
    }
  }

  lemma {:induction false} ContextSubset(window: seq<Event>, n: nat)
    requires n <= |window|
    ensures forall e | e in ContextUpTo(window, n) :: e in window[..n]
  {
    if n > 0 {
      ContextSubset(window, n - 1);
      assert window[..n] == window[..n - 1] + [window[n - 1]];
    }
  }

  /** Event i is among the last four, and is the last one or ended at most thirty seconds before it starts. */
  predicate InContext(transcript: seq<Event>, i: nat) {
    && i < |transcript| && |transcript| - 4 <= i
    && (i == |transcript| - 1 || transcript[|transcript| - 1].tsStart - transcript[i].tsEnd <= 30.0)
  }

  /** The events at these ascending positions. */
  predicate Picks(transcript: seq<Event>, at: seq<nat>, events: seq<Event>) {
    && |at| == |events|
    && (forall k | 0 <= k < |at| :: at[k] < |transcript| && events[k] == transcript[at[k]])
    && (forall j, k | 0 <= j < k < |at| :: at[j] < at[k])
  }

  /** The context is exactly these events, in transcript order. */
  lemma {:induction false} ContextMeaning(transcript: seq<Event>) returns (at: seq<nat>)
    requires transcript != []
    ensures Picks(transcript, at, ContextOfLast(transcript))
    ensures forall i: nat :: i in at <==> InContext(transcript, i)
  {
    var window := LastN(transcript, CONTEXT_EVENTS);
    at := ContextPositions(transcript, |window|);
  }

  lemma {:induction false} ContextPositions(transcript: seq<Event>, n: nat) returns (at: seq<nat>)
    requires transcript != [] && n <= |LastN(transcript, CONTEXT_EVENTS)|
    ensures Picks(transcript, at, ContextUpTo(LastN(transcript, CONTEXT_EVENTS), n))
    ensures forall i: nat :: i in at <==>
              InContext(transcript, i) && i < |transcript| - |LastN(transcript, CONTEXT_EVENTS)| + n
  {
    at := [];
    if n > 0 {
      var i := |transcript| - |LastN(transcript, CONTEXT_EVENTS)| + n - 1;
      at := ContextPositions(transcript, n - 1);
      ContextStep(transcript, n, i);
      if InContext(transcript, i) {
        PickOne(transcript, at, ContextUpTo(LastN(transcript, CONTEXT_EVENTS), n - 1), i);
        at := at + [i];
      }
    }
  }

  lemma ContextStep(transcript: seq<Event>, n: nat, i: nat)
    requires transcript != [] && 0 < n <= |LastN(transcript, CONTEXT_EVENTS)|
    requires i == |transcript| - |LastN(transcript, CONTEXT_EVENTS)| + n - 1
    ensures var window := LastN(transcript, CONTEXT_EVENTS);
            ContextUpTo(window, n) ==
            ContextUpTo(window, n - 1) + if InContext(transcript, i) then [transcript[i]] else []
  {
    var window := LastN(transcript, CONTEXT_EVENTS);
    assert window[n - 1] == transcript[i] && window[|window| - 1] == transcript[|transcript| - 1];
  }

  lemma PickOne(transcript: seq<Event>, at: seq<nat>, events: seq<Event>, i: nat)
    requires Picks(transcript, at, events) && i < |transcript| && forall x | x in at :: x < i
    ensures Picks(transcript, at + [i], events + [transcript[i]])
  {
    assert forall j | 0 <= j < |at| :: at[j] in at;
  }

  lemma ContextInTranscript(transcript: seq<Event>)
    ensures forall e | e in ContextOfLast(transcript) :: e in transcript
  {
    var window := LastN(transcript, CONTEXT_EVENTS);
    ContextSubset(window, |window|);
    assert window[..|window|] == window;
  }

  /* ---------- links ---------- */

  predicate IncreasingSeq(events: seq<Event>) {
    forall i, j | 0 <= i < j < |events| :: events[i].seqNo < events[j].seqNo
  }

  /** The rules never propose two facts for one slot of one category in one event. */
  ghost predicate TidyRules(rules: Rules) {
    forall e :: OneFactPerSlot(Analyze(rules, e).facts)
  }

  lemma {:induction false} ContextIncreasing(window: seq<Event>, n: nat)
    requires n <= |window| && IncreasingSeq(window)
    ensures IncreasingSeq(ContextUpTo(window, n))
  {
    if n > 0 {
      ContextIncreasing(window, n - 1);
      ContextSubset(window, n - 1);
      var front := ContextUpTo(window, n - 1);
      forall i | 0 <= i < |front| ensures front[i].seqNo < window[n - 1].seqNo {
        assert front[i] in window[..n - 1];
      }
    }
  }

  lemma {:induction false} RelevantTidy(pains: seq<Pain>, newIds: set<PainId>, pfs: seq<Proposed>)
    requires OneFactPerSlot(pfs)
    ensures OneFactPerSlot(Relevant(pains, newIds, pfs))
    ensures forall r | r in Relevant(pains, newIds, pfs) ::
              exists pf :: pf in pfs && pf.category == r.category && pf.slot == r.slot
  {
    if pfs != [] {
      var front, pf := pfs[..|pfs| - 1], pfs[|pfs| - 1];
      assert pfs == front + [pf];
      RelevantTidy(pains, newIds, front);
      var before := Relevant(pains, newIds, front);
      forall i | 0 <= i < |before| ensures before[i].category != pf.category || before[i].slot != pf.slot {
        assert before[i] in before;
        var q :| q in front && q.category == before[i].category && q.slot == before[i].slot;
        var k :| 0 <= k < |front| && front[k] == q;
        assert pfs[k] == q;
      }
    }
  }

  /** Facts routed by one event to lineages that keep their category never meet each other. */
  lemma SameEventOrdered(pains: seq<Pain>, rs: seq<Routed>)
    requires IdentityInv(pains) && DifferentSlots(rs) && forall r | r in rs :: RoutedIn(pains, r)
    ensures OrderedRoutes(rs)
  {
    forall m, n | 0 <= m < n < |rs| ensures rs[m].pf.slot == rs[n].pf.slot ==> rs[m].pain !in rs[n].lineage {
      assert rs[m] in rs && rs[n] in rs;
      RoutedCategory(pains, rs[m]);
      if rs[m].pain in rs[n].lineage {
        LineageCategory(pains, rs[m].pain, rs[n]);
      }
    }
  }

  lemma RoutedCategory(pains: seq<Pain>, r: Routed)
    requires IdentityInv(pains) && RoutedIn(pains, r)
    ensures r.pain.category == r.pf.category
  {
    var i :| 0 <= i < |pains| && pains[i].id == r.pain && pains[i].Live() && pains[i].category == r.pf.category &&
             r.lineage == Lineage(pains, r.pain);
    assert Shaped(pains, i);
  }

  /** Merges stay inside a category. */
  lemma LineageCategory(pains: seq<Pain>, x: PainId, r: Routed)
    requires IdentityInv(pains) && RoutedIn(pains, r) && x in r.lineage
    ensures x.category == r.pf.category
  {
    RoutedCategory(pains, r);
    InLineage(pains, r.pain, x);
    var i :| 0 <= i < |pains| && pains[i].id == x && (x == r.pain || pains[i].mergedInto == Some(r.pain));
    if x != r.pain {
      assert Shaped(pains, i) && LinkCovered(pains, i);
      var j :| 0 <= j < |pains| && pains[j].id == r.pain && Covers(pains[j], pains[i]);
      assert Shaped(pains, j);
    }
  }

  lemma {:induction false} ReplayOrdered(rules: Rules, pains: seq<Pain>, newIds: set<PainId>, events: seq<Event>)
    requires IdentityInv(pains) && TidyRules(rules) && IncreasingSeq(events)
    ensures OrderedRoutes(ReplayRoutes(rules, pains, newIds, events))
  {
    if events != [] {
      var front, e := events[..|events| - 1], events[|events| - 1];
      ReplayOrdered(rules, pains, newIds, front);
      ReplayRoutesIn(rules, pains, newIds, front);
      var pfs := Analyze(rules, e).facts;
      var relevant := Relevant(pains, newIds, pfs);
      RelevantTidy(pains, newIds, pfs);
      RouteAllDifferent(pains, ReplayContext(pains, relevant), e.seqNo, e.id, relevant);
      RouteAllIn(pains, ReplayContext(pains, relevant), e.seqNo, e.id, relevant);
      var a, b := ReplayRoutes(rules, pains, newIds, front), ReplayOneRoutes(rules, pains, newIds, e);
      SameEventOrdered(pains, b);
      OrderedConcat(a, b, front, e.seqNo);
    }
  }

  lemma OrderedConcat(a: seq<Routed>, b: seq<Routed>, front: seq<Event>, seqNo: int)
    requires OrderedRoutes(a) && OrderedRoutes(b)
    requires forall r | r in a :: exists t :: t in front && t.seqNo == r.seqNo
    requires forall t | t in front :: t.seqNo < seqNo
    requires forall r | r in b :: r.seqNo == seqNo
    ensures OrderedRoutes(a + b)
  {
    var c := a + b;
    forall m, n | 0 <= m < n < |c| && c[m].pain in c[n].lineage && c[m].pf.slot == c[n].pf.slot
      ensures c[m].seqNo < c[n].seqNo
    {
      if m < |a| <= n {
        assert c[m] in a && c[n] in b;
      } else if |a| <= m {
        assert c[m] == b[m - |a|] && c[n] == b[n - |a|];
      }
    }
  }

  /** The transcript is in order, and every fact was created by one of its events. */
  ghost predicate InOrder(st: MeetingState) {
    && IncreasingSeq(st.transcript)
    && forall f | f in st.facts :: exists t :: t in st.transcript && t.seqNo == f.createdSeq
  }

  lemma {:induction false} RestrictRoutesOrdered(rs: seq<Routed>, ids: set<PainId>, inside: bool)
    requires OrderedRoutes(rs)
    ensures OrderedRoutes(RestrictRoutes(rs, ids, inside))
  {
    if rs != [] {
      var front, r := rs[..|rs| - 1], rs[|rs| - 1];
      assert rs == front + [r];
      RestrictRoutesOrdered(front, ids, inside);
      var kept := RestrictRoutes(front, ids, inside);
      forall m | 0 <= m < |kept| && kept[m].pain in r.lineage && kept[m].pf.slot == r.pf.slot
        ensures kept[m].seqNo < r.seqNo
      {
        assert kept[m] in kept;
        var k :| 0 <= k < |front| && front[k] == kept[m];
        assert rs[k] == front[k];
      }
    }
  }

  lemma LastIncreasing(events: seq<Event>)
    requires IncreasingSeq(events)
    ensures IncreasingSeq(ContextOfLast(events))
  {
    var window := LastN(events, CONTEXT_EVENTS);
    ContextIncreasing(window, |window|);
  }

  lemma {:induction false} ReplayedOrdered(cfg: Config, st: MeetingState, e: Event, id: PainId)
    requires IdentityInv(st.pains) && FactsPlaced(st) && InOrder(st) && TidyRules(cfg.rules)
    requires forall t | t in st.transcript :: t.seqNo < e.seqNo
    requires id in Created(cfg, st, e)
    ensures OrderedRoutes(Replayed(cfg, st, e))
    ensures forall r | r in Replayed(cfg, st, e) :: r.pain in Created(cfg, st, e) && r.lineage == {r.pain}
  {
    var events := st.transcript + [e];
    HearSetup(cfg, st, e);
    LastIncreasing(events);
    ReplayOrdered(cfg.rules, PainsAfter(cfg, st, e), Created(cfg, st, e), ContextOfLast(events));
    ReplayRoutesMatch(cfg.rules, PainsAfter(cfg, st, e), Created(cfg, st, e), id, ContextOfLast(events));
  }

  /** The routes of an event respect the order of creation, also across the backfill. */
  lemma {:induction false} HearRoutesOrdered(cfg: Config, st: MeetingState, e: Event)
    requires IdentityInv(st.pains) && FactsPlaced(st) && InOrder(st) && TidyRules(cfg.rules)
    requires forall t | t in st.transcript :: t.seqNo < e.seqNo
    ensures OrderedRoutes(HearRoutes(cfg, st, e))
    ensures forall r | r in HearRoutes(cfg, st, e) :: Newer(st.facts, r)
  {
    var ids, first := Created(cfg, st, e), FirstRoutes(cfg, st, e);
    FirstRoutesOrdered(cfg, st, e);
    FirstRoutesNewer(cfg, st, e);
    if id :| id in ids {
      HearSetup(cfg, st, e);
      ReplayedOrdered(cfg, st, e, id);
      RestrictRoutesOrdered(first, ids, false);
      OrderedApart(RestrictRoutes(first, ids, false), Replayed(cfg, st, e), ids);
    }
  }

  lemma {:induction false} FirstRoutesNewer(cfg: Config, st: MeetingState, e: Event)
    requires IdentityInv(st.pains) && InOrder(st)
    requires forall t | t in st.transcript :: t.seqNo < e.seqNo
    ensures forall r | r in FirstRoutes(cfg, st, e) :: Newer(st.facts, r)
  {
    HearSetup(cfg, st, e);
    forall r | r in FirstRoutes(cfg, st, e) ensures Newer(st.facts, r) {
      assert StampedBy(r, e.seqNo, e.id, Analyze(cfg.rules, e).facts);
      assert Uncut(r, Created(cfg, st, e));
    }
  }

  lemma {:induction false} FirstRoutesOrdered(cfg: Config, st: MeetingState, e: Event)
    requires IdentityInv(st.pains) && TidyRules(cfg.rules)
    ensures OrderedRoutes(FirstRoutes(cfg, st, e))
  {
    var result := Analyze(cfg.rules, e);
    HearSetup(cfg, st, e);
    var d := DetectAll(st.pains, e.seqNo, result.pains, cfg.allowPromotion);
    var ctx := ContextOf(st.pains, d, e.seqNo, result, cfg.allowPromotion);
    RouteAllDifferent(d.pains, ctx, e.seqNo, e.id, result.facts);
    SameEventOrdered(d.pains, FirstRoutes(cfg, st, e));
  }

  lemma OrderedApart(a: seq<Routed>, b: seq<Routed>, ids: set<PainId>)
    requires OrderedRoutes(a) && OrderedRoutes(b)
    requires forall r | r in a :: r.pain !in ids
    requires forall r | r in b :: r.pain in ids && r.lineage == {r.pain}
    ensures OrderedRoutes(a + b)
  {
    var c := a + b;
    forall m, n | 0 <= m < |a| <= n < |c| ensures c[m].pain !in c[n].lineage {
      assert c[m] in a && c[n] in b;
    }
    forall m, n | |a| <= m < n < |c| && c[m].pain in c[n].lineage && c[m].pf.slot == c[n].pf.slot
      ensures c[m].seqNo < c[n].seqNo
    {
      assert c[m] == b[m - |a|] && c[n] == b[n - |a|];
    }
  }

  /** An in-order event keeps fact ids unique and every link resolved, backfill included. */
  lemma {:induction false} HearKeepsLinks(cfg: Config, st: MeetingState, e: Event)
    requires IdentityInv(st.pains) && FactsPlaced(st) && InOrder(st) && TidyRules(cfg.rules) && LinkInv(st.facts)
    requires forall t | t in st.transcript :: t.seqNo < e.seqNo
    ensures LinkInv(HearBoard(cfg, st, e).facts)
    ensures forall f | f in HearBoard(cfg, st, e).facts ::
              exists t :: t in st.transcript + [e] && t.seqNo == f.createdSeq
  {
    HearNormalForm(cfg, st, e);
    HearRoutesOrdered(cfg, st, e);
    HearRoutesIn(cfg, st, e);
    AbsorbAllKeepsLinks(st.facts, HearRoutes(cfg, st, e));
    AbsorbAllSourced(st.facts, HearRoutes(cfg, st, e));
    forall f | f in HearBoard(cfg, st, e).facts
      ensures exists t :: t in st.transcript + [e] && t.seqNo == f.createdSeq
    {
      assert Sourced(f, st.facts, HearRoutes(cfg, st, e));
      if g :| g in st.facts && g.pain == f.pain && g.slot == f.slot && g.createdSeq == f.createdSeq {
        var t :| t in st.transcript && t.seqNo == g.createdSeq;
        assert t in st.transcript + [e];
      }
    }
  }
}
