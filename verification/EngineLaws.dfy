/**
  Every operation of the engine acts on the fact log by absorbing one list of routed facts. An accepted event
  absorbs what its own analysis routes to older problems, followed by what the replayed context routes to the
  problems it created; the facts that the backfill deletes leave no trace.
 */
module EngineLaws {
  import opened Contracts
  import opened Sequences
  import opened Analyzer
  import opened Reducer
  import opened Identity
  import opened Facts
  import opened GapLaws
  import opened Engine

  /* ---------- routing ---------- */

  /** r names an unmerged problem, its lineage, and a fact of its category. */
  ghost predicate RoutedIn(pains: seq<Pain>, r: Routed) {
    exists i :: 0 <= i < |pains| && pains[i].id == r.pain && pains[i].Live() && pains[i].category == r.pf.category &&
                r.lineage == Lineage(pains, r.pain)
  }

  ghost predicate StampedBy(r: Routed, seqNo: int, eventId: string, pfs: seq<Proposed>) {
    r.seqNo == seqNo && r.eventId == eventId && r.pf in pfs
  }

  lemma {:induction false} RouteAllIn(pains: seq<Pain>, ctx: Context, seqNo: int, eventId: string, pfs: seq<Proposed>)
    ensures forall r | r in RouteAll(pains, ctx, seqNo, eventId, pfs) ::
              RoutedIn(pains, r) && StampedBy(r, seqNo, eventId, pfs)
  {
    if pfs != [] {
      var front, pf := pfs[..|pfs| - 1], pfs[|pfs| - 1];
      assert pfs == front + [pf];
      RouteAllIn(pains, ctx, seqNo, eventId, front);
      forall r | r in RouteAll(pains, ctx, seqNo, eventId, pfs)
        ensures RoutedIn(pains, r) && StampedBy(r, seqNo, eventId, pfs)
      {
        if r in RouteAll(pains, ctx, seqNo, eventId, front) {
          assert StampedBy(r, seqNo, eventId, front);
        } else {
          var target := Target(pains, ctx, pf).value;
          assert pains[target].id == r.pain;
        }
      }
    }
  }

  /** Routes of one event name different slots or categories when its proposed facts do. */
  predicate DifferentSlots(rs: seq<Routed>) {
    forall m, n | 0 <= m < n < |rs| :: rs[m].pf.category != rs[n].pf.category || rs[m].pf.slot != rs[n].pf.slot
  }

  lemma {:induction false} RouteAllDifferent(
    pains: seq<Pain>, ctx: Context, seqNo: int, eventId: string, pfs: seq<Proposed>)
    requires OneFactPerSlot(pfs)
    ensures DifferentSlots(RouteAll(pains, ctx, seqNo, eventId, pfs))
  {
    if pfs != [] {
      var front, pf := pfs[..|pfs| - 1], pfs[|pfs| - 1];
      RouteAllDifferent(pains, ctx, seqNo, eventId, front);
      RouteAllIn(pains, ctx, seqNo, eventId, front);
      var before := RouteAll(pains, ctx, seqNo, eventId, front);
      forall m | 0 <= m < |before| ensures before[m].pf.category != pf.category || before[m].pf.slot != pf.slot {
        assert before[m] in before;
        assert StampedBy(before[m], seqNo, eventId, front);
        var k :| 0 <= k < |front| && front[k] == before[m].pf;
        assert pfs[k] == front[k];
      }
    }
  }

  /* ---------- replay ---------- */

  function ReplayContext(pains: seq<Pain>, relevant: seq<Proposed>): Context {
    Context({}, map[], OwnerCategory(pains, relevant))
  }

  function ReplayOneRoutes(rules: Rules, pains: seq<Pain>, newIds: set<PainId>, e: Event): seq<Routed> {
    var relevant := Relevant(pains, newIds, Analyze(rules, e).facts);
    RouteAll(pains, ReplayContext(pains, relevant), e.seqNo, e.id, relevant)
  }

  function ReplayRoutes(rules: Rules, pains: seq<Pain>, newIds: set<PainId>, events: seq<Event>): seq<Routed> {
    if events == [] then []
    else ReplayRoutes(rules, pains, newIds, events[..|events| - 1]) +
         ReplayOneRoutes(rules, pains, newIds, events[|events| - 1])
  }

  lemma ReplayOneAbsorbs(rules: Rules, b: Board, newIds: set<PainId>, e: Event)
    ensures ReplayOne(rules, b, newIds, e) ==
            Board(b.pains, AbsorbAll(b.facts, ReplayOneRoutes(rules, b.pains, newIds, e)))
  {
    var relevant := Relevant(b.pains, newIds, Analyze(rules, e).facts);
    if relevant != [] {
      assert AmbiguousKeys(b.pains, [], e.seqNo) == {};
      assert ContextOf(b.pains, Detection(b.pains, map[]), e.seqNo, AnalysisResult([], relevant), true) ==
             ReplayContext(b.pains, relevant);
    }
  }

  /** The replay changes no problem and absorbs its routes in transcript order. */
  lemma {:induction false} ReplayAbsorbs(rules: Rules, b: Board, newIds: set<PainId>, events: seq<Event>)
    ensures Replay(rules, b, newIds, events) ==
            Board(b.pains, AbsorbAll(b.facts, ReplayRoutes(rules, b.pains, newIds, events)))
  {
    if events != [] {
      var front, e := events[..|events| - 1], events[|events| - 1];
      ReplayAbsorbs(rules, b, newIds, front);
      ReplayOneAbsorbs(rules, Replay(rules, b, newIds, front), newIds, e);
      AbsorbAllConcat(b.facts, ReplayRoutes(rules, b.pains, newIds, front), ReplayOneRoutes(rules, b.pains, newIds, e));
    }
  }

  /** The facts of an event that belong to problem id, already stamped: what the replay is meant to collect. */
  function MatchingOne(pains: seq<Pain>, id: PainId, e: Event, pfs: seq<Proposed>): seq<Routed> {
    if pfs == [] then []
    else
      var front, pf := MatchingOne(pains, id, e, pfs[..|pfs| - 1]), pfs[|pfs| - 1];
      var target := ReplayTarget(pains, pf);
      if target.Some? && pains[target.value].id == id
      then front + [Routed(id, {id}, e.seqNo, e.id, pf.(key := Some(pains[target.value].key)))]
      else front
  }

  function Matching(rules: Rules, pains: seq<Pain>, id: PainId, events: seq<Event>): seq<Routed> {
    if events == [] then []
    else
      var e := events[|events| - 1];
      Matching(rules, pains, id, events[..|events| - 1]) + MatchingOne(pains, id, e, Analyze(rules, e).facts)
  }

  /** A relevant fact is routed to the problem it was selected for: nobody else owns that problem's key. */
  lemma RelevantReturns(pains: seq<Pain>, ctx: Context, i: nat, pf: Proposed)
    requires IdentityInv(pains) && i < |pains| && pains[i].open && pains[i].category == pf.category
    requires pf.key == Some(pains[i].key) && ctx.ambiguous == {} && ctx.resolved == map[]
    ensures Target(pains, ctx, pf) == Some(i)
  {
    assert Shaped(pains, i);
    assert Candidate(pains[i], pf.category) && pains[i].HasKey(pains[i].key);
    var t := Target(pains, ctx, pf).value;
    OwnerUnique(pains, pf.category, pains[i].key, i, t);
  }

  /** Nothing is merged into these problems. */
  ghost predicate Childless(pains: seq<Pain>, ids: set<PainId>) {
    forall i | 0 <= i < |pains| :: pains[i].mergedInto.None? || pains[i].mergedInto.value !in ids
  }

  lemma ChildlessLineage(pains: seq<Pain>, ids: set<PainId>, i: nat)
    requires Childless(pains, ids) && i < |pains| && pains[i].id in ids
    ensures Lineage(pains, pains[i].id) == {pains[i].id}
  {
    forall x ensures x in Lineage(pains, pains[i].id) <==> x == pains[i].id {
      InLineage(pains, pains[i].id, x);
    }
  }

  lemma {:induction false} RelevantRoutes(
    pains: seq<Pain>, ctx: Context, newIds: set<PainId>, id: PainId, e: Event, pfs: seq<Proposed>)
    requires IdentityInv(pains) && Childless(pains, newIds) && id in newIds
    requires ctx.ambiguous == {} && ctx.resolved == map[]
    ensures var rs := RouteAll(pains, ctx, e.seqNo, e.id, Relevant(pains, newIds, pfs));
            && (forall r | r in rs :: r.pain in newIds && r.lineage == {r.pain})
            && RestrictRoutes(rs, {id}, true) == MatchingOne(pains, id, e, pfs)
  {
    if pfs != [] {
      var front, pf := pfs[..|pfs| - 1], pfs[|pfs| - 1];
      RelevantRoutes(pains, ctx, newIds, id, e, front);
      var target := ReplayTarget(pains, pf);
      if target.Some? && pains[target.value].id in newIds {
        var relevant := Relevant(pains, newIds, front);
        var keyed := pf.(key := Some(pains[target.value].key));
        assert (relevant + [keyed])[..|relevant|] == relevant;
        RelevantReturns(pains, ctx, target.value, keyed);
        ChildlessLineage(pains, newIds, target.value);
        var rs := RouteAll(pains, ctx, e.seqNo, e.id, relevant);
        var r := Routed(pains[target.value].id, {pains[target.value].id}, e.seqNo, e.id, keyed);
        assert RouteAll(pains, ctx, e.seqNo, e.id, relevant + [keyed]) == rs + [r];
        assert (rs + [r])[..|rs|] == rs;
      }
    }
  }

  lemma {:induction false} ReplayRoutesMatch(
    rules: Rules, pains: seq<Pain>, newIds: set<PainId>, id: PainId, events: seq<Event>)
    requires IdentityInv(pains) && Childless(pains, newIds) && id in newIds
    ensures forall r | r in ReplayRoutes(rules, pains, newIds, events) :: r.pain in newIds && r.lineage == {r.pain}
    ensures RestrictRoutes(ReplayRoutes(rules, pains, newIds, events), {id}, true) == Matching(rules, pains, id, events)
  {
    if events != [] {
      var front, e := events[..|events| - 1], events[|events| - 1];
      ReplayRoutesMatch(rules, pains, newIds, id, front);
      var pfs := Analyze(rules, e).facts;
      RelevantRoutes(pains, ReplayContext(pains, Relevant(pains, newIds, pfs)), newIds, id, e, pfs);
      var before, routes := ReplayRoutes(rules, pains, newIds, front), ReplayOneRoutes(rules, pains, newIds, e);
      RestrictRoutesConcat(before, routes, {id}, true);
    }
  }

  lemma {:induction false} RestrictRoutesConcat(a: seq<Routed>, b: seq<Routed>, ids: set<PainId>, inside: bool)
    ensures RestrictRoutes(a + b, ids, inside) == RestrictRoutes(a, ids, inside) + RestrictRoutes(b, ids, inside)
  {
    if b == [] {
      assert a + b == a;
    } else {
      RestrictRoutesConcat(a, b[..|b| - 1], ids, inside);
      assert (a + b)[..|a + b| - 1] == a + b[..|b| - 1];
    }
  }
}
