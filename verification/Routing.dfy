/** Who receives a proposed fact, and why an ambiguous identity receives none. */
module Routing {
  import opened Contracts
  import opened Sequences
  import opened Analyzer
  import opened Reducer
  import opened Identity
  import opened Facts
  import opened Engine
  import opened EngineLaws
  import opened HearLaws
  import opened Invariants

  /** Each resolved key names the owner of the detected key. */
  ghost predicate Resolves(d: Detection) {
    forall c, k | (c, k) in d.resolved ::
      FindOwner(d.pains, c, k).Some? && FindOwner(d.pains, c, d.resolved[(c, k)]) == FindOwner(d.pains, c, k)
  }

  lemma {:induction false} DetectResolves(d: Detection, seqNo: int, dp: Detected, allow: bool)
    requires IdentityInv(d.pains) && Resolves(d)
    ensures Resolves(Detect(d, seqNo, dp, allow))
  {
    var after := Detect(d, seqNo, dp, allow);
    DetectKeeps(d, seqNo, dp, allow);
    forall c, k | (c, k) in after.resolved
      ensures FindOwner(after.pains, c, k).Some? &&
              FindOwner(after.pains, c, after.resolved[(c, k)]) == FindOwner(after.pains, c, k)
    {
      if (c, k) == (dp.category, dp.key) {
        ResolvesNew(d, seqNo, dp, allow);
      } else {
        OwnershipPersists(d.pains, after.pains, c, k);
      }
    }
  }

  lemma {:induction false} ResolvesNew(d: Detection, seqNo: int, dp: Detected, allow: bool)
    requires IdentityInv(d.pains)
    ensures var after := Detect(d, seqNo, dp, allow);
            FindOwner(after.pains, dp.category, after.resolved[(dp.category, dp.key)]) ==
            FindOwner(after.pains, dp.category, dp.key)
  {
    var owner := FindOwner(d.pains, dp.category, dp.key);
    if owner.Some? {
      var after := Detect(d, seqNo, dp, allow).pains;
      DetectKeeps(d, seqNo, dp, allow);
      AliasSearchFindsRoot(after, owner.value, dp.key);
      AliasSearchFindsRoot(after, owner.value, d.pains[owner.value].key);
    }
  }

  lemma {:induction false} DetectAllResolves(pains: seq<Pain>, seqNo: int, dps: seq<Detected>, allow: bool)
    requires IdentityInv(pains)
    ensures Resolves(DetectAll(pains, seqNo, dps, allow))
  {
    if dps != [] {
      DetectAllKeeps(pains, seqNo, dps[..|dps| - 1], allow);
      DetectAllResolves(pains, seqNo, dps[..|dps| - 1], allow);
      DetectResolves(DetectAll(pains, seqNo, dps[..|dps| - 1], allow), seqNo, dps[|dps| - 1], allow);
    }
  }

  lemma {:induction false} OpenOwner(pains: seq<Pain>, c: Category, k: string)
    requires IdentityInv(pains)
    ensures FirstIndex(pains, (p: Pain) => Candidate(p, c) && p.HasKey(k)) == FindOwner(pains, c, k)
  {
    assert forall i | 0 <= i < |pains| :: Shaped(pains, i);
    var f, o := FirstIndex(pains, (p: Pain) => Candidate(p, c) && p.HasKey(k)), FindOwner(pains, c, k);
    if o.Some? {
      assert Shaped(pains, o.value);
    }
    if f.Some? {
      OwnerUnique(pains, c, k, f.value, o.value);
    }
  }

  /** A keyed fact that is not ambiguous goes to the owner of its own key, renamed or merged as it may be. */
  lemma {:induction false} KeyedFactsGoToOwners(
    pains: seq<Pain>, seqNo: int, result: AnalysisResult, allow: bool, pf: Proposed)
    requires IdentityInv(pains) && pf.key.Some?
    ensures var d := DetectAll(pains, seqNo, result.pains, allow);
            var ctx := ContextOf(pains, d, seqNo, result, allow);
            Target(d.pains, ctx, pf) ==
            if (pf.category, pf.key.value) in ctx.ambiguous then None else FindOwner(d.pains, pf.category, pf.key.value)
  {
    var d := DetectAll(pains, seqNo, result.pains, allow);
    var ctx := ContextOf(pains, d, seqNo, result, allow);
    DetectAllKeeps(pains, seqNo, result.pains, allow);
    DetectAllResolves(pains, seqNo, result.pains, allow);
    var k := pf.key.value;
    OpenOwner(d.pains, pf.category, if (pf.category, k) in ctx.resolved then ctx.resolved[(pf.category, k)] else k);
  }

  /* ---------- facts without a key ---------- */

  /** Problem i is the only open problem of category c. */
  predicate OnlyOpen(pains: seq<Pain>, c: Category, i: nat) {
    && i < |pains| && pains[i].category == c && pains[i].open
    && forall j | 0 <= j < |pains| && j != i && pains[j].category == c :: !pains[j].open
  }

  /** No other open problem is of a category that these facts name an owner for without a key. */
  predicate Uncontested(pains: seq<Pain>, pfs: seq<Proposed>, i: nat) {
    forall j | 0 <= j < |pains| && j != i && pains[j].open :: pains[j].category !in UnkeyedOwners(pfs)
  }

  lemma UnkeyedTargetIff(pains: seq<Pain>, ctx: Context, pfs: seq<Proposed>, pf: Proposed, i: nat)
    requires forall j | 0 <= j < |pains| :: Shaped(pains, j)
    requires pf in pfs && pf.key.None? && ctx.ownerCategory == OwnerCategory(pains, pfs)
    ensures Target(pains, ctx, pf) == Some(i) <==>
            OnlyOpen(pains, pf.category, i) && (pf.slot == Owner ==> Uncontested(pains, pfs, i))
  {
    assert forall j | 0 <= j < |pains| :: Shaped(pains, j) && (pains[j].open <==> pains[j].Live());
    if pf.slot == Owner {
      assert pf.category in UnkeyedOwners(pfs);
    }
  }

  lemma UnkeyedReplayIff(pains: seq<Pain>, pf: Proposed, i: nat)
    requires pf.key.None?
    ensures ReplayTarget(pains, pf) == Some(i) <==> OnlyOpen(pains, pf.category, i)
  {
  }

  lemma {:induction false} RouteAllMembers(
    pains: seq<Pain>, ctx: Context, seqNo: int, eventId: string, pfs: seq<Proposed>, r: Routed)
    ensures r in RouteAll(pains, ctx, seqNo, eventId, pfs) <==>
            exists i: nat :: i < |pains| && r.pf in pfs && Target(pains, ctx, r.pf) == Some(i) &&
                             r == Routed(pains[i].id, Lineage(pains, pains[i].id), seqNo, eventId, r.pf)
  {
    if pfs != [] {
      var front, pf := pfs[..|pfs| - 1], pfs[|pfs| - 1];
      assert pfs == front + [pf];
      RouteAllMembers(pains, ctx, seqNo, eventId, front, r);
    }
  }

  function FirstContext(cfg: Config, st: MeetingState, e: Event): Context {
    var result := Analyze(cfg.rules, e);
    var d := DetectAll(st.pains, e.seqNo, result.pains, cfg.allowPromotion);
    ContextOf(st.pains, d, e.seqNo, result, cfg.allowPromotion)
  }

  /** A keyed fact of the event itself is routed to the owner of its key, or to nobody. */
  lemma {:induction false} KeyedRouteOwner(cfg: Config, st: MeetingState, e: Event, r: Routed)
    requires IdentityInv(st.pains) && r in FirstRoutes(cfg, st, e)
    ensures r.pf in Analyze(cfg.rules, e).facts
    ensures r.pf.key.Some? ==>
            var owner := FindOwner(PainsAfter(cfg, st, e), r.pf.category, r.pf.key.value);
            owner.Some? && PainsAfter(cfg, st, e)[owner.value].id == r.pain
  {
    var result := Analyze(cfg.rules, e);
    RouteAllMembers(PainsAfter(cfg, st, e), FirstContext(cfg, st, e), e.seqNo, e.id, result.facts, r);
    if r.pf.key.Some? {
      KeyedFactsGoToOwners(st.pains, e.seqNo, result, cfg.allowPromotion, r.pf);
    }
  }

  /** When an event states one fact, and an owner has its key, the fact goes there or nowhere. */
  lemma {:induction false} SoleRoute(cfg: Config, st: MeetingState, e: Event, r: Routed, pf: Proposed, i: nat)
    requires IdentityInv(st.pains) && r in FirstRoutes(cfg, st, e) && pf.key.Some?
    requires forall q | q in Analyze(cfg.rules, e).facts :: q == pf
    requires FindOwner(PainsAfter(cfg, st, e), pf.category, pf.key.value) == Some(i)
    ensures r.pain == PainsAfter(cfg, st, e)[i].id
  {
    KeyedRouteOwner(cfg, st, e, r);
  }

  /** The fact that the replay of event t makes of proposed fact pf for problem i. */
  function ReplayedAs(pains: seq<Pain>, i: nat, t: Event, pf: Proposed): Routed
    requires i < |pains|
  {
    Routed(pains[i].id, {pains[i].id}, t.seqNo, t.id, pf.(key := Some(pains[i].key)))
  }

  lemma {:induction false} MatchingOneMembers(pains: seq<Pain>, i: nat, t: Event, pfs: seq<Proposed>, r: Routed)
    requires DistinctIds(pains) && i < |pains|
    ensures r in MatchingOne(pains, pains[i].id, t, pfs) <==>
            exists pf :: pf in pfs && ReplayTarget(pains, pf) == Some(i) && r == ReplayedAs(pains, i, t, pf)
  {
    if pfs != [] {
      var front, pf := pfs[..|pfs| - 1], pfs[|pfs| - 1];
      assert pfs == front + [pf];
      MatchingOneMembers(pains, i, t, front, r);
    }
  }

  lemma {:induction false} MatchingMembers(rules: Rules, pains: seq<Pain>, i: nat, events: seq<Event>, r: Routed)
    requires DistinctIds(pains) && i < |pains|
    ensures r in Matching(rules, pains, pains[i].id, events) <==>
            exists t, pf :: t in events && pf in Analyze(rules, t).facts && ReplayTarget(pains, pf) == Some(i) &&
                            r == ReplayedAs(pains, i, t, pf)
  {
    if events != [] {
      var front, t := events[..|events| - 1], events[|events| - 1];
      assert events == front + [t];
      MatchingMembers(rules, pains, i, front, r);
      MatchingOneMembers(pains, i, t, Analyze(rules, t).facts, r);
    }
  }

  lemma FactsKeyed(rules: Rules, t: Event, pf: Proposed)
    requires pf in Analyze(rules, t).facts
    ensures pf.key == KeyOf(Analyze(rules, t).pains, pf.category)
  {
    var facts := Analyze(rules, t).facts;
    var i :| 0 <= i < |facts| && facts[i] == pf;
  }

  /** Facts of one category carry one key, or none of them has any. */
  lemma SameKey(rules: Rules, t: Event, p: Proposed, q: Proposed)
    requires p in Analyze(rules, t).facts && q in Analyze(rules, t).facts && p.category == q.category
    ensures p.key == q.key
  {
    FactsKeyed(rules, t, p);
    FactsKeyed(rules, t, q);
  }

  /** The accepted event hands proposed fact pf of event t to problem id. */
  ghost predicate Reaches(cfg: Config, st: MeetingState, e: Event, t: Event, pf: Proposed, id: PainId) {
    exists r :: r in HearRoutes(cfg, st, e) && r.pain == id && r.eventId == t.id && r.pf.(key := None) == pf
  }

  lemma {:induction false} FirstRouteIff(cfg: Config, st: MeetingState, e: Event, pf: Proposed, i: nat)
    requires IdentityInv(st.pains) && i < |PainsAfter(cfg, st, e)| && pf in Analyze(cfg.rules, e).facts
    ensures (exists r :: r in FirstRoutes(cfg, st, e) && r.pain == PainsAfter(cfg, st, e)[i].id &&
                         r.pf.(key := None) == pf.(key := None))
            <==> Target(PainsAfter(cfg, st, e), FirstContext(cfg, st, e), pf) == Some(i)
  {
    if r :| r in FirstRoutes(cfg, st, e) && r.pain == PainsAfter(cfg, st, e)[i].id &&
            r.pf.(key := None) == pf.(key := None) {
      RoutedIsTarget(cfg, st, e, pf, i, r);
    }
    if Target(PainsAfter(cfg, st, e), FirstContext(cfg, st, e), pf) == Some(i) {
      TargetIsRouted(cfg, st, e, pf, i);
    }
  }

  lemma {:induction false} RoutedIsTarget(cfg: Config, st: MeetingState, e: Event, pf: Proposed, i: nat, r: Routed)
    requires IdentityInv(st.pains) && i < |PainsAfter(cfg, st, e)| && pf in Analyze(cfg.rules, e).facts
    requires r in FirstRoutes(cfg, st, e) && r.pain == PainsAfter(cfg, st, e)[i].id
    requires r.pf.(key := None) == pf.(key := None)
    ensures Target(PainsAfter(cfg, st, e), FirstContext(cfg, st, e), pf) == Some(i)
  {
    var after := PainsAfter(cfg, st, e);
    assert DistinctIds(after) by {
      HearSetup(cfg, st, e);
    }
    RouteAllMembers(after, FirstContext(cfg, st, e), e.seqNo, e.id, Analyze(cfg.rules, e).facts, r);
    SameKey(cfg.rules, e, r.pf, pf);
    assert r.pf == pf;
  }

  lemma {:induction false} TargetIsRouted(cfg: Config, st: MeetingState, e: Event, pf: Proposed, i: nat)
    requires i < |PainsAfter(cfg, st, e)| && pf in Analyze(cfg.rules, e).facts
    requires Target(PainsAfter(cfg, st, e), FirstContext(cfg, st, e), pf) == Some(i)
    ensures exists r :: r in FirstRoutes(cfg, st, e) && r.pain == PainsAfter(cfg, st, e)[i].id && r.pf == pf
  {
    var after := PainsAfter(cfg, st, e);
    var r := Routed(after[i].id, Lineage(after, after[i].id), e.seqNo, e.id, pf);
    RouteAllMembers(after, FirstContext(cfg, st, e), e.seqNo, e.id, Analyze(cfg.rules, e).facts, r);
    assert r in FirstRoutes(cfg, st, e);
  }

  lemma SameEvent(transcript: seq<Event>, s: Event, t: Event)
    requires DistinctEvents(transcript) && s in transcript && t in transcript
    ensures s.id == t.id <==> s == t
  {
    var i :| 0 <= i < |transcript| && transcript[i] == s;
    var j :| 0 <= j < |transcript| && transcript[j] == t;
  }

  lemma {:induction false} ReachesOldIff(cfg: Config, st: MeetingState, e: Event, t: Event, pf: Proposed, i: nat)
    requires IdentityInv(st.pains) && DistinctEvents(st.transcript + [e]) && t in st.transcript + [e]
    requires pf in Analyze(cfg.rules, t).facts && pf.key.None?
    requires i < |PainsAfter(cfg, st, e)| && PainsAfter(cfg, st, e)[i].id !in Created(cfg, st, e)
    ensures var after := PainsAfter(cfg, st, e);
            Reaches(cfg, st, e, t, pf, after[i].id) <==>
            && t == e && OnlyOpen(after, pf.category, i)
            && (pf.slot == Owner ==> Uncontested(after, Analyze(cfg.rules, e).facts, i))
  {
    var id := PainsAfter(cfg, st, e)[i].id;
    OldRoutes(cfg, st, e, id);
    SameEvent(st.transcript + [e], t, e);
    if t == e {
      assert IdentityInv(PainsAfter(cfg, st, e)) by {
        HearSetup(cfg, st, e);
      }
      FirstRouteIff(cfg, st, e, pf, i);
      UnkeyedTargetIff(PainsAfter(cfg, st, e), FirstContext(cfg, st, e), Analyze(cfg.rules, e).facts, pf, i);
    }
  }

  /** Older problems receive what the event's own analysis routes to them. */
  lemma {:induction false} OldRoutes(cfg: Config, st: MeetingState, e: Event, id: PainId)
    requires IdentityInv(st.pains) && id !in Created(cfg, st, e)
    ensures forall r: Routed | r.pain == id :: r in HearRoutes(cfg, st, e) <==> r in FirstRoutes(cfg, st, e)
    ensures forall r | r in FirstRoutes(cfg, st, e) :: r.eventId == e.id
  {
    HearSetup(cfg, st, e);
    ReplayedInside(cfg, st, e);
  }

  lemma {:induction false} ReachesNewIff(cfg: Config, st: MeetingState, e: Event, t: Event, pf: Proposed, i: nat)
    requires IdentityInv(st.pains) && DistinctEvents(st.transcript + [e]) && t in st.transcript + [e]
    requires pf in Analyze(cfg.rules, t).facts && pf.key.None?
    requires i < |PainsAfter(cfg, st, e)| && PainsAfter(cfg, st, e)[i].id in Created(cfg, st, e)
    ensures var after := PainsAfter(cfg, st, e);
            Reaches(cfg, st, e, t, pf, after[i].id) <==>
            t in ContextOfLast(st.transcript + [e]) && OnlyOpen(after, pf.category, i)
  {
    var after, events := PainsAfter(cfg, st, e), ContextOfLast(st.transcript + [e]);
    ContextInTranscript(st.transcript + [e]);
    UnkeyedReplayIff(after, pf, i);
    NewRoutesMatch(cfg, st, e, i);
    if r :| r in HearRoutes(cfg, st, e) && r.pain == after[i].id && r.eventId == t.id && r.pf.(key := None) == pf {
      MatchingMembers(cfg.rules, after, i, events, r);
      var s, q :| s in events && q in Analyze(cfg.rules, s).facts && ReplayTarget(after, q) == Some(i) &&
                  r == ReplayedAs(after, i, s, q);
      SameEvent(st.transcript + [e], s, t);
      SameKey(cfg.rules, t, q, pf);
      assert q == pf;
    }
    if t in events && ReplayTarget(after, pf) == Some(i) {
      MatchingMembers(cfg.rules, after, i, events, ReplayedAs(after, i, t, pf));
      assert ReplayedAs(after, i, t, pf) in HearRoutes(cfg, st, e);
    }
  }

  /** A new problem receives the matching facts of the context. */
  lemma {:induction false} NewRoutesMatch(cfg: Config, st: MeetingState, e: Event, i: nat)
    requires IdentityInv(st.pains)
    requires i < |PainsAfter(cfg, st, e)| && PainsAfter(cfg, st, e)[i].id in Created(cfg, st, e)
    ensures DistinctIds(PainsAfter(cfg, st, e))
    ensures var after, id := PainsAfter(cfg, st, e), PainsAfter(cfg, st, e)[i].id;
            forall r: Routed | r.pain == id ::
              r in HearRoutes(cfg, st, e) <==> r in Matching(cfg.rules, after, id, ContextOfLast(st.transcript + [e]))
  {
    var id := PainsAfter(cfg, st, e)[i].id;
    HearSetup(cfg, st, e);
    ReplayRoutesMatch(cfg.rules, PainsAfter(cfg, st, e), Created(cfg, st, e), id, ContextOfLast(st.transcript + [e]));
  }

  /**
    When a fact without a key reaches a problem over one accepted event, backfill included. The problem is always the
    only open one of its category. An older problem takes facts of the event itself, and an owner only if no other
    open problem could be meant; a problem the event creates takes facts of the whole context, owners without that test.
   */
  lemma {:induction false} UnkeyedFactReachesIff(
    cfg: Config, m: Memory, e: Event, t: Event, pf: Proposed, i: nat)
    requires Inv(cfg, m) && Accepts(m, e) && t in m.state.transcript + [e]
    requires pf in Analyze(cfg.rules, t).facts && pf.key.None? && i < |PainsAfter(cfg, m.state, e)|
    ensures var st, after := m.state, PainsAfter(cfg, m.state, e);
            Reaches(cfg, st, e, t, pf, after[i].id) <==>
            && OnlyOpen(after, pf.category, i)
            && if after[i].id in Created(cfg, st, e) then t in ContextOfLast(st.transcript + [e])
               else t == e && (pf.slot == Owner ==> Uncontested(after, Analyze(cfg.rules, e).facts, i))
  {
    EventAppended(m.state.transcript, e);
    if PainsAfter(cfg, m.state, e)[i].id in Created(cfg, m.state, e) {
      ReachesNewIff(cfg, m.state, e, t, pf, i);
    } else {
      ReachesOldIff(cfg, m.state, e, t, pf, i);
    }
  }

  /** The accepted event hands an owner that event t names without a key to problem id. */
  ghost predicate OwnerReaches(cfg: Config, st: MeetingState, e: Event, t: Event, id: PainId) {
    exists pf :: pf in Analyze(cfg.rules, t).facts && pf.key.None? && pf.slot == Owner && Reaches(cfg, st, e, t, pf, id)
  }

  lemma {:induction false} OwnerReachesIff(cfg: Config, m: Memory, e: Event, t: Event, i: nat)
    requires Inv(cfg, m) && Accepts(m, e) && t in m.state.transcript + [e] && i < |PainsAfter(cfg, m.state, e)|
    ensures var st, after, facts := m.state, PainsAfter(cfg, m.state, e), Analyze(cfg.rules, t).facts;
            OwnerReaches(cfg, st, e, t, after[i].id) <==>
            && OnlyOpen(after, after[i].category, i) && after[i].category in UnkeyedOwners(facts)
            && if after[i].id in Created(cfg, st, e) then t in ContextOfLast(st.transcript + [e])
               else t == e && Uncontested(after, facts, i)
  {
    var st, after, facts := m.state, PainsAfter(cfg, m.state, e), Analyze(cfg.rules, t).facts;
    if pf :| pf in facts && pf.key.None? && pf.slot == Owner && Reaches(cfg, st, e, t, pf, after[i].id) {
      UnkeyedFactReachesIff(cfg, m, e, t, pf, i);
    }
    if after[i].category in UnkeyedOwners(facts) {
      var pf :| pf in facts && pf.slot == Owner && pf.key.None? && pf.category == after[i].category;
      UnkeyedFactReachesIff(cfg, m, e, t, pf, i);
    }
  }

  /**
    When the owners that one event names without a key reach two problems: exactly when both problems are created by
    the accepted event, each is the only open one of its category, and the naming event is in the context and names an
    owner for both categories.
   */
  lemma {:induction false} OwnersReachTwoIff(cfg: Config, m: Memory, e: Event, t: Event, i: nat, j: nat)
    requires Inv(cfg, m) && Accepts(m, e) && t in m.state.transcript + [e]
    requires i < |PainsAfter(cfg, m.state, e)| && j < |PainsAfter(cfg, m.state, e)| && i != j
    ensures var st, after, owners := m.state, PainsAfter(cfg, m.state, e), UnkeyedOwners(Analyze(cfg.rules, t).facts);
            OwnerReaches(cfg, st, e, t, after[i].id) && OwnerReaches(cfg, st, e, t, after[j].id) <==>
            && t in ContextOfLast(st.transcript + [e])
            && after[i].id in Created(cfg, st, e) && after[j].id in Created(cfg, st, e)
            && OnlyOpen(after, after[i].category, i) && OnlyOpen(after, after[j].category, j)
            && after[i].category in owners && after[j].category in owners
  {
    OwnerReachesIff(cfg, m, e, t, i);
    OwnerReachesIff(cfg, m, e, t, j);
  }

  /** A problem that the event creates takes even a contested owner from the context. */
  lemma {:induction false} ContextReaches(cfg: Config, m: Memory, e: Event, t: Event, pf: Proposed, i: nat)
    requires Inv(cfg, m) && Accepts(m, e) && t in ContextOfLast(m.state.transcript + [e])
    requires pf in Analyze(cfg.rules, t).facts && pf.key.None? && OnlyOpen(PainsAfter(cfg, m.state, e), pf.category, i)
    requires PainsAfter(cfg, m.state, e)[i].id in Created(cfg, m.state, e)
    ensures Reaches(cfg, m.state, e, t, pf, PainsAfter(cfg, m.state, e)[i].id)
  {
    ContextInTranscript(m.state.transcript + [e]);
    UnkeyedFactReachesIff(cfg, m, e, t, pf, i);
  }

  /** An older problem takes no contested owner. */
  lemma {:induction false} ContestedOwner(cfg: Config, m: Memory, e: Event, pf: Proposed, i: nat)
    requires Inv(cfg, m) && Accepts(m, e) && pf in Analyze(cfg.rules, e).facts && pf.key.None? && pf.slot == Owner
    requires i < |PainsAfter(cfg, m.state, e)| && PainsAfter(cfg, m.state, e)[i].id !in Created(cfg, m.state, e)
    requires !Uncontested(PainsAfter(cfg, m.state, e), Analyze(cfg.rules, e).facts, i)
    ensures !Reaches(cfg, m.state, e, e, pf, PainsAfter(cfg, m.state, e)[i].id)
  {
    assert (m.state.transcript + [e])[|m.state.transcript|] == e;
    UnkeyedFactReachesIff(cfg, m, e, e, pf, i);
  }

  /* ---------- facts with a key ---------- */

  /** An open provisional problem of the category, one to four events old. */
  predicate RecentProvisional(p: Pain, c: Category, seqNo: int) {
    && p.category == c && p.open && !p.anchored && p.mergedInto.None?
    && p.createdSeq < seqNo <= p.createdSeq + 4
  }

  /** A new anchored key for which more than one recent provisional problem could be meant. */
  predicate SeveralMeant(pains: seq<Pain>, dp: Detected, seqNo: int) {
    && dp.anchored
    && (forall p | p in pains && p.category == dp.category :: p.key != dp.key && dp.key !in p.aliases)
    && exists i, j :: 0 <= i < j < |pains| && RecentProvisional(pains[i], dp.category, seqNo) &&
                      RecentProvisional(pains[j], dp.category, seqNo)
  }

  lemma SeveralMeantIff(pains: seq<Pain>, dp: Detected, seqNo: int)
    ensures SeveralMeant(pains, dp, seqNo) <==> IsAmbiguous(pains, dp, seqNo)
  {
    assert forall p :: RecentProvisional(p, dp.category, seqNo) <==> Promotable(p, dp.category, seqNo);
  }

  /** Facts with this key are withheld: promotion is on, and the event detects the key with several problems meant. */
  ghost predicate Withheld(cfg: Config, st: MeetingState, e: Event, c: Category, k: string) {
    cfg.allowPromotion && exists dp ::
      dp in Analyze(cfg.rules, e).pains && dp.category == c && dp.key == k && SeveralMeant(st.pains, dp, e.seqNo)
  }

  /** The accepted event hands what fact pf of event t says to problem id. */
  ghost predicate KeyedReaches(cfg: Config, st: MeetingState, e: Event, t: Event, pf: Proposed, id: PainId) {
    exists r :: r in HearRoutes(cfg, st, e) && r.pain == id && r.eventId == t.id &&
                r.pf.(key := None) == pf.(key := None)
  }

  lemma {:induction false} KeyedTargetIff(cfg: Config, st: MeetingState, e: Event, pf: Proposed, i: nat)
    requires IdentityInv(st.pains) && pf.key.Some? && i < |PainsAfter(cfg, st, e)|
    ensures Target(PainsAfter(cfg, st, e), FirstContext(cfg, st, e), pf) == Some(i) <==>
            PainsAfter(cfg, st, e)[i].Owns(pf.category, pf.key.value) &&
            !Withheld(cfg, st, e, pf.category, pf.key.value)
  {
    var after := PainsAfter(cfg, st, e);
    HearSetup(cfg, st, e);
    KeyedFactsGoToOwners(st.pains, e.seqNo, Analyze(cfg.rules, e), cfg.allowPromotion, pf);
    forall dp ensures SeveralMeant(st.pains, dp, e.seqNo) <==> IsAmbiguous(st.pains, dp, e.seqNo) {
      SeveralMeantIff(st.pains, dp, e.seqNo);
    }
    if after[i].Owns(pf.category, pf.key.value) {
      OwnerUnique(after, pf.category, pf.key.value, i, FindOwner(after, pf.category, pf.key.value).value);
    }
  }

  lemma {:induction false} KeyedOldIff(cfg: Config, st: MeetingState, e: Event, t: Event, pf: Proposed, i: nat)
    requires IdentityInv(st.pains) && DistinctEvents(st.transcript + [e]) && t in st.transcript + [e]
    requires pf in Analyze(cfg.rules, t).facts && pf.key.Some?
    requires i < |PainsAfter(cfg, st, e)| && PainsAfter(cfg, st, e)[i].id !in Created(cfg, st, e)
    ensures KeyedReaches(cfg, st, e, t, pf, PainsAfter(cfg, st, e)[i].id) <==>
            t == e && PainsAfter(cfg, st, e)[i].Owns(pf.category, pf.key.value) &&
            !Withheld(cfg, st, e, pf.category, pf.key.value)
  {
    OldRoutes(cfg, st, e, PainsAfter(cfg, st, e)[i].id);
    SameEvent(st.transcript + [e], t, e);
    if t == e {
      KeyedTargetIff(cfg, st, e, pf, i);
      FirstRouteIff(cfg, st, e, pf, i);
    }
  }

  lemma KeyedReplayIff(pains: seq<Pain>, pf: Proposed, i: nat)
    requires IdentityInv(pains) && pf.key.Some? && i < |pains| && pains[i].Live()
    ensures ReplayTarget(pains, pf) == Some(i) <==> pains[i].category == pf.category && pains[i].key == pf.key.value
  {
    assert forall j | 0 <= j < |pains| :: Shaped(pains, j) && (pains[j].open <==> pains[j].Live());
    var r := ReplayTarget(pains, pf);
    if pains[i].category == pf.category && pains[i].key == pf.key.value {
      OwnerUnique(pains, pf.category, pf.key.value, i, r.value);
    }
  }

  lemma {:induction false} KeyedNewIff(cfg: Config, st: MeetingState, e: Event, t: Event, pf: Proposed, i: nat)
    requires IdentityInv(st.pains) && DistinctEvents(st.transcript + [e]) && t in st.transcript + [e]
    requires pf in Analyze(cfg.rules, t).facts && pf.key.Some?
    requires i < |PainsAfter(cfg, st, e)| && PainsAfter(cfg, st, e)[i].id in Created(cfg, st, e)
    ensures KeyedReaches(cfg, st, e, t, pf, PainsAfter(cfg, st, e)[i].id) <==>
            && t in ContextOfLast(st.transcript + [e])
            && PainsAfter(cfg, st, e)[i].category == pf.category && PainsAfter(cfg, st, e)[i].key == pf.key.value
  {
    var after, events := PainsAfter(cfg, st, e), ContextOfLast(st.transcript + [e]);
    ContextInTranscript(st.transcript + [e]);
    assert IdentityInv(after) && after[i].Live() by {
      CreatedIsLive(cfg, st, e, i);
    }
    KeyedReplayIff(after, pf, i);
    NewRoutesMatch(cfg, st, e, i);
    if r :| r in HearRoutes(cfg, st, e) && r.pain == after[i].id && r.eventId == t.id &&
            r.pf.(key := None) == pf.(key := None) {
      MatchingMembers(cfg.rules, after, i, events, r);
      var s, q :| s in events && q in Analyze(cfg.rules, s).facts && ReplayTarget(after, q) == Some(i) &&
                  r == ReplayedAs(after, i, s, q);
      SameEvent(st.transcript + [e], s, t);
      SameKey(cfg.rules, t, q, pf);
      assert q == pf;
    }
    if t in events && ReplayTarget(after, pf) == Some(i) {
      MatchingMembers(cfg.rules, after, i, events, ReplayedAs(after, i, t, pf));
      assert ReplayedAs(after, i, t, pf) in HearRoutes(cfg, st, e);
    }
  }

  lemma {:induction false} CreatedIsLive(cfg: Config, st: MeetingState, e: Event, i: nat)
    requires IdentityInv(st.pains)
    requires i < |PainsAfter(cfg, st, e)| && PainsAfter(cfg, st, e)[i].id in Created(cfg, st, e)
    ensures IdentityInv(PainsAfter(cfg, st, e)) && PainsAfter(cfg, st, e)[i].Live()
  {
    HearSetup(cfg, st, e);
    PriorIds(st.pains, PainsAfter(cfg, st, e));
  }

  /**
    When a fact with a key reaches a problem over one accepted event, backfill included. An older problem takes facts
    of the event itself under any key it answers to, unless the key is withheld; a problem the event creates takes the
    facts of the whole context under its own key.
   */
  lemma {:induction false} KeyedFactReachesIff(cfg: Config, m: Memory, e: Event, t: Event, pf: Proposed, i: nat)
    requires Inv(cfg, m) && Accepts(m, e) && t in m.state.transcript + [e]
    requires pf in Analyze(cfg.rules, t).facts && pf.key.Some? && i < |PainsAfter(cfg, m.state, e)|
    ensures var st, after := m.state, PainsAfter(cfg, m.state, e);
            KeyedReaches(cfg, st, e, t, pf, after[i].id) <==>
            if after[i].id in Created(cfg, st, e) then
              t in ContextOfLast(st.transcript + [e]) && after[i].category == pf.category &&
              after[i].key == pf.key.value
            else
              t == e && after[i].Owns(pf.category, pf.key.value) &&
              !Withheld(cfg, st, e, pf.category, pf.key.value)
  {
    EventAppended(m.state.transcript, e);
    if PainsAfter(cfg, m.state, e)[i].id in Created(cfg, m.state, e) {
      KeyedNewIff(cfg, m.state, e, t, pf, i);
    } else {
      KeyedOldIff(cfg, m.state, e, t, pf, i);
    }
  }

  /* ---------- ambiguity ---------- */

  lemma {:induction false} RouteTargets(pains: seq<Pain>, ctx: Context, seqNo: int, eventId: string, pfs: seq<Proposed>)
    ensures forall r | r in RouteAll(pains, ctx, seqNo, eventId, pfs) :: r.pf in pfs && Target(pains, ctx, r.pf).Some?
  {
    if pfs != [] {
      var front, pf := pfs[..|pfs| - 1], pfs[|pfs| - 1];
      assert pfs == front + [pf];
      RouteTargets(pains, ctx, seqNo, eventId, front);
    }
  }

  /** All facts of a detected category carry the key of its one detection. */
  lemma DetectedFactsKeyed(rules: Rules, e: Event, dp: Detected)
    requires dp in Analyze(rules, e).pains
    ensures forall pf | pf in Analyze(rules, e).facts && pf.category == dp.category :: pf.key == Some(dp.key)
    ensures forall x | x in Analyze(rules, e).pains && x.category == dp.category :: x == dp
  {
    var result := Analyze(rules, e);
    var j :| 0 <= j < |result.pains| && result.pains[j] == dp;
    assert KeyOf(result.pains, dp.category) == Some(dp.key);
    forall pf | pf in result.facts && pf.category == dp.category ensures pf.key == Some(dp.key) {
      FactsKeyed(rules, e, pf);
    }
  }

  predicate OtherCategories(rs: seq<Routed>, c: Category) {
    forall r | r in rs :: r.pain.category != c && forall x | x in r.lineage :: x.category != c
  }

  lemma AbsorbUntouched(facts: seq<Fact>, r: Routed, c: Category)
    requires r.pain.category != c && forall x | x in r.lineage :: x.category != c
    ensures var after := Absorb(facts, r);
            && |facts| <= |after|
            && (forall i | 0 <= i < |facts| && facts[i].pain.category == c :: after[i] == facts[i])
            && (forall i | |facts| <= i < |after| :: after[i].pain.category != c)
            && (forall i | 0 <= i < |facts| :: after[i].pain == facts[i].pain)
  {
    AbsorbEvolves(facts, r);
  }

  /** Facts of a category that receives nothing are left exactly as they were. */
  lemma {:induction false} CategoryUntouched(facts: seq<Fact>, rs: seq<Routed>, c: Category)
    requires OtherCategories(rs, c)
    ensures var after := AbsorbAll(facts, rs);
            && |facts| <= |after|
            && (forall i | 0 <= i < |facts| && facts[i].pain.category == c :: after[i] == facts[i])
            && (forall i | |facts| <= i < |after| :: after[i].pain.category != c)
            && (forall i | 0 <= i < |facts| :: after[i].pain == facts[i].pain)
  {
    if rs != [] {
      var front, r := rs[..|rs| - 1], rs[|rs| - 1];
      assert rs == front + [r];
      CategoryUntouched(facts, front, c);
      AbsorbUntouched(AbsorbAll(facts, front), r, c);
    }
  }

  lemma {:induction false} AmbiguousRoutesNothing(cfg: Config, st: MeetingState, e: Event, dp: Detected)
    requires IdentityInv(st.pains) && cfg.allowPromotion
    requires dp in Analyze(cfg.rules, e).pains && IsAmbiguous(st.pains, dp, e.seqNo)
    ensures forall r | r in FirstRoutes(cfg, st, e) :: r.pf.category != dp.category
  {
    var result := Analyze(cfg.rules, e);
    var d := DetectAll(st.pains, e.seqNo, result.pains, true);
    var ctx := ContextOf(st.pains, d, e.seqNo, result, true);
    RouteTargets(d.pains, ctx, e.seqNo, e.id, result.facts);
    DetectedFactsKeyed(cfg.rules, e, dp);
    assert (dp.category, dp.key) in ctx.ambiguous;
  }

  /** b extends a, and the problems of category c are the same in both. */
  ghost predicate SameInCategory(a: seq<Pain>, b: seq<Pain>, c: Category) {
    && |a| <= |b|
    && (forall i | 0 <= i < |a| :: if a[i].category == c then b[i] == a[i] else b[i].category != c)
    && (forall i | |a| <= i < |b| :: b[i].category != c)
  }

  lemma OtherDetection(d: Detection, seqNo: int, dp: Detected, allow: bool, c: Category)
    requires dp.category != c
    ensures SameInCategory(d.pains, Detect(d, seqNo, dp, allow).pains, c)
  {
  }

  lemma {:induction false} OtherDetections(pains: seq<Pain>, seqNo: int, dps: seq<Detected>, allow: bool, c: Category)
    requires forall dp | dp in dps :: dp.category != c
    ensures SameInCategory(pains, DetectAll(pains, seqNo, dps, allow).pains, c)
  {
    if dps != [] {
      var front, last := dps[..|dps| - 1], dps[|dps| - 1];
      assert dps == front + [last];
      OtherDetections(pains, seqNo, front, allow, c);
      OtherDetection(DetectAll(pains, seqNo, front, allow), seqNo, last, allow, c);
    }
  }

  /** An ambiguous detection creates a problem and renames none. */
  lemma {:induction false} AmbiguousCreates(pains: seq<Pain>, d: Detection, seqNo: int, dp: Detected)
    requires IsAmbiguous(pains, dp, seqNo) && SameInCategory(pains, d.pains, dp.category)
    ensures Detect(d, seqNo, dp, true).pains == d.pains + [NewPain(dp, seqNo)]
  {
    var i, j :| 0 <= i < j < |pains| &&
                Promotable(pains[i], dp.category, seqNo) && Promotable(pains[j], dp.category, seqNo);
    assert Promotable(d.pains[i], dp.category, seqNo) && Promotable(d.pains[j], dp.category, seqNo);
    forall k | 0 <= k < |d.pains| ensures !d.pains[k].Owns(dp.category, dp.key) {
      if k < |pains| {
        assert if pains[k].category == dp.category then d.pains[k] == pains[k] else d.pains[k].category != dp.category;
      }
    }
  }

  /** What the detections of an event leave of a category whose identity was ambiguous. */
  ghost predicate OnlyCreated(a: seq<Pain>, b: seq<Pain>, dp: Detected) {
    && |a| < |b|
    && (forall i | 0 <= i < |a| :: if a[i].category == dp.category then b[i] == a[i] else b[i].category != dp.category)
    && (forall i | |a| <= i < |b| && b[i].category == dp.category ::
        b[i].id == PainId(dp.category, dp.key) && b[i].key == dp.key)
    && (exists i :: |a| <= i < |b| && b[i].id == PainId(dp.category, dp.key))
  }

  predicate OnePerCategory(dps: seq<Detected>) {
    forall i, j | 0 <= i < j < |dps| :: dps[i].category != dps[j].category
  }

  lemma {:induction false} AmbiguousDetections(pains: seq<Pain>, seqNo: int, dps: seq<Detected>, dp: Detected)
    requires OnePerCategory(dps) && dp in dps && IsAmbiguous(pains, dp, seqNo)
    ensures OnlyCreated(pains, DetectAll(pains, seqNo, dps, true).pains, dp)
  {
    var front, last := dps[..|dps| - 1], dps[|dps| - 1];
    assert dps == front + [last];
    var d := DetectAll(pains, seqNo, front, true);
    if last == dp {
      AmbiguousLast(pains, seqNo, front, dp);
    } else {
      var k :| 0 <= k < |dps| && dps[k] == dp;
      assert front[k] == dp;
      AmbiguousDetections(pains, seqNo, front, dp);
      assert dps[k].category != dps[|front|].category;
      OtherDetection(d, seqNo, last, true, dp.category);
      StillOnlyCreated(pains, d.pains, Detect(d, seqNo, last, true).pains, dp);
    }
  }

  lemma {:induction false} AmbiguousLast(pains: seq<Pain>, seqNo: int, front: seq<Detected>, dp: Detected)
    requires OnePerCategory(front + [dp]) && IsAmbiguous(pains, dp, seqNo)
    ensures OnlyCreated(pains, Detect(DetectAll(pains, seqNo, front, true), seqNo, dp, true).pains, dp)
  {
    var d := DetectAll(pains, seqNo, front, true);
    forall x | x in front ensures x.category != dp.category {
      var k :| 0 <= k < |front| && front[k] == x;
      assert (front + [dp])[k].category != (front + [dp])[|front|].category;
    }
    OtherDetections(pains, seqNo, front, true, dp.category);
    AmbiguousCreates(pains, d, seqNo, dp);
    CreatedOnly(pains, d.pains, dp, seqNo);
  }

  lemma CreatedOnly(a: seq<Pain>, b: seq<Pain>, dp: Detected, seqNo: int)
    requires SameInCategory(a, b, dp.category)
    ensures OnlyCreated(a, b + [NewPain(dp, seqNo)], dp)
  {
    assert (b + [NewPain(dp, seqNo)])[|b|].id == PainId(dp.category, dp.key);
  }

  lemma StillOnlyCreated(a: seq<Pain>, b: seq<Pain>, c: seq<Pain>, dp: Detected)
    requires OnlyCreated(a, b, dp) && SameInCategory(b, c, dp.category)
    requires forall i | 0 <= i < |b| :: b[i].id == c[i].id
    ensures OnlyCreated(a, c, dp)
  {
    var i :| |a| <= i < |b| && b[i].id == PainId(dp.category, dp.key);
    assert c[i].id == b[i].id;
  }

  lemma PriorIds(a: seq<Pain>, b: seq<Pain>)
    requires LinksUnchanged(a, b)
    ensures forall i | 0 <= i < |a| :: b[i].id in PainIds(a)
  {
    forall i | 0 <= i < |a| ensures b[i].id in PainIds(a) {
      assert a[i] in a;
    }
  }

  lemma {:induction false} AmbiguousReplaysNothing(cfg: Config, st: MeetingState, e: Event, dp: Detected)
    requires IdentityInv(st.pains) && cfg.allowPromotion
    requires dp in Analyze(cfg.rules, e).pains && IsAmbiguous(st.pains, dp, e.seqNo)
    ensures forall id | id in Created(cfg, st, e) :: id.category != dp.category
  {
    var after := PainsAfter(cfg, st, e);
    HearSetup(cfg, st, e);
    AmbiguousDetections(st.pains, e.seqNo, Analyze(cfg.rules, e).pains, dp);
    PriorIds(st.pains, after);
    assert (dp.category, dp.key) in Ambiguous(cfg, st.pains, e);
    OnlyCreatedReplaysNothing(st.pains, after, dp, e.seqNo, Ambiguous(cfg, st.pains, e));
  }

  lemma OnlyCreatedReplaysNothing(
    a: seq<Pain>, b: seq<Pain>, dp: Detected, seqNo: int, ambiguous: set<(Category, string)>)
    requires OnlyCreated(a, b, dp) && (dp.category, dp.key) in ambiguous
    requires forall i | 0 <= i < |b| :: Shaped(b, i)
    requires forall i | 0 <= i < |a| :: b[i].id in PainIds(a)
    ensures forall id | id in NewIds(a, b, seqNo, ambiguous) :: id.category != dp.category
  {
    forall id | id in NewIds(a, b, seqNo, ambiguous) ensures id.category != dp.category {
      var p :| p in b && p.id == id && p.id !in PainIds(a) && (p.category, p.key) !in ambiguous;
      var i :| 0 <= i < |b| && b[i] == p;
      assert Shaped(b, i) && i >= |a|;
    }
  }

  lemma {:induction false} AmbiguousHearRoutes(cfg: Config, st: MeetingState, e: Event, dp: Detected)
    requires IdentityInv(st.pains) && cfg.allowPromotion
    requires dp in Analyze(cfg.rules, e).pains && IsAmbiguous(st.pains, dp, e.seqNo)
    ensures OtherCategories(HearRoutes(cfg, st, e), dp.category)
  {
    var after := PainsAfter(cfg, st, e);
    HearSetup(cfg, st, e);
    HearRoutesIn(cfg, st, e);
    AmbiguousRoutesNothing(cfg, st, e, dp);
    AmbiguousReplaysNothing(cfg, st, e, dp);
    forall r | r in HearRoutes(cfg, st, e)
      ensures r.pain.category != dp.category && forall x | x in r.lineage :: x.category != dp.category
    {
      RoutedCategory(after, r);
      if r !in FirstRoutes(cfg, st, e) {
        var id :| id in Created(cfg, st, e);
        ReplayRoutesMatch(cfg.rules, after, Created(cfg, st, e), id, ContextOfLast(st.transcript + [e]));
      }
      forall x | x in r.lineage ensures x.category != dp.category {
        LineageCategory(after, x, r);
      }
    }
  }

  /**
    An ambiguous promotion never guesses: no problem of the category is renamed, the detected key gets a problem of
    its own, and the event adds no fact and no evidence to any fact of the category, replayed context included.
   */
  lemma {:induction false} AmbiguityNeverGuesses(cfg: Config, st: MeetingState, e: Event, dp: Detected)
    requires IdentityInv(st.pains) && FactsPlaced(st) && cfg.allowPromotion
    requires dp in Analyze(cfg.rules, e).pains && IsAmbiguous(st.pains, dp, e.seqNo)
    ensures OnlyCreated(st.pains, HearBoard(cfg, st, e).pains, dp)
    ensures var after := HearBoard(cfg, st, e).facts;
            && |st.facts| <= |after|
            && (forall i | 0 <= i < |st.facts| && st.facts[i].pain.category == dp.category :: after[i] == st.facts[i])
            && (forall i | |st.facts| <= i < |after| :: after[i].pain.category != dp.category)
  {
    AmbiguousDetections(st.pains, e.seqNo, Analyze(cfg.rules, e).pains, dp);
    HearNormalForm(cfg, st, e);
    AmbiguousHearRoutes(cfg, st, e, dp);
    CategoryUntouched(st.facts, HearRoutes(cfg, st, e), dp.category);
  }
}
