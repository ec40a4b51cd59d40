/** What one statement does to the fact log, told by the fields of the facts, and what calls do by such steps. */
module FactOutcomes {
  import opened Contracts
  import opened Sequences
  import opened Templates
  import opened Reducer
  import opened Identity
  import opened Engine
  import opened HearLaws
  import opened Routing
  import opened Invariants
  import opened Runs
  import opened Detections

  /** The fact that statement r makes, with its links to an earlier fact. */
  function Made(r: Routed, status: FactStatus, supersedes: Option<FactId>, contradicts: seq<FactId>): Fact {
    Fact(FactId(r.pain, r.pf.slot, r.seqNo), r.pain, r.pf.slot, r.pf.value, r.pf.kind, r.pf.origin, status,
         [r.eventId], supersedes, None, contradicts, r.seqNo)
  }

  /** The first active fact of the slot among the problems of the lineage. */
  predicate Current(facts: seq<Fact>, lineage: set<PainId>, slot: Slot, n: nat) {
    && n < |facts| && facts[n].pain in lineage && facts[n].slot == slot && facts[n].status == Active
    && forall i | 0 <= i < n ::
         facts[i].pain !in lineage || facts[i].slot != slot || facts[i].status != Active
  }

  /** The current fact says the same: it gains the event as evidence. */
  ghost predicate Corroborates(f: Fact, g: Fact, r: Routed) {
    && f.value == r.pf.value && g == f.(evidence := g.evidence)
    && NoDup(g.evidence) && forall x :: x in g.evidence <==> x in f.evidence || x == r.eventId
  }

  /** A contradiction counts unless evidence meets an inference; otherwise the statement supersedes. */
  predicate Contradicts(f: Fact, r: Routed) {
    f.value != r.pf.value && r.pf.relation == Contradict && (f.kind == Evidence || r.pf.kind == Inference)
  }

  /** The current fact and the new one contradict each other, and each names the other. */
  ghost predicate Clashes(f: Fact, g: Fact, h: Fact, r: Routed) {
    && g == f.(status := Contradicted, contradicts := g.contradicts)
    && NoDup(g.contradicts) && (forall x :: x in g.contradicts <==> x in f.contradicts || x == h.id)
    && h == Made(r, Contradicted, None, [f.id])
  }

  /** The new fact takes the place of the current one, and each names the other. */
  predicate Supersedes(f: Fact, g: Fact, h: Fact, r: Routed) {
    g == f.(status := Superseded, supersededBy := Some(h.id)) && h == Made(r, Active, Some(f.id), [])
  }

  /** What one statement does to the log. */
  ghost predicate FactOutcome(before: seq<Fact>, after: seq<Fact>, r: Routed) {
    if exists n: nat :: Current(before, r.lineage, r.pf.slot, n) then
      exists n: nat :: Current(before, r.lineage, r.pf.slot, n) && |before| <= |after| &&
        (forall i | 0 <= i < |before| && i != n :: after[i] == before[i]) &&
        var f, g := before[n], after[n];
        if f.value == r.pf.value then |after| == |before| && Corroborates(f, g, r)
        else
          |after| == |before| + 1 &&
          if Contradicts(f, r) then Clashes(f, g, after[|before|], r) else Supersedes(f, g, after[|before|], r)
    else after == before + [Made(r, Active, None, [])]
  }

  lemma AbsorbOutcome(facts: seq<Fact>, r: Routed)
    ensures FactOutcome(facts, Absorb(facts, r), r)
  {
    var found := FirstActive(facts, r.lineage, r.pf.slot);
    if found.Some? {
      assert Current(facts, r.lineage, r.pf.slot, found.value);
    } else if n: nat :| Current(facts, r.lineage, r.pf.slot, n) {
      assert Holds(facts[n], r.lineage, r.pf.slot);
    }
  }

  /** The logs lead from one state to the other, one statement at a time. */
  ghost predicate Leads(logs: seq<seq<Fact>>, before: seq<Fact>, after: seq<Fact>, rs: seq<Routed>) {
    && |logs| == |rs| + 1 && logs[0] == before && logs[|rs|] == after
    && forall i | 0 <= i < |rs| :: FactOutcome(logs[i], logs[i + 1], rs[i])
  }

  lemma {:induction false} AbsorbAllLeads(facts: seq<Fact>, rs: seq<Routed>) returns (logs: seq<seq<Fact>>)
    ensures Leads(logs, facts, AbsorbAll(facts, rs), rs)
  {
    logs := [facts];
    if rs != [] {
      var n := |rs| - 1;
      var front := AbsorbAllLeads(facts, rs[..n]);
      AbsorbOutcome(AbsorbAll(facts, rs[..n]), rs[n]);
      logs := front + [AbsorbAll(facts, rs)];
      forall i | 0 <= i < |rs| ensures FactOutcome(logs[i], logs[i + 1], rs[i]) {
        assert i < n ==> FactOutcome(front[i], front[i + 1], rs[..n][i]);
      }
    }
  }

  /** An accepted event works its routed statements into the log one after the other, and does nothing else to it. */
  lemma {:induction false} EventStatementsApply(cfg: Config, ops: seq<Op>, e: Event) returns (logs: seq<seq<Fact>>)
    requires WellFormed(cfg.registry) && Accepts(Run(cfg, ops), e)
    ensures Leads(logs, Run(cfg, ops).state.facts, Run(cfg, ops + [HearOp(e)]).state.facts,
                  HearRoutes(cfg, Run(cfg, ops).state, e))
  {
    var st := Run(cfg, ops).state;
    assert Run(cfg, ops + [HearOp(e)]).state.facts == AbsorbAll(st.facts, HearRoutes(cfg, st, e)) by {
      assert (ops + [HearOp(e)])[..|ops|] == ops;
      Reachable(cfg, ops);
      HearNormalForm(cfg, st, e);
    }
    logs := AbsorbAllLeads(st.facts, HearRoutes(cfg, st, e));
  }

  /** So does an accepted hint. */
  lemma {:induction false} HintStatementsApply(cfg: Config, ops: seq<Op>, hint: Hint) returns (logs: seq<seq<Fact>>)
    requires HintAccepted(cfg, Run(cfg, ops), hint)
    ensures Leads(logs, Run(cfg, ops).state.facts, Run(cfg, ops + [ConfirmOp(hint)]).state.facts,
                  HintRoutes(cfg, Run(cfg, ops), hint))
  {
    assert (ops + [ConfirmOp(hint)])[..|ops|] == ops;
    logs := AbsorbAllLeads(Run(cfg, ops).state.facts, HintRoutes(cfg, Run(cfg, ops), hint));
  }

  /* ---------- the statements of a hint ---------- */

  lemma {:induction false} RouteAllTo(
    pains: seq<Pain>, ctx: Context, seqNo: int, eventId: string, pfs: seq<Proposed>, i: nat)
    requires i < |pains| && forall pf | pf in pfs :: Target(pains, ctx, pf) == Some(i)
    ensures var rs := RouteAll(pains, ctx, seqNo, eventId, pfs);
            |rs| == |pfs| && forall n | 0 <= n < |rs| ::
              rs[n] == Routed(pains[i].id, Lineage(pains, pains[i].id), seqNo, eventId, pfs[n])
  {
    if pfs != [] {
      var front, pf := pfs[..|pfs| - 1], pfs[|pfs| - 1];
      assert pfs == front + [pf];
      RouteAllTo(pains, ctx, seqNo, eventId, front, i);
    }
  }

  lemma {:induction false} RouteAllNowhere(
    pains: seq<Pain>, ctx: Context, seqNo: int, eventId: string, pfs: seq<Proposed>)
    requires forall pf | pf in pfs :: Target(pains, ctx, pf) == None
    ensures RouteAll(pains, ctx, seqNo, eventId, pfs) == []
  {
    if pfs != [] {
      var front, pf := pfs[..|pfs| - 1], pfs[|pfs| - 1];
      assert pfs == front + [pf];
      RouteAllNowhere(pains, ctx, seqNo, eventId, front);
    }
  }

  /** Statement n of the hint, routed to problem i as a statement of event t that supersedes. */
  predicate HintRoute(hint: Hint, t: Event, key: string, pains: seq<Pain>, i: nat, n: nat, r: Routed)
    requires i < |pains| && n < |hint.facts|
  {
    r == Routed(pains[i].id, Lineage(pains, pains[i].id), t.seqNo, t.id,
                Proposed(hint.category, hint.facts[n].slot, hint.facts[n].value, Some(key), hint.facts[n].kind,
                         Supersede, SemanticConfirmed))
  }

  /**
    The statements of an accepted hint go, all of them and in order, to the problem that owns the key of its identity,
    or nowhere if several provisional problems could be meant by it.
   */
  lemma {:induction false} HintStatementsRouted(
    cfg: Config, ops: seq<Op>, hint: Hint, t: Event, identity: ProblemIdentity)
    requires WellFormed(cfg.registry) && HintAccepted(cfg, Run(cfg, ops), hint)
    requires HintIdentity(cfg, Run(cfg, ops).state.transcript, hint, t, identity)
    ensures var before, after := Run(cfg, ops).state.pains, Run(cfg, ops + [ConfirmOp(hint)]).state.pains;
            var dp := Detected(hint.category, hint.evidence[0], identity.key, identity.anchored);
            var rs, owner := HintRoutes(cfg, Run(cfg, ops), hint), FindOwner(after, hint.category, identity.key);
            if SeveralMeant(before, dp, t.seqNo) then rs == []
            else owner.Some? && |rs| == |hint.facts| && forall n | 0 <= n < |rs| ::
              HintRoute(hint, t, identity.key, after, owner.value, n, rs[n])
  {
    var m := Run(cfg, ops);
    Reachable(cfg, ops);
    HintDetection(cfg, m, hint, t, identity);
    assert Run(cfg, ops + [ConfirmOp(hint)]).state.pains == HintPains(cfg, m, hint) by {
      assert (ops + [ConfirmOp(hint)])[..|ops|] == ops;
    }
    HintRouting(cfg, m.state.pains, hint, t, identity);
  }

  lemma {:induction false} HintRouting(
    cfg: Config, pains: seq<Pain>, hint: Hint, t: Event, identity: ProblemIdentity)
    requires IdentityInv(pains) && hint.evidence != []
    requires HintResult(cfg, hint, t).pains ==
             [Detected(hint.category, hint.evidence[0], identity.key, identity.anchored)]
    ensures var result := HintResult(cfg, hint, t);
            var after := DetectAll(pains, t.seqNo, result.pains, true).pains;
            var rs, owner := Routes(pains, t.seqNo, t.id, result, true), FindOwner(after, hint.category, identity.key);
            if SeveralMeant(pains, result.pains[0], t.seqNo) then rs == []
            else owner.Some? && |rs| == |hint.facts| && forall n | 0 <= n < |rs| ::
              HintRoute(hint, t, identity.key, after, owner.value, n, rs[n])
  {
    var result := HintResult(cfg, hint, t);
    var d := DetectAll(pains, t.seqNo, result.pains, true);
    var ctx := ContextOf(pains, d, t.seqNo, result, true);
    var owner := FindOwner(d.pains, hint.category, identity.key);
    DetectAllKeeps(pains, t.seqNo, result.pains, true);
    assert result.pains[0] in result.pains && owner.Some?;
    SeveralMeantIff(pains, result.pains[0], t.seqNo);
    assert (hint.category, identity.key) in ctx.ambiguous <==> SeveralMeant(pains, result.pains[0], t.seqNo);
    forall pf | pf in result.facts
      ensures Target(d.pains, ctx, pf) == if SeveralMeant(pains, result.pains[0], t.seqNo) then None else owner
    {
      var n :| 0 <= n < |result.facts| && result.facts[n] == pf;
      KeyedFactsGoToOwners(pains, t.seqNo, result, true, pf);
    }
    if SeveralMeant(pains, result.pains[0], t.seqNo) {
      RouteAllNowhere(d.pains, ctx, t.seqNo, t.id, result.facts);
    } else {
      RouteAllTo(d.pains, ctx, t.seqNo, t.id, result.facts, owner.value);
    }
  }
}
