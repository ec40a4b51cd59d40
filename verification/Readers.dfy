/**
  Which active fact each reader shows. The gap table names the first active fact of a slot, the draft shows the last
  one; after a merge they can be two.
 */
module Readers {
  import opened Contracts
  import opened Sequences
  import opened Templates
  import opened Reducer
  import opened Identity
  import opened FactLinks
  import opened GapLaws
  import opened Engine
  import opened EngineLaws
  import opened HearLaws
  import opened Invariants
  import opened Runs
  import opened Drafts

  function LastActive(facts: seq<Fact>, lineage: set<PainId>, slot: Slot): (r: Option<nat>)
    ensures r.Some? ==> r.value < |facts| && Holds(facts[r.value], lineage, slot)
    ensures r.Some? ==> forall j | r.value < j < |facts| :: !Holds(facts[j], lineage, slot)
    ensures r.None? ==> forall j | 0 <= j < |facts| :: !Holds(facts[j], lineage, slot)
  {
    if facts == [] then None
    else if Holds(facts[|facts| - 1], lineage, slot) then Some(|facts| - 1)
    else LastActive(facts[..|facts| - 1], lineage, slot)
  }

  lemma {:induction false} DraftShowsLast(facts: seq<Fact>, lineage: set<PainId>, slot: Slot)
    ensures var last := LastActive(facts, lineage, slot);
            && (slot in ActiveBySlot(facts, lineage) <==> last.Some?)
            && (last.Some? ==> ActiveBySlot(facts, lineage)[slot] == facts[last.value].value)
  {
    if facts != [] {
      DraftShowsLast(facts[..|facts| - 1], lineage, slot);
    }
  }

  /** The draft shows the value of the fact that resolves the gap of this slot, and nothing when no fact does. */
  predicate ReadersAgree(reg: Registry, st: MeetingState, id: PainId, slot: Slot) {
    var draft, first := BuildDraft(reg, st, id), FirstActive(st.facts, Lineage(st.pains, id), slot);
    && draft.Some?
    && (slot in draft.value.values <==> first.Some?)
    && (first.Some? ==> draft.value.values[slot] == st.facts[first.value].value)
  }

  /** In every reachable state the gap names that first active fact. */
  lemma {:induction false} GapNamesFirstActive(cfg: Config, ops: seq<Op>, id: GapId)
    ensures var st := Run(cfg, ops).state;
            var gap, first := PriorOf(st.gaps, id), FirstActive(st.facts, Lineage(st.pains, id.pain), id.slot);
            gap.Some? ==> gap.value.resolvedBy == if first.Some? then Some(st.facts[first.value].id) else None
  {
    var st := Run(cfg, ops).state;
    GapsAlwaysSettled(cfg, ops);
    GapsUpToShape(cfg.registry, st.pains, st.facts, st.gaps, |st.pains|);
    if PriorOf(st.gaps, id).Some? {
      var g := PriorOf(st.gaps, id).value;
      var i: nat, k: nat :| i < |st.pains| && FromPain(cfg.registry, st.pains, st.facts, st.gaps, i, k, g);
    }
  }

  /** The first and the last active fact of the slot have one value, or there is none. */
  predicate SameValue(facts: seq<Fact>, lineage: set<PainId>, slot: Slot) {
    var first, last := FirstActive(facts, lineage, slot), LastActive(facts, lineage, slot);
    first.Some? ==> facts[first.value].value == facts[last.value].value
  }

  lemma ReadersAgreeIff(reg: Registry, st: MeetingState, i: nat, slot: Slot)
    requires DistinctIds(st.pains) && i < |st.pains| && st.pains[i].category in reg
    ensures ReadersAgree(reg, st, st.pains[i].id, slot) <==>
            SameValue(st.facts, Lineage(st.pains, st.pains[i].id), slot)
  {
    assert IndexOf(st.pains, st.pains[i].id) == Some(i);
    DraftShowsLast(st.facts, Lineage(st.pains, st.pains[i].id), slot);
  }

  /* ---------- at most one active fact ---------- */

  lemma {:induction false} AtMostOne(facts: seq<Fact>, lineage: set<PainId>, slot: Slot, i: nat, j: nat)
    requires ActiveCount(facts, lineage, slot) <= 1 && i < |facts| && j < |facts|
    requires Holds(facts[i], lineage, slot) && Holds(facts[j], lineage, slot)
    ensures i == j
  {
    OneActive(facts, i, lineage, slot);
  }

  lemma {:induction false} OneActiveSameValue(facts: seq<Fact>, lineage: set<PainId>, slot: Slot)
    requires ActiveCount(facts, lineage, slot) <= 1
    ensures SameValue(facts, lineage, slot)
  {
    var first, last := FirstActive(facts, lineage, slot), LastActive(facts, lineage, slot);
    if first.Some? {
      AtMostOne(facts, lineage, slot, first.value, last.value);
    }
  }

  lemma {:induction false} ActiveCountUnion(facts: seq<Fact>, a: set<PainId>, b: set<PainId>, slot: Slot)
    requires a !! b
    ensures ActiveCount(facts, a + b, slot) == ActiveCount(facts, a, slot) + ActiveCount(facts, b, slot)
  {
    if facts != [] {
      ActiveCountUnion(facts[..|facts| - 1], a, b, slot);
    }
  }

  lemma {:induction false} CountIsNone(facts: seq<Fact>, lineage: set<PainId>, slot: Slot)
    ensures ActiveCount(facts, lineage, slot) == 0 <==> FirstActive(facts, lineage, slot).None?
  {
    CountZero(facts, lineage, slot);
  }

  /** Both sides hold an active fact of the slot, with different values. */
  predicate Clash(facts: seq<Fact>, a: set<PainId>, b: set<PainId>, slot: Slot) {
    var f, g := FirstActive(facts, a, slot), FirstActive(facts, b, slot);
    f.Some? && g.Some? && facts[f.value].value != facts[g.value].value
  }

  /** Two sides with at most one active fact each are shown alike exactly when they do not clash. */
  lemma {:induction false} UnionAgreesIff(facts: seq<Fact>, a: set<PainId>, b: set<PainId>, slot: Slot)
    requires ActiveCount(facts, a, slot) <= 1 && ActiveCount(facts, b, slot) <= 1
    ensures SameValue(facts, a + b, slot) <==> !Clash(facts, a, b, slot)
  {
    var f, g := FirstActive(facts, a, slot), FirstActive(facts, b, slot);
    var first, last := FirstActive(facts, a + b, slot), LastActive(facts, a + b, slot);
    if first.Some? {
      OneOfBoth(facts, a, b, slot, first.value);
      OneOfBoth(facts, a, b, slot, last.value);
    }
    assert f.Some? ==> Holds(facts[f.value], a + b, slot);
    assert g.Some? ==> Holds(facts[g.value], a + b, slot);
  }

  lemma {:induction false} OneOfBoth(facts: seq<Fact>, a: set<PainId>, b: set<PainId>, slot: Slot, i: nat)
    requires ActiveCount(facts, a, slot) <= 1 && ActiveCount(facts, b, slot) <= 1
    requires i < |facts| && Holds(facts[i], a + b, slot)
    ensures FirstActive(facts, a, slot) == Some(i) || FirstActive(facts, b, slot) == Some(i)
  {
    var side := if Holds(facts[i], a, slot) then a else b;
    AtMostOne(facts, side, slot, i, FirstActive(facts, side, slot).value);
  }

  /* ---------- superseding ---------- */

  /**
    When a hint becomes current. Statement k of an accepted hint supersedes the first active fact of its slot, and no
    other statement of the hint names that slot: the published gap is then resolved by a fact of the hint, with its
    value, exactly when the superseded fact was the only active one.
   */
  lemma {:induction false} HintResolvesIff(cfg: Config, ops: seq<Op>, hint: Hint, k: nat)
    requires WellFormed(cfg.registry) && HintAccepted(cfg, Run(cfg, ops), hint)
    requires var rs := HintRoutes(cfg, Run(cfg, ops), hint);
             k < |rs| && forall n | 0 <= n < |rs| && n != k :: rs[n].pf.slot != rs[k].pf.slot
    requires var facts, r := Run(cfg, ops).state.facts, HintRoutes(cfg, Run(cfg, ops), hint)[k];
             var found := FirstActive(facts, r.lineage, r.pf.slot);
             found.Some? && facts[found.value].value != r.pf.value
    ensures var facts, r := Run(cfg, ops).state.facts, HintRoutes(cfg, Run(cfg, ops), hint)[k];
            var after := Run(cfg, ops + [ConfirmOp(hint)]).state;
            var gap := PriorOf(after.gaps, GapId(r.pain, r.pf.slot));
            var now := FirstActive(after.facts, r.lineage, r.pf.slot);
            && r.lineage == Lineage(after.pains, r.pain)
            && Resolved(facts, after.facts, r)
            && (gap.Some? ==> gap.value.resolvedBy == Some(after.facts[now.value].id))
  {
    var m, rs := Run(cfg, ops), HintRoutes(cfg, Run(cfg, ops), hint);
    var r := rs[k];
    assert (ops + [ConfirmOp(hint)])[..|ops|] == ops;
    HintRoutesSupersede(cfg, m, hint);
    HintRoutesIn(cfg, m, hint);
    assert forall n | 0 <= n < |rs| :: rs[n] in rs && rs[n].pain in rs[n].lineage;
    SupersedingAmongOthers(m.state.facts, rs, k, FirstActive(m.state.facts, r.lineage, r.pf.slot).value);
    GapNamesFirstActive(cfg, ops + [ConfirmOp(hint)], GapId(r.pain, r.pf.slot));
  }

  lemma {:induction false} HintRoutesSupersede(cfg: Config, m: Memory, hint: Hint)
    requires HintAccepted(cfg, m, hint)
    ensures forall r | r in HintRoutes(cfg, m, hint) :: r.pf.relation == Supersede && r.pain in r.lineage
  {
    var e := LatestCited(m.state.transcript, hint.evidence);
    var result := HintResult(cfg, hint, e);
    var d := DetectAll(m.state.pains, e.seqNo, result.pains, true);
    RouteAllIn(d.pains, ContextOf(m.state.pains, d, e.seqNo, result, true), e.seqNo, e.id, result.facts);
    forall r | r in HintRoutes(cfg, m, hint) ensures r.pf.relation == Supersede && r.pain in r.lineage {
      assert StampedBy(r, e.seqNo, e.id, result.facts) && RoutedIn(d.pains, r);
      InLineage(d.pains, r.pain, r.pain);
    }
  }

  /* ---------- merges ---------- */

  /** The survivor and the merged problem, when the call merges two. */
  function MergedBy(cfg: Config, m: Memory, op: Op): (r: Option<(nat, nat)>)
    ensures r.Some? ==> MergesInto(m.state.pains, Step(cfg, m, op).state.pains, r.value.0, r.value.1)
    ensures r.None? && op.DecideOp? ==> Step(cfg, m, op).state.pains == m.state.pains
    ensures r.Some? || op.DecideOp? ==> Step(cfg, m, op).state.facts == m.state.facts
  {
    if op.DecideOp? && Decide(cfg, m, op.action, op.ids, op.survivor).Ok?
    then Merging(m.state.pains, m.state.decisions, DecisionOf(m.state, op.action, op.ids, op.survivor))
    else None
  }

  /** What the readers show of the survivor s after problem x is merged into it, in terms of the state before. */
  ghost predicate MergeShows(reg: Registry, st: MeetingState, after: MeetingState, s: nat, x: nat, slot: Slot)
    requires s < |st.pains| && x < |st.pains|
  {
    var mine, other := Lineage(st.pains, st.pains[s].id), {st.pains[x].id};
    && (ReadersAgree(reg, after, st.pains[s].id, slot) <==> SameValue(st.facts, mine + other, slot))
    && (ActiveCount(st.facts, mine, slot) <= 1 && ActiveCount(st.facts, other, slot) <= 1 ==>
        (ReadersAgree(reg, after, st.pains[s].id, slot) <==> !Clash(st.facts, mine, other, slot)))
  }

  lemma {:induction false} MergedStateAgreesIff(
    reg: Registry, st: MeetingState, after: MeetingState, s: nat, x: nat, slot: Slot)
    requires DistinctIds(st.pains) && s < |st.pains| && x < |st.pains| && s != x
    requires st.pains[s].Live() && st.pains[x].Live()
    requires after.pains == MergeAt(st.pains, s, x) && after.facts == st.facts && st.pains[s].category in reg
    ensures MergeShows(reg, st, after, s, x, slot)
  {
    var mine, other := Lineage(st.pains, st.pains[s].id), {st.pains[x].id};
    MergeLineages(st.pains, s, x, s);
    MergeLinks(st.pains, s, x);
    ReadersAgreeIff(reg, after, s, slot);
    if ActiveCount(st.facts, mine, slot) <= 1 && ActiveCount(st.facts, other, slot) <= 1 {
      UnionAgreesIff(st.facts, mine, other, slot);
    }
  }

  /**
    After any merge of any run the two readers agree on a slot of the survivor exactly when the first and the last of
    the active facts that the two sides hold before the call have one value. With at most one on each side, they agree
    exactly when the two sides do not hold different values.
   */
  lemma {:induction false} MergedReadersAgreeIff(cfg: Config, ops: seq<Op>, op: Op, slot: Slot)
    requires WellFormed(cfg.registry) && MergedBy(cfg, Run(cfg, ops), op).Some?
    requires var st, s := Run(cfg, ops).state, MergedBy(cfg, Run(cfg, ops), op).value.0;
             st.pains[s].category in cfg.registry
    ensures var (s, x) := MergedBy(cfg, Run(cfg, ops), op).value;
            MergeShows(cfg.registry, Run(cfg, ops).state, Run(cfg, ops + [op]).state, s, x, slot)
  {
    var (s, x) := MergedBy(cfg, Run(cfg, ops), op).value;
    assert (ops + [op])[..|ops|] == ops;
    Reachable(cfg, ops);
    MergedStateAgreesIff(cfg.registry, Run(cfg, ops).state, Run(cfg, ops + [op]).state, s, x, slot);
  }

  /* ---------- runs whose merges share no slot ---------- */

  predicate OneActiveAt(st: MeetingState, i: nat, slot: Slot) {
    i < |st.pains| && st.pains[i].Live() ==> ActiveCount(st.facts, Lineage(st.pains, st.pains[i].id), slot) <= 1
  }

  /** No slot has an active fact on both sides. */
  ghost predicate NoSharedSlot(st: MeetingState, s: nat, x: nat)
    requires s < |st.pains| && x < |st.pains|
  {
    forall slot :: FirstActive(st.facts, Lineage(st.pains, st.pains[s].id), slot).None? ||
                   FirstActive(st.facts, {st.pains[x].id}, slot).None?
  }

  ghost predicate CarefulStep(cfg: Config, m: Memory, op: Op) {
    var merged := MergedBy(cfg, m, op);
    merged.Some? ==> NoSharedSlot(m.state, merged.value.0, merged.value.1)
  }

  /** Every merge of the run joins two sides that share no answered slot. */
  ghost predicate CarefulRun(cfg: Config, ops: seq<Op>) {
    ops == [] ||
    (CarefulRun(cfg, ops[..|ops| - 1]) && CarefulStep(cfg, Run(cfg, ops[..|ops| - 1]), ops[|ops| - 1]))
  }

  lemma LineageKept(a: seq<Pain>, b: seq<Pain>, i: nat)
    requires LinksUnchanged(a, b) && DistinctIds(b) && i < |a|
    ensures Lineage(b, b[i].id) == Lineage(a, a[i].id)
  {
    forall x ensures x in Lineage(b, b[i].id) <==> x in Lineage(a, a[i].id) {
      InLineage(a, a[i].id, x);
      InLineage(b, b[i].id, x);
    }
  }

  lemma {:induction false} NewLineage(a: seq<Pain>, b: seq<Pain>, i: nat)
    requires IdentityInv(a) && LinksUnchanged(a, b) && DistinctIds(b) && |a| <= i < |b|
    ensures Lineage(b, b[i].id) == {b[i].id} && b[i].id !in PainIds(a)
  {
    forall k | 0 <= k < |a| ensures a[k].id != b[i].id {
      assert b[k].id == a[k].id;
    }
    forall j | 0 <= j < |b| ensures b[j].mergedInto != Some(b[i].id) {
      if j < |a| {
        assert LinkCovered(a, j);
      }
    }
    forall x ensures x in Lineage(b, b[i].id) <==> x == b[i].id {
      InLineage(b, b[i].id, x);
    }
  }

  lemma {:induction false} StepLinks(cfg: Config, m: Memory, op: Op)
    requires WellFormed(cfg.registry) && Inv(cfg, m) && !op.DecideOp?
    ensures LinksUnchanged(m.state.pains, Step(cfg, m, op).state.pains)
  {
    match op
    case HearOp(e) =>
      if Accepts(m, e) {
        HearNormalForm(cfg, m.state, e);
        HearSetup(cfg, m.state, e);
      }
    case DecideOp(_, _, _) =>
    case ConfirmOp(hint) =>
      if HintAccepted(cfg, m, hint) {
        var e := LatestCited(m.state.transcript, hint.evidence);
        DetectAllLinks(m.state.pains, e.seqNo, HintResult(cfg, hint, e).pains, true);
      }
  }

  lemma {:induction false} StatementKeepsOneActive(cfg: Config, m: Memory, op: Op, i: nat, slot: Slot)
    requires WellFormed(cfg.registry) && Inv(cfg, m) && !op.DecideOp? && forall k :: OneActiveAt(m.state, k, slot)
    ensures OneActiveAt(Step(cfg, m, op).state, i, slot)
  {
    var st, after := m.state, Step(cfg, m, op).state;
    if i < |after.pains| && after.pains[i].Live() {
      StepKeeps(cfg, m, op);
      StepLinks(cfg, m, op);
      StepActiveBound(cfg, m, op, i, slot);
      if i < |st.pains| {
        LineageKept(st.pains, after.pains, i);
        assert OneActiveAt(st, i, slot);
      } else {
        NewLineage(st.pains, after.pains, i);
        UnplacedInactive(st, after.pains[i].id, slot);
      }
    }
  }

  lemma {:induction false} PartInLineage(st: MeetingState, i: nat, slot: Slot)
    requires i < |st.pains| && st.pains[i].Live() && OneActiveAt(st, i, slot)
    ensures ActiveCount(st.facts, {st.pains[i].id}, slot) <= 1
  {
    var own, lineage := {st.pains[i].id}, Lineage(st.pains, st.pains[i].id);
    InLineage(st.pains, st.pains[i].id, st.pains[i].id);
    ActiveCountUnion(st.facts, own, lineage - own, slot);
    assert own + (lineage - own) == lineage;
  }

  /** A merge leaves the survivor at most one active fact of a slot exactly when only one side holds any. */
  lemma {:induction false} MergeKeepsOneActiveIff(st: MeetingState, after: MeetingState, s: nat, x: nat, slot: Slot)
    requires DistinctIds(st.pains) && s < |st.pains| && x < |st.pains| && s != x
    requires st.pains[s].Live() && st.pains[x].Live()
    requires after.pains == MergeAt(st.pains, s, x) && after.facts == st.facts
    requires OneActiveAt(st, s, slot) && OneActiveAt(st, x, slot)
    ensures OneActiveAt(after, s, slot) <==>
            FirstActive(st.facts, Lineage(st.pains, st.pains[s].id), slot).None? ||
            FirstActive(st.facts, {st.pains[x].id}, slot).None?
  {
    var mine, other := Lineage(st.pains, st.pains[s].id), {st.pains[x].id};
    MergeLineages(st.pains, s, x, s);
    MergeLinks(st.pains, s, x);
    PartInLineage(st, x, slot);
    InLineage(st.pains, st.pains[s].id, st.pains[x].id);
    ActiveCountUnion(st.facts, mine, other, slot);
    CountIsNone(st.facts, mine, slot);
    CountIsNone(st.facts, other, slot);
  }

  lemma {:induction false} MergeLeavesOthers(st: MeetingState, after: MeetingState, s: nat, x: nat, i: nat, slot: Slot)
    requires DistinctIds(st.pains) && s < |st.pains| && x < |st.pains| && s != x
    requires st.pains[s].Live() && st.pains[x].Live()
    requires after.pains == MergeAt(st.pains, s, x) && after.facts == st.facts
    requires i != s && OneActiveAt(st, i, slot)
    ensures OneActiveAt(after, i, slot)
  {
    MergeLinks(st.pains, s, x);
    if i < |st.pains| && i != x && st.pains[i].Live() {
      MergeLineages(st.pains, s, x, i);
      assert Lineage(after.pains, after.pains[i].id) == Lineage(st.pains, st.pains[i].id);
    }
  }

  lemma {:induction false} CarefulStepKeeps(cfg: Config, m: Memory, op: Op, i: nat, slot: Slot)
    requires WellFormed(cfg.registry) && Inv(cfg, m) && CarefulStep(cfg, m, op)
    requires forall k :: OneActiveAt(m.state, k, slot)
    ensures OneActiveAt(Step(cfg, m, op).state, i, slot)
  {
    if !op.DecideOp? {
      StatementKeepsOneActive(cfg, m, op, i, slot);
    } else if MergedBy(cfg, m, op).Some? {
      var (s, x) := MergedBy(cfg, m, op).value;
      assert OneActiveAt(m.state, i, slot) && OneActiveAt(m.state, x, slot);
      if i == s {
        MergeKeepsOneActiveIff(m.state, Step(cfg, m, op).state, s, x, slot);
      } else {
        MergeLeavesOthers(m.state, Step(cfg, m, op).state, s, x, i, slot);
      }
    } else {
      assert OneActiveAt(m.state, i, slot);
    }
  }

  lemma {:induction false} CarefulRunsKeepOneActive(cfg: Config, ops: seq<Op>, slot: Slot)
    requires WellFormed(cfg.registry) && CarefulRun(cfg, ops)
    ensures forall i :: OneActiveAt(Run(cfg, ops).state, i, slot)
  {
    if ops != [] {
      var m := Run(cfg, ops[..|ops| - 1]);
      CarefulRunsKeepOneActive(cfg, ops[..|ops| - 1], slot);
      Reachable(cfg, ops[..|ops| - 1]);
      forall i ensures OneActiveAt(Run(cfg, ops).state, i, slot) {
        CarefulStepKeeps(cfg, m, ops[|ops| - 1], i, slot);
      }
    }
  }

  /** As long as merges join sides that share no slot, the draft shows the fact that resolves the gap. */
  lemma {:induction false} CarefulRunsAgree(cfg: Config, ops: seq<Op>, i: nat, slot: Slot)
    requires WellFormed(cfg.registry) && CarefulRun(cfg, ops)
    requires i < |Run(cfg, ops).state.pains| && Asked(cfg.registry, Run(cfg, ops).state.pains[i])
    ensures ReadersAgree(cfg.registry, Run(cfg, ops).state, Run(cfg, ops).state.pains[i].id, slot)
  {
    var st := Run(cfg, ops).state;
    Reachable(cfg, ops);
    CarefulRunsKeepOneActive(cfg, ops, slot);
    assert OneActiveAt(st, i, slot);
    OneActiveSameValue(st.facts, Lineage(st.pains, st.pains[i].id), slot);
    ReadersAgreeIff(cfg.registry, st, i, slot);
  }

  /** The first merge that shares a slot separates the readers exactly when the two sides hold different values. */
  lemma {:induction false} CarefulThenMergeIff(cfg: Config, ops: seq<Op>, op: Op, slot: Slot)
    requires WellFormed(cfg.registry) && CarefulRun(cfg, ops) && MergedBy(cfg, Run(cfg, ops), op).Some?
    requires var st, s := Run(cfg, ops).state, MergedBy(cfg, Run(cfg, ops), op).value.0;
             st.pains[s].category in cfg.registry
    ensures var st := Run(cfg, ops).state;
            var (s, x) := MergedBy(cfg, Run(cfg, ops), op).value;
            ReadersAgree(cfg.registry, Run(cfg, ops + [op]).state, st.pains[s].id, slot) <==>
            !Clash(st.facts, Lineage(st.pains, st.pains[s].id), {st.pains[x].id}, slot)
  {
    var st := Run(cfg, ops).state;
    var (s, x) := MergedBy(cfg, Run(cfg, ops), op).value;
    CarefulRunsKeepOneActive(cfg, ops, slot);
    assert OneActiveAt(st, s, slot) && OneActiveAt(st, x, slot);
    PartInLineage(st, x, slot);
    MergedReadersAgreeIff(cfg, ops, op, slot);
  }
}
