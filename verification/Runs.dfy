/** Laws over whole runs: any sequence of events, decisions and hints from the empty state. */
module Runs {
  import opened Contracts
  import opened Sequences
  import opened Templates
  import opened Analyzer
  import opened Reducer
  import opened Identity
  import opened FactLinks
  import opened GapLaws
  import opened Engine
  import opened EngineLaws
  import opened HearLaws
  import opened Invariants

  datatype Op =
    | HearOp(e: Event)
    | DecideOp(action: Action, ids: seq<PainId>, survivor: Option<PainId>)
    | ConfirmOp(hint: Hint)

  /** One call on the engine; a call that raises an error leaves the engine as it was. */
  function Step(cfg: Config, m: Memory, op: Op): Memory {
    match op
    case HearOp(e) => Hear(cfg, m, e)
    case DecideOp(action, ids, survivor) =>
      var r := Decide(cfg, m, action, ids, survivor);
      if r.Ok? then r.value else m
    case ConfirmOp(hint) =>
      var r := Confirm(cfg, m, hint);
      if r.Ok? then r.value else m
  }

  function RunFrom(cfg: Config, m: Memory, ops: seq<Op>): Memory {
    if ops == [] then m else Step(cfg, RunFrom(cfg, m, ops[..|ops| - 1]), ops[|ops| - 1])
  }

  function Run(cfg: Config, ops: seq<Op>): Memory {
    RunFrom(cfg, FRESH, ops)
  }

  lemma {:induction false} RunConcat(cfg: Config, m: Memory, a: seq<Op>, b: seq<Op>)
    ensures RunFrom(cfg, m, a + b) == RunFrom(cfg, RunFrom(cfg, m, a), b)
  {
    if b == [] {
      assert a + b == a;
    } else {
      RunConcat(cfg, m, a, b[..|b| - 1]);
      assert (a + b)[..|a + b| - 1] == a + b[..|b| - 1];
    }
  }

  /* ---------- the invariant ---------- */

  lemma {:induction false} StepKeeps(cfg: Config, m: Memory, op: Op)
    requires WellFormed(cfg.registry) && Inv(cfg, m)
    ensures Inv(cfg, Step(cfg, m, op)) && Evolves(m.state, Step(cfg, m, op).state)
  {
    EvolvesReflexive(m.state);
    match op
    case HearOp(e) => HearKeeps(cfg, m, e);
    case DecideOp(action, ids, survivor) =>
      if Decide(cfg, m, action, ids, survivor).Ok? {
        DecideKeeps(cfg, m, action, ids, survivor);
      }
    case ConfirmOp(hint) =>
      if Confirm(cfg, m, hint).Ok? {
        ConfirmKeeps(cfg, m, hint);
      }
  }

  /** From any good state, every run stays good and only extends what was there. */
  lemma {:induction false} RunKeeps(cfg: Config, m: Memory, ops: seq<Op>)
    requires WellFormed(cfg.registry) && Inv(cfg, m)
    ensures Inv(cfg, RunFrom(cfg, m, ops)) && Evolves(m.state, RunFrom(cfg, m, ops).state)
  {
    if ops == [] {
      EvolvesReflexive(m.state);
    } else {
      var before := RunFrom(cfg, m, ops[..|ops| - 1]);
      RunKeeps(cfg, m, ops[..|ops| - 1]);
      StepKeeps(cfg, before, ops[|ops| - 1]);
      EvolvesTransitive(m.state, before.state, RunFrom(cfg, m, ops).state);
    }
  }

  lemma {:induction false} Reachable(cfg: Config, ops: seq<Op>)
    requires WellFormed(cfg.registry)
    ensures Inv(cfg, Run(cfg, ops))
  {
    FreshInv(cfg);
    RunKeeps(cfg, FRESH, ops);
  }

  /**
    History is append-only over whole runs: between any two moments of a run, problems and facts keep their place,
    id and creation, evidence only grows, and only active facts change status.
   */
  lemma {:induction false} HistoryAppendOnly(cfg: Config, ops: seq<Op>, k: nat)
    requires WellFormed(cfg.registry) && k <= |ops|
    ensures Evolves(Run(cfg, ops[..k]).state, Run(cfg, ops).state)
  {
    Reachable(cfg, ops[..k]);
    assert ops == ops[..k] + ops[k..];
    RunConcat(cfg, FRESH, ops[..k], ops[k..]);
    RunKeeps(cfg, Run(cfg, ops[..k]), ops[k..]);
  }

  /** Every piece of evidence in a reachable state is an event of its transcript, and every fact has its problem. */
  lemma {:induction false} EverythingTraced(cfg: Config, ops: seq<Op>)
    requires WellFormed(cfg.registry)
    ensures var st := Run(cfg, ops).state;
            && DistinctEvents(st.transcript)
            && (forall p | p in st.pains ::
                  p.evidence != [] && forall e | e in p.evidence :: e in EventIds(st.transcript))
            && (forall f | f in st.facts ::
                  f.evidence != [] && forall e | e in f.evidence :: e in EventIds(st.transcript))
            && (forall f | f in st.facts :: exists p :: p in st.pains && p.id == f.pain)
  {
    Reachable(cfg, ops);
    var st := Run(cfg, ops).state;
    forall f | f in st.facts ensures exists p :: p in st.pains && p.id == f.pain {
      assert f.pain in PainIds(st.pains);
    }
  }

  /* ---------- identity ---------- */

  /** The keys that one call detects. */
  function DetectedKeys(cfg: Config, m: Memory, op: Op): set<(Category, string)> {
    match op
    case HearOp(e) =>
      if Accepts(m, e) then set dp | dp in Analyze(cfg.rules, e).pains :: (dp.category, dp.key) else {}
    case DecideOp(_, _, _) => {}
    case ConfirmOp(hint) =>
      if HintAccepted(cfg, m, hint)
      then set dp | dp in HintResult(cfg, hint, LatestCited(m.state.transcript, hint.evidence)).pains ::
          (dp.category, dp.key)
      else {}
  }

  lemma {:induction false} StepOwnsDetected(cfg: Config, m: Memory, op: Op, c: Category, k: string)
    requires WellFormed(cfg.registry) && Inv(cfg, m) && (c, k) in DetectedKeys(cfg, m, op)
    ensures FindOwner(Step(cfg, m, op).state.pains, c, k).Some?
  {
    match op
    case HearOp(e) =>
      HearPainsKeep(cfg, m, e);
      DetectAllKeeps(m.state.pains, e.seqNo, Analyze(cfg.rules, e).pains, cfg.allowPromotion);
    case DecideOp(_, _, _) =>
    case ConfirmOp(hint) =>
      var e := LatestCited(m.state.transcript, hint.evidence);
      DetectAllKeeps(m.state.pains, e.seqNo, HintResult(cfg, hint, e).pains, true);
  }

  /** Every key ever detected has exactly one unmerged owner, through renames and merges. */
  lemma {:induction false} DetectedKeysStayOwned(cfg: Config, ops: seq<Op>, i: nat, c: Category, k: string)
    requires WellFormed(cfg.registry) && i < |ops| && (c, k) in DetectedKeys(cfg, Run(cfg, ops[..i]), ops[i])
    ensures var pains := Run(cfg, ops).state.pains;
            exists o :: 0 <= o < |pains| && pains[o].Owns(c, k) &&
                        forall x | 0 <= x < |pains| && pains[x].Owns(c, k) :: x == o
  {
    Reachable(cfg, ops[..i]);
    Reachable(cfg, ops[..i + 1]);
    Reachable(cfg, ops);
    assert ops[..i + 1][..i] == ops[..i];
    StepOwnsDetected(cfg, Run(cfg, ops[..i]), ops[i], c, k);
    HistoryAppendOnly(cfg, ops, i + 1);
    var pains := Run(cfg, ops).state.pains;
    OwnershipPersists(Run(cfg, ops[..i + 1]).state.pains, pains, c, k);
    var o := FindOwner(pains, c, k).value;
    forall x | 0 <= x < |pains| && pains[x].Owns(c, k) ensures x == o {
      OwnerUnique(pains, c, k, x, o);
    }
  }

  /** Keys that one problem owned together at some moment are owned together ever after. */
  lemma {:induction false} KeysStayTogether(cfg: Config, ops: seq<Op>, n: nat, c: Category, k: string, l: string)
    requires WellFormed(cfg.registry) && n <= |ops|
    requires FindOwner(Run(cfg, ops[..n]).state.pains, c, k).Some?
    requires FindOwner(Run(cfg, ops[..n]).state.pains, c, l) == FindOwner(Run(cfg, ops[..n]).state.pains, c, k)
    ensures FindOwner(Run(cfg, ops).state.pains, c, k).Some?
    ensures FindOwner(Run(cfg, ops).state.pains, c, l) == FindOwner(Run(cfg, ops).state.pains, c, k)
  {
    Reachable(cfg, ops[..n]);
    Reachable(cfg, ops);
    HistoryAppendOnly(cfg, ops, n);
    OwnershipPersists(Run(cfg, ops[..n]).state.pains, Run(cfg, ops).state.pains, c, k);
  }

  /** In every reachable state ids are distinct and alias search agrees with pointer chasing for every key. */
  lemma {:induction false} IdentityPartition(cfg: Config, ops: seq<Op>)
    requires WellFormed(cfg.registry)
    ensures var pains := Run(cfg, ops).state.pains;
            && DistinctIds(pains)
            && (forall i, j | 0 <= i < j < |pains| :: Disjoint(pains, i, j))
            && (forall i, k | 0 <= i < |pains| && pains[i].HasKey(k) ::
                  var root := Root(pains, pains[i].id, |RetiredIds(pains)|);
                  root.Some? && FindOwner(pains, pains[i].category, k) == root &&
                  pains[root.value].category == pains[i].category)
  {
    Reachable(cfg, ops);
    var pains := Run(cfg, ops).state.pains;
    forall i, k | 0 <= i < |pains| && pains[i].HasKey(k)
      ensures FindOwner(pains, pains[i].category, k).Some?
      ensures FindOwner(pains, pains[i].category, k) == Root(pains, pains[i].id, |RetiredIds(pains)|)
    {
      AliasSearchFindsRoot(pains, i, k);
    }
  }

  /* ---------- links ---------- */

  /** Events arrive in increasing order, and no hint is confirmed (a hint reuses the number of an old event). */
  predicate InOrderRun(cfg: Config, ops: seq<Op>) {
    ops == [] ||
    (InOrderRun(cfg, ops[..|ops| - 1]) && InOrderStep(cfg, Run(cfg, ops[..|ops| - 1]), ops[|ops| - 1]))
  }

  /** What InOrderRun asks of one call. */
  predicate InOrderStep(cfg: Config, m: Memory, op: Op) {
    match op
    case HearOp(e) => Accepts(m, e) ==> forall t | t in m.state.transcript :: t.seqNo < e.seqNo
    case DecideOp(_, _, _) => true
    case ConfirmOp(hint) => !HintAccepted(cfg, m, hint)
  }

  lemma {:induction false} HearStepLinks(cfg: Config, m: Memory, e: Event)
    requires TidyRules(cfg.rules) && Inv(cfg, m) && LinkInv(m.state.facts) && InOrder(m.state)
    requires Accepts(m, e) && forall t | t in m.state.transcript :: t.seqNo < e.seqNo
    ensures LinkInv(Hear(cfg, m, e).state.facts) && InOrder(Hear(cfg, m, e).state)
  {
    var after := Hear(cfg, m, e).state;
    assert after.facts == HearBoard(cfg, m.state, e).facts && after.transcript == m.state.transcript + [e];
    HearKeepsLinks(cfg, m.state, e);
  }

  lemma {:induction false} DecideStepLinks(
    cfg: Config, m: Memory, action: Action, ids: seq<PainId>, survivor: Option<PainId>)
    requires Decide(cfg, m, action, ids, survivor).Ok?
    ensures var after := Decide(cfg, m, action, ids, survivor).value.state;
            after.facts == m.state.facts && after.transcript == m.state.transcript
  {
  }

  lemma {:induction false} StepKeepsLinks(cfg: Config, m: Memory, op: Op)
    requires TidyRules(cfg.rules) && Inv(cfg, m) && InOrderStep(cfg, m, op)
    requires LinkInv(m.state.facts) && InOrder(m.state)
    ensures LinkInv(Step(cfg, m, op).state.facts) && InOrder(Step(cfg, m, op).state)
  {
    match op
    case HearOp(e) =>
      if Accepts(m, e) {
        HearStepLinks(cfg, m, e);
      }
    case DecideOp(action, ids, survivor) =>
      if Decide(cfg, m, action, ids, survivor).Ok? {
        DecideStepLinks(cfg, m, action, ids, survivor);
      }
    case ConfirmOp(hint) =>
  }

  /** On ordered runs fact ids are unique and supersede and contradict links resolve both ways. */
  lemma {:induction false} LinksResolveAlways(cfg: Config, ops: seq<Op>)
    requires WellFormed(cfg.registry) && TidyRules(cfg.rules) && InOrderRun(cfg, ops)
    ensures LinkInv(Run(cfg, ops).state.facts) && InOrder(Run(cfg, ops).state)
  {
    if ops != [] {
      LinksResolveAlways(cfg, ops[..|ops| - 1]);
      Reachable(cfg, ops[..|ops| - 1]);
      StepKeepsLinks(cfg, Run(cfg, ops[..|ops| - 1]), ops[|ops| - 1]);
    }
  }

  /* ---------- gap history ---------- */

  predicate AnsweredAt(st: MeetingState, id: GapId) {
    var g := PriorOf(st.gaps, id);
    g.Some? && g.value.answered
  }

  predicate OpenAt(st: MeetingState, id: GapId) {
    var g := PriorOf(st.gaps, id);
    g.Some? && !g.value.answered
  }

  /** How often a gap went from answered to open between successive states of the run. */
  function Reopenings(cfg: Config, ops: seq<Op>, id: GapId): nat {
    if ops == [] then 0
    else
      var before := ops[..|ops| - 1];
      Reopenings(cfg, before, id) +
      if AnsweredAt(Run(cfg, before).state, id) && OpenAt(Run(cfg, ops).state, id) then 1 else 0
  }

  /** A step changes nothing, or publishes a gap table that means what TableOf says. */
  lemma {:induction false} StepPublishes(cfg: Config, m: Memory, op: Op, id: GapId)
    ensures var after := Step(cfg, m, op);
            after == m ||
            TableOf(cfg.registry, after.state.pains, after.state.facts, m.state.gaps, after.state.gaps, id)
  {
    var after := Step(cfg, m, op);
    GapTable(cfg.registry, after.state.pains, after.state.facts, m.state.gaps, id);
  }

  lemma TrackedBefore(cfg: Config, a: MeetingState, b: MeetingState, id: GapId)
    requires IdentityInv(a.pains) && DistinctIds(b.pains) && PainsEvolve(a.pains, b.pains)
    requires Tracked(cfg.registry, b.pains, id) && id.pain in PainIds(a.pains)
    ensures Tracked(cfg.registry, a.pains, id)
  {
    var i :| 0 <= i < |a.pains| && a.pains[i].id == id.pain;
    assert PainEvolves(a.pains[i], b.pains[i]) && Shaped(a.pains, i);
  }

  lemma TrackedIsKnown(cfg: Config, st: MeetingState, id: GapId)
    requires Tracked(cfg.registry, st.pains, id)
    ensures id.pain in PainIds(st.pains)
  {
    var i :| 0 <= i < |st.pains| && st.pains[i].id == id.pain;
    assert st.pains[i] in st.pains;
  }

  /** One step adds one to the count exactly when it reopens the gap; gaps of new problems start at zero. */
  lemma {:induction false} StepReopenCount(cfg: Config, m: Memory, op: Op, id: GapId)
    requires WellFormed(cfg.registry) && Inv(cfg, m)
    ensures var last, now := PriorOf(m.state.gaps, id), PriorOf(Step(cfg, m, op).state.gaps, id);
            var reopened := AnsweredAt(m.state, id) && OpenAt(Step(cfg, m, op).state, id);
            && (now.Some? && last.Some? ==>
                  now.value.reopenCount == last.value.reopenCount + if reopened then 1 else 0)
            && (now.Some? && last.None? ==> now.value.reopenCount == 0 && id.pain !in PainIds(m.state.pains))
            && (last.Some? ==> id.pain in PainIds(m.state.pains))
    ensures PainIds(m.state.pains) <= PainIds(Step(cfg, m, op).state.pains)
  {
    var after := Step(cfg, m, op).state;
    StepKeeps(cfg, m, op);
    StepPublishes(cfg, m, op, id);
    PainIdsGrow(m.state.pains, after.pains);
    assert GapMatches(cfg.registry, m.state, id) && GapMatches(cfg.registry, after, id);
    if Tracked(cfg.registry, m.state.pains, id) {
      TrackedIsKnown(cfg, m.state, id);
    } else if Tracked(cfg.registry, after.pains, id) && id.pain in PainIds(m.state.pains) {
      TrackedBefore(cfg, m.state, after, id);
    }
  }

  /** reopen_count is the number of times the gap went from answered to open, over any run. */
  lemma {:induction false} ReopenCountIsExact(cfg: Config, ops: seq<Op>, id: GapId)
    requires WellFormed(cfg.registry)
    ensures var g := PriorOf(Run(cfg, ops).state.gaps, id);
            g.Some? ==> g.value.reopenCount == Reopenings(cfg, ops, id)
    ensures id.pain !in PainIds(Run(cfg, ops).state.pains) ==> Reopenings(cfg, ops, id) == 0
  {
    if ops != [] {
      var front := ops[..|ops| - 1];
      ReopenCountIsExact(cfg, front, id);
      Reachable(cfg, front);
      StepReopenCount(cfg, Run(cfg, front), ops[|ops| - 1], id);
    }
  }

  /** In every reachable state a gap of the table is answered exactly when its lineage has an active fact. */
  lemma {:induction false} GapsAreCurrent(cfg: Config, ops: seq<Op>, id: GapId)
    requires WellFormed(cfg.registry)
    ensures var st := Run(cfg, ops).state;
            && (PriorOf(st.gaps, id).Some? <==> Tracked(cfg.registry, st.pains, id))
            && (AnsweredAt(st, id) <==> Tracked(cfg.registry, st.pains, id) && Answered(st.pains, st.facts, id))
  {
    Reachable(cfg, ops);
    assert GapMatches(cfg.registry, Run(cfg, ops).state, id);
  }

  lemma {:induction false} DecideBoard(
    cfg: Config, m: Memory, action: Action, ids: seq<PainId>, survivor: Option<PainId>)
    requires Decide(cfg, m, action, ids, survivor).Ok?
    ensures var d := DecisionOf(m.state, action, ids, survivor);
            var decided := ApplyDecision(m.state.pains, m.state.decisions, d);
            decided.Ok? && Decide(cfg, m, action, ids, survivor).value.state.pains == decided.value.pains
    ensures Decide(cfg, m, action, ids, survivor).value.state.facts == m.state.facts
  {
  }

  /** The gap table is a fixed point of its own computation. */
  ghost predicate GapsSettled(cfg: Config, st: MeetingState) {
    Gaps(cfg.registry, st.pains, st.facts, st.gaps) == st.gaps
  }

  /** At every moment of a run, recomputing the gaps would change nothing. */
  lemma {:induction false} GapsAlwaysSettled(cfg: Config, ops: seq<Op>)
    ensures GapsSettled(cfg, Run(cfg, ops).state)
  {
    if ops != [] {
      var m, op := Run(cfg, ops[..|ops| - 1]), ops[|ops| - 1];
      GapsAlwaysSettled(cfg, ops[..|ops| - 1]);
      StepSettles(cfg, m, op);
    }
  }

  lemma {:induction false} StepSettles(cfg: Config, m: Memory, op: Op)
    requires GapsSettled(cfg, m.state)
    ensures GapsSettled(cfg, Step(cfg, m, op).state)
  {
    var after := Step(cfg, m, op).state;
    GapsIdempotent(cfg.registry, after.pains, after.facts, m.state.gaps);
  }

  /** Repeating a decision is recorded by the version alone. */
  lemma {:induction false} RepeatedDecisionChangesNothing(
    cfg: Config, ops: seq<Op>, action: Action, ids: seq<PainId>, survivor: Option<PainId>)
    requires var st := Run(cfg, ops).state;
             var d := DecisionOf(st, action, ids, survivor);
             |d.pains| == 2 && !action.OtherAction? && Decided(st.decisions, d)
    ensures var r := Decide(cfg, Run(cfg, ops), action, ids, survivor);
            var st := Run(cfg, ops).state;
            r.Ok? && r.value.state == st.(version := st.version + 1, suggestions := r.value.state.suggestions)
  {
    GapsAlwaysSettled(cfg, ops);
  }

  /**
    An accepted call returns the decision that was asked for exactly when it is new or was recorded last. A repeat
    of an older decision returns another one.
   */
  lemma {:induction false} ReturnedDecisionIff(
    cfg: Config, m: Memory, action: Action, ids: seq<PainId>, survivor: Option<PainId>)
    requires Decide(cfg, m, action, ids, survivor).Ok?
    ensures var before, after := m.state.decisions, Decide(cfg, m, action, ids, survivor).value.state.decisions;
            var asked := DecisionOf(m.state, action, ids, survivor);
            after[|after| - 1].SameId(asked) <==> !Decided(before, asked) || before[|before| - 1].SameId(asked)
  {
    DecisionRecorded(m.state.pains, m.state.decisions, DecisionOf(m.state, action, ids, survivor));
  }

  /** No identity decision reopens a gap. */
  lemma {:induction false} DecisionsNeverReopen(
    cfg: Config, m: Memory, action: Action, ids: seq<PainId>, survivor: Option<PainId>, id: GapId)
    requires WellFormed(cfg.registry) && Inv(cfg, m) && Decide(cfg, m, action, ids, survivor).Ok?
    ensures AnsweredAt(m.state, id) ==> !OpenAt(Decide(cfg, m, action, ids, survivor).value.state, id)
  {
    var after := Decide(cfg, m, action, ids, survivor).value.state;
    var d := DecisionOf(m.state, action, ids, survivor);
    assert GapMatches(cfg.registry, m.state, id) && GapMatches(cfg.registry, after, id) by {
      DecideKeeps(cfg, m, action, ids, survivor);
    }
    DecideBoard(cfg, m, action, ids, survivor);
    DecisionKeeps(m.state.pains, m.state.decisions, d);
    if AnsweredAt(m.state, id) && Tracked(cfg.registry, after.pains, id) {
      DecisionKeepsTracked(cfg.registry, m.state, after, d, id);
    }
  }

  lemma {:induction false} DecisionKeepsTracked(reg: Registry, a: MeetingState, b: MeetingState, d: Decision, id: GapId)
    requires IdentityInv(a.pains) && ApplyDecision(a.pains, a.decisions, d).Ok?
    requires b.pains == ApplyDecision(a.pains, a.decisions, d).value.pains && b.facts == a.facts
    requires PainsEvolve(a.pains, b.pains) && |b.pains| == |a.pains|
    requires Answered(a.pains, a.facts, id) && Tracked(reg, b.pains, id)
    ensures Answered(b.pains, b.facts, id)
  {
    var x :| 0 <= x < |b.pains| && b.pains[x].id == id.pain && Asked(reg, b.pains[x]) &&
             id.slot in reg[b.pains[x].category].slots;
    assert PainEvolves(a.pains[x], b.pains[x]);
    assert GapId(a.pains[x].id, id.slot) == id;
    DecisionKeepsAnswer(a, d, x, id.slot);
  }

  lemma {:induction false} DecisionKeepsAnswer(st: MeetingState, d: Decision, x: nat, slot: Slot)
    requires IdentityInv(st.pains) && ApplyDecision(st.pains, st.decisions, d).Ok? && x < |st.pains|
    requires |ApplyDecision(st.pains, st.decisions, d).value.pains| == |st.pains|
    requires ApplyDecision(st.pains, st.decisions, d).value.pains[x].Live()
    requires Answered(st.pains, st.facts, GapId(st.pains[x].id, slot))
    ensures Answered(ApplyDecision(st.pains, st.decisions, d).value.pains, st.facts, GapId(st.pains[x].id, slot))
  {
    var merging := Merging(st.pains, st.decisions, d);
    if merging.Some? {
      MergeKeepsAnswers(st.pains, st.facts, merging.value.0, merging.value.1, x, slot);
    }
  }

  /* ---------- active facts ---------- */

  /** Routes to unmerged problems never cut a lineage of an unmerged problem. */
  lemma RoutedLineages(pains: seq<Pain>, rs: seq<Routed>, i: nat)
    requires DistinctIds(pains) && i < |pains| && pains[i].Live() && forall r | r in rs :: RoutedIn(pains, r)
    ensures forall r | r in rs :: r.pain in r.lineage &&
              (r.lineage == Lineage(pains, pains[i].id) || r.lineage !! Lineage(pains, pains[i].id))
  {
    forall r | r in rs
      ensures r.pain in r.lineage
      ensures r.lineage == Lineage(pains, pains[i].id) || r.lineage !! Lineage(pains, pains[i].id)
    {
      var j :| 0 <= j < |pains| && pains[j].id == r.pain && pains[j].Live() && r.lineage == Lineage(pains, r.pain);
      InLineage(pains, r.pain, r.pain);
      if i != j {
        LineagesDisjoint(pains, i, j);
      }
    }
  }

  /** Events and hints never raise the active count of a slot in a live lineage above max(1, its count before). */
  lemma {:induction false} StepActiveBound(cfg: Config, m: Memory, op: Op, i: nat, slot: Slot)
    requires WellFormed(cfg.registry) && Inv(cfg, m) && !op.DecideOp?
    requires i < |Step(cfg, m, op).state.pains| && Step(cfg, m, op).state.pains[i].Live()
    ensures var after := Step(cfg, m, op).state;
            var lineage := Lineage(after.pains, after.pains[i].id);
            ActiveCount(after.facts, lineage, slot) <= AtLeastOne(ActiveCount(m.state.facts, lineage, slot))
  {
    var after := Step(cfg, m, op).state;
    var lineage := Lineage(after.pains, after.pains[i].id);
    StepKeeps(cfg, m, op);
    match op
    case HearOp(e) =>
      if Accepts(m, e) {
        HearNormalForm(cfg, m.state, e);
        HearRoutesIn(cfg, m.state, e);
        RoutedLineages(after.pains, HearRoutes(cfg, m.state, e), i);
        AbsorbAllActiveCount(m.state.facts, HearRoutes(cfg, m.state, e), lineage, slot);
      }
    case DecideOp(_, _, _) =>
    case ConfirmOp(hint) =>
      if HintAccepted(cfg, m, hint) {
        HintRoutesIn(cfg, m, hint);
        RoutedLineages(after.pains, HintRoutes(cfg, m, hint), i);
        AbsorbAllActiveCount(m.state.facts, HintRoutes(cfg, m, hint), lineage, slot);
      }
  }

  lemma RetiredOrLive(pains: seq<Pain>)
    ensures forall i | 0 <= i < |pains| :: pains[i].Live() || pains[i].id in RetiredIds(pains)
  {
    forall i | 0 <= i < |pains| ensures pains[i].Live() || pains[i].id in RetiredIds(pains) {
      assert pains[i] in pains;
    }
  }

  lemma NothingMerged(pains: seq<Pain>, i: nat)
    requires RetiredIds(pains) == {} && i < |pains|
    ensures pains[i].Live() && Lineage(pains, pains[i].id) == {pains[i].id}
  {
    RetiredOrLive(pains);
    forall x ensures x in Lineage(pains, pains[i].id) <==> x == pains[i].id {
      InLineage(pains, pains[i].id, x);
    }
  }

  lemma RetiredShrinks(a: seq<Pain>, b: seq<Pain>)
    requires PainsEvolve(a, b) && RetiredIds(b) == {}
    ensures RetiredIds(a) == {}
  {
    RetiredOrLive(b);
    forall i | 0 <= i < |a| ensures a[i].Live() {
      assert PainEvolves(a[i], b[i]);
    }
  }

  lemma {:induction false} StepOneActive(cfg: Config, m: Memory, op: Op, pain: PainId, slot: Slot)
    requires WellFormed(cfg.registry) && Inv(cfg, m) && RetiredIds(Step(cfg, m, op).state.pains) == {}
    requires ActiveCount(m.state.facts, {pain}, slot) <= 1 && pain in PainIds(Step(cfg, m, op).state.pains)
    ensures ActiveCount(Step(cfg, m, op).state.facts, {pain}, slot) <= 1
  {
    var pains := Step(cfg, m, op).state.pains;
    if !op.DecideOp? {
      var i :| 0 <= i < |pains| && pains[i].id == pain;
      NothingMerged(pains, i);
      StepActiveBound(cfg, m, op, i, slot);
    } else if Decide(cfg, m, op.action, op.ids, op.survivor).Ok? {
      DecideBoard(cfg, m, op.action, op.ids, op.survivor);
    }
  }

  /** On runs that merge nothing, a problem has at most one active fact per slot. */
  lemma {:induction false} OneActivePerSlot(cfg: Config, ops: seq<Op>, pain: PainId, slot: Slot)
    requires WellFormed(cfg.registry) && RetiredIds(Run(cfg, ops).state.pains) == {}
    ensures ActiveCount(Run(cfg, ops).state.facts, {pain}, slot) <= 1
  {
    if ops != [] {
      var front, op := ops[..|ops| - 1], ops[|ops| - 1];
      var m, after := Run(cfg, front), Run(cfg, ops);
      Reachable(cfg, front);
      Reachable(cfg, ops);
      StepKeeps(cfg, m, op);
      RetiredShrinks(m.state.pains, after.state.pains);
      OneActivePerSlot(cfg, front, pain, slot);
      if pain in PainIds(after.state.pains) {
        StepOneActive(cfg, m, op, pain, slot);
      } else {
        UnplacedInactive(after.state, pain, slot);
      }
    }
  }

  lemma UnplacedInactive(st: MeetingState, pain: PainId, slot: Slot)
    requires FactsPlaced(st) && pain !in PainIds(st.pains)
    ensures ActiveCount(st.facts, {pain}, slot) == 0
  {
    NoneActive(st.facts, {pain}, slot);
  }

  /* ---------- recovery ---------- */

  /** What an engine remembers after it is rebuilt from a stored state. */
  function Recover(st: MeetingState): Memory {
    Memory(st, EventIds(st.transcript))
  }

  /** Crash recovery: stopping anywhere, rebuilding from the stored state and going on gives the uninterrupted run. */
  lemma {:induction false} RecoveryIsInvisible(cfg: Config, ops: seq<Op>, k: nat)
    requires WellFormed(cfg.registry) && cfg.allowPromotion && k <= |ops|
    ensures RunFrom(cfg.(allowPromotion := true), Recover(Run(cfg, ops[..k]).state), ops[k..]) == Run(cfg, ops)
  {
    Reachable(cfg, ops[..k]);
    assert ops == ops[..k] + ops[k..];
    RunConcat(cfg, FRESH, ops[..k], ops[k..]);
  }

  /** Non-final events and repeats of accepted events may be inserted anywhere without effect. */
  lemma {:induction false} IdleEventsAreInvisible(cfg: Config, ops: seq<Op>, k: nat, e: Event)
    requires WellFormed(cfg.registry) && k <= |ops|
    requires !e.isFinal || exists t :: t in Run(cfg, ops[..k]).state.transcript && t.id == e.id
    ensures Run(cfg, ops[..k] + [HearOp(e)] + ops[k..]) == Run(cfg, ops)
  {
    Reachable(cfg, ops[..k]);
    var before := Run(cfg, ops[..k]);
    assert ops == ops[..k] + ops[k..];
    RunConcat(cfg, FRESH, ops[..k], ops[k..]);
    RunConcat(cfg, FRESH, ops[..k] + [HearOp(e)], ops[k..]);
    RunConcat(cfg, FRESH, ops[..k], [HearOp(e)]);
    assert [HearOp(e)][..0] == [];
    assert Hear(cfg, before, e) == before;
  }
}
