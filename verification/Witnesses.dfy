/** Short meetings on which natural-looking properties fail. */
module Witnesses {
  import opened Contracts
  import opened Sequences
  import opened Templates
  import opened Reducer
  import opened Identity
  import opened FactLinks
  import opened GapLaws
  import opened Engine
  import opened Invariants
  import opened Runs
  import opened Drafts
  import opened Readers
  import opened Meetings

  /* ---------- the draft shows another fact than the gap names ---------- */

  lemma PairHeard(a: Event, b: Event)
    requires Spaced([a, b])
    ensures var st := Run(CFG, Hearing([a, b])).state;
            && st.pains == [ProblemOf(a), ProblemOf(b)] && st.facts == FactsOf(a) + FactsOf(b)
            && st.transcript == [a, b] && st.decisions == [] && st.confirmedHints == []
    ensures IdOf(a.id) != IdOf(b.id)
  {
    assert [a, b][0].id != [a, b][1].id;
    HearAll([a, b]);
    assert [a, b][..1] == [a] && [a][..0] == [];
    assert AllFactsOf([a]) == FactsOf(a);
  }

  /** Two problems, merged into the first. */
  function Merged(a: Event, b: Event): seq<Op> {
    Hearing([a, b]) + [DecideOp(Merge, [IdOf(a.id), IdOf(b.id)], Some(IdOf(a.id)))]
  }

  lemma MergedState(a: Event, b: Event)
    requires Spaced([a, b])
    ensures var st := Run(CFG, Merged(a, b)).state;
            && st.pains == MergeAt([ProblemOf(a), ProblemOf(b)], 0, 1) && st.facts == FactsOf(a) + FactsOf(b)
            && st.transcript == [a, b] && st.confirmedHints == []
  {
    PairHeard(a, b);
    AllReachable(Hearing([a, b]));
    MergeStep(Run(CFG, Hearing([a, b])), 0, 1, 0, 1);
    RunExtends(Hearing([a, b]), DecideOp(Merge, [IdOf(a.id), IdOf(b.id)], Some(IdOf(a.id))));
  }

  lemma MergedLineage(a: Event, b: Event)
    requires a.id != b.id
    ensures Lineage(MergeAt([ProblemOf(a), ProblemOf(b)], 0, 1), IdOf(a.id)) == {IdOf(a.id), IdOf(b.id)}
  {
    var pains := [ProblemOf(a), ProblemOf(b)];
    assert IdOf(a.id) != IdOf(b.id) && DistinctIds(pains);
    AloneLineage(pains, 0);
    MergeLineages(pains, 0, 1, 0);
  }

  /** For any two owners: the gap names the first, the draft shows the second. */
  lemma MergedShowsOther(a: Event, b: Event)
    requires Spaced([a, b]) && a.text != "" && b.text != ""
    ensures var st := Run(CFG, Merged(a, b)).state;
            var gap, draft := PriorOf(st.gaps, GapId(IdOf(a.id), Owner)), BuildDraft(STANDARD, st, IdOf(a.id));
            && st.facts == [FactOf(a), FactOf(b)] && gap.Some? && gap.value.resolvedBy == Some(FactOf(a).id)
            && draft.Some? && Owner in draft.value.values && draft.value.values[Owner] == b.text
            && (ReadersAgree(STANDARD, st, IdOf(a.id), Owner) <==> a.text == b.text)
  {
    var st := Run(CFG, Merged(a, b)).state;
    MergedFacts(a, b);
    BothActive(a, b);
    assert IndexOf(st.pains, IdOf(a.id)) == Some(0);
    OwnerGap(Merged(a, b), 0);
  }

  lemma MergedFacts(a: Event, b: Event)
    requires Spaced([a, b]) && a.text != "" && b.text != ""
    ensures var st := Run(CFG, Merged(a, b)).state;
            && st.facts == [FactOf(a), FactOf(b)] && Lineage(st.pains, IdOf(a.id)) == {IdOf(a.id), IdOf(b.id)}
            && st.pains != [] && st.pains[0].id == IdOf(a.id)
            && st.pains[0].category == DataMismatch && st.pains[0].Live()
  {
    MergedState(a, b);
    MergedPair(a, b);
    assert a.id != b.id by {
      assert [a, b][0].id != [a, b][1].id;
    }
    MergedLineage(a, b);
  }

  lemma MergedPair(a: Event, b: Event)
    ensures var p := MergeAt([ProblemOf(a), ProblemOf(b)], 0, 1)[0];
            p.id == IdOf(a.id) && p.category == DataMismatch && p.Live()
  {
  }

  lemma BothActive(a: Event, b: Event)
    ensures var facts, lineage := [FactOf(a), FactOf(b)], {IdOf(a.id), IdOf(b.id)};
            && FirstActive(facts, lineage, Owner) == Some(0)
            && Owner in ActiveBySlot(facts, lineage) && ActiveBySlot(facts, lineage)[Owner] == b.text
  {
    var facts, lineage := [FactOf(a), FactOf(b)], {IdOf(a.id), IdOf(b.id)};
    assert Holds(facts[0], lineage, Owner) && Holds(facts[1], lineage, Owner);
    DraftShowsLast(facts, lineage, Owner);
  }

  const KIM := Said("a", 1, "Kim")
  const LEE := Said("b", 2, "Lee")

  lemma KimAndLee()
    ensures Spaced([KIM, LEE]) && KIM.text != LEE.text
  {
    assert "a"[0] != "b"[0] && "Kim"[0] != "Lee"[0];
  }

  /** A concrete run: after the merge the gap names the fact "Kim", and the draft shows "Lee". */
  lemma MergedDraftShowsOtherFact()
    ensures var st := Run(CFG, Merged(KIM, LEE)).state;
            var gap, draft := PriorOf(st.gaps, GapId(IdOf("a"), Owner)), BuildDraft(STANDARD, st, IdOf("a"));
            && st.facts == [FactOf(KIM), FactOf(LEE)] && gap.Some? && gap.value.resolvedBy == Some(FactOf(KIM).id)
            && draft.Some? && Owner in draft.value.values && draft.value.values[Owner] == "Lee"
            && !ReadersAgree(STANDARD, st, IdOf("a"), Owner)
  {
    KimAndLee();
    MergedShowsOther(KIM, LEE);
  }

  /* ---------- hints reuse the number of an old event ---------- */

  /** One event names an owner, and a hint that cites it names another one. */
  function HintAfterEvent(e: Event, name: string): seq<Op> {
    Hearing([e]) + [ConfirmOp(OwnerHint(e.id, [name]))]
  }

  /** Any other owner that a hint names gets the id of the fact that it supersedes. */
  lemma HintRepeatsId(e: Event, name: string)
    requires e.isFinal && e.text != "" && name != e.text
    ensures var facts := Run(CFG, HintAfterEvent(e, name)).state.facts;
            |facts| == 2 && facts[0].id == facts[1].id && facts[1].supersedes == Some(facts[1].id)
    ensures !DistinctFactIds(Run(CFG, HintAfterEvent(e, name)).state.facts)
  {
    var ops, m := Hearing([e]), Run(CFG, Hearing([e]));
    assert [e][..0] == [];
    HearAll([e]);
    AllReachable(ops);
    ConfirmOwner(m, e, name);
    RunExtends(ops, ConfirmOp(OwnerHint(e.id, [name])));
    AloneLineage(m.state.pains, 0);
    assert m.state.facts == [FactOf(e)];
    SupersedesOwnId(FactOf(e), HintedOwner(m.state.pains, e, name));
  }

  lemma SupersedesOwnId(f: Fact, r: Routed)
    requires Holds(f, r.lineage, r.pf.slot) && f.value != r.pf.value && r.pf.relation == Supersede
    requires f.id == FactId(r.pain, r.pf.slot, r.seqNo)
    ensures var facts := Absorb([f], r);
            |facts| == 2 && facts[0].id == facts[1].id && facts[1].supersedes == Some(facts[1].id)
  {
    assert Holds([f][0], r.lineage, r.pf.slot);
    assert FirstActive([f], r.lineage, r.pf.slot) == Some(0);
  }

  /** A concrete run of one event and one hint: "Lee" supersedes "Kim", and both facts have one id. */
  lemma RepeatedNumberCollides()
    ensures var facts := Run(CFG, HintAfterEvent(KIM, "Lee")).state.facts;
            |facts| == 2 && facts[0].id == facts[1].id && facts[1].supersedes == Some(facts[1].id)
    ensures !DistinctFactIds(Run(CFG, HintAfterEvent(KIM, "Lee")).state.facts)
  {
    KimAndLee();
    HintRepeatsId(KIM, "Lee");
  }

  /** One event without an owner, and a hint that names two owners at once. */
  function HintWithTwo(e: Event, first: string, second: string): seq<Op> {
    Hearing([e]) + [ConfirmOp(OwnerHint(e.id, [first, second]))]
  }

  /** Two values for one slot in one hint make two facts of one id, although no fact had it before. */
  lemma HintTwiceRepeatsId(e: Event, first: string, second: string)
    requires e.isFinal && e.text == "" && first != second
    ensures Run(CFG, Hearing([e])).state.facts == []
    ensures var facts := Run(CFG, HintWithTwo(e, first, second)).state.facts;
            |facts| == 2 && facts[0].id == facts[1].id && facts[1].supersedes == Some(facts[1].id)
    ensures !DistinctFactIds(Run(CFG, HintWithTwo(e, first, second)).state.facts)
  {
    var ops, m, names := Hearing([e]), Run(CFG, Hearing([e])), [first, second];
    assert [e][..0] == [];
    HearAll([e]);
    AllReachable(ops);
    ConfirmOwners(m, e, names);
    RunExtends(ops, ConfirmOp(OwnerHint(e.id, names)));
    BothHinted(m.state.pains, e, first, second);
    TwoAbsorbed(HintedOwner(m.state.pains, e, first), HintedOwner(m.state.pains, e, second));
  }

  lemma BothHinted(pains: seq<Pain>, e: Event, first: string, second: string)
    requires pains != []
    ensures HintedOwners(pains, e, [first, second]) == [HintedOwner(pains, e, first), HintedOwner(pains, e, second)]
    ensures HintedOwner(pains, e, first).pain in HintedOwner(pains, e, first).lineage
  {
    assert [first, second][..1] == [first] && [first][..0] == [];
    assert HintedOwners(pains, e, [first]) == [HintedOwner(pains, e, first)];
    InLineage(pains, pains[0].id, pains[0].id);
  }

  lemma TwoAbsorbed(a: Routed, b: Routed)
    requires a.pain == b.pain && a.lineage == b.lineage && a.pain in a.lineage && a.seqNo == b.seqNo
    requires a.pf.slot == b.pf.slot && a.pf.value != b.pf.value && b.pf.relation == Supersede
    ensures var facts := AbsorbAll([], [a, b]);
            |facts| == 2 && facts[0].id == facts[1].id && facts[1].supersedes == Some(facts[1].id)
  {
    var f := NewFact(a, Active, None, []);
    assert [a, b][..1] == [a] && [a][..0] == [];
    assert AbsorbAll([], []) == [] && AbsorbAll([], [a]) == Absorb([], a) == [f];
    SupersedesOwnId(f, b);
    assert AbsorbAll([], [a, b]) == Absorb([f], b);
  }

  /** A concrete run of one event and one hint that names "Lee" and "Moe". */
  lemma TwoValuesCollide()
    ensures var facts := Run(CFG, HintWithTwo(Said("a", 1, ""), "Lee", "Moe")).state.facts;
            |facts| == 2 && facts[0].id == facts[1].id && facts[1].supersedes == Some(facts[1].id)
    ensures !DistinctFactIds(Run(CFG, HintWithTwo(Said("a", 1, ""), "Lee", "Moe")).state.facts)
  {
    assert "Lee"[0] != "Moe"[0];
    HintTwiceRepeatsId(Said("a", 1, ""), "Lee", "Moe");
  }

  /** A hint on the merged problem: it supersedes the first of two active facts. */
  function HintAfterMerge(a: Event, b: Event, name: string): seq<Op> {
    Merged(a, b) + [ConfirmOp(OwnerHint(a.id, [name]))]
  }

  lemma HintAfterMergeState(a: Event, b: Event, name: string)
    requires Spaced([a, b])
    ensures var before, st := Run(CFG, Merged(a, b)).state, Run(CFG, HintAfterMerge(a, b, name)).state;
            && before.pains != [] && st.pains == before.pains
            && st.facts == Absorb(before.facts, HintedOwner(before.pains, a, name))
  {
    var m := Run(CFG, Merged(a, b));
    MergedState(a, b);
    AllReachable(Merged(a, b));
    assert m.state.transcript[0] == a;
    assert a.id in ProblemOf(a).evidence + ProblemOf(b).evidence;
    ConfirmOwner(m, a, name);
    RunExtends(Merged(a, b), ConfirmOp(OwnerHint(a.id, [name])));
  }

  lemma HintedOverFirst(a: Event, b: Event, r: Routed)
    requires r.lineage == {IdOf(a.id), IdOf(b.id)} && r.pain == IdOf(a.id) && r.pf.slot == Owner
    requires r.pf.value != a.text && r.pf.relation == Supersede
    ensures var facts := Absorb([FactOf(a), FactOf(b)], r);
            && |facts| == 3 && facts[1] == FactOf(b) && facts[2].value == r.pf.value && facts[2].status == Active
            && FirstActive(facts, r.lineage, Owner) == Some(1)
  {
    var before := [FactOf(a), FactOf(b)];
    var facts := Absorb(before, r);
    assert Holds(before[0], r.lineage, Owner);
    assert FirstActive(before, r.lineage, Owner) == Some(0);
    assert Holds(facts[1], r.lineage, Owner) && !Holds(facts[0], r.lineage, Owner);
  }

  /** The hinted owner is active and newest, and the gap names the owner of the merged problem. */
  lemma HintLeavesOther(a: Event, b: Event, name: string)
    requires Spaced([a, b]) && a.text != "" && b.text != "" && name != a.text
    ensures var st := Run(CFG, HintAfterMerge(a, b, name)).state;
            var gap := PriorOf(st.gaps, GapId(IdOf(a.id), Owner));
            && |st.facts| == 3 && st.facts[2].value == name && st.facts[2].status == Active
            && gap.Some? && gap.value.resolvedBy == Some(FactOf(b).id)
  {
    var before, st := Run(CFG, Merged(a, b)).state, Run(CFG, HintAfterMerge(a, b, name)).state;
    MergedFacts(a, b);
    HintAfterMergeState(a, b, name);
    HintedOverFirst(a, b, HintedOwner(before.pains, a, name));
    OwnerGap(HintAfterMerge(a, b, name), 0);
  }

  /** A concrete run: "Moe" is active and the newest owner, and the gap names "Lee". */
  lemma SupersedingLeavesOlderValue()
    ensures var st := Run(CFG, HintAfterMerge(KIM, LEE, "Moe")).state;
            var gap := PriorOf(st.gaps, GapId(IdOf("a"), Owner));
            && |st.facts| == 3 && st.facts[2].value == "Moe" && st.facts[2].status == Active
            && gap.Some? && gap.value.resolvedBy == Some(FactOf(LEE).id)
  {
    KimAndLee();
    assert "Kim"[0] != "Moe"[0];
    HintLeavesOther(KIM, LEE, "Moe");
  }

  /* ---------- a second merge loses an answer ---------- */

  /** The problems of three events, merged or not. */
  predicate Trio(pains: seq<Pain>, a: Event, b: Event, c: Event) {
    && |pains| == 3 && pains[0].id == IdOf(a.id) && pains[1].id == IdOf(b.id) && pains[2].id == IdOf(c.id)
    && (forall i | 0 <= i < 3 :: pains[i].category == DataMismatch)
    && IdOf(a.id) != IdOf(b.id) && IdOf(b.id) != IdOf(c.id) && IdOf(a.id) != IdOf(c.id)
  }

  lemma TrioHeard(a: Event, b: Event, c: Event)
    requires Spaced([a, b, c]) && b.text == "" && c.text == ""
    ensures var st := Run(CFG, Hearing([a, b, c])).state;
            && Trio(st.pains, a, b, c) && (forall i | 0 <= i < 3 :: st.pains[i].Live())
            && st.facts == FactsOf(a) && st.decisions == []
  {
    var events := [a, b, c];
    assert events[0].id != events[1].id && events[1].id != events[2].id && events[0].id != events[2].id;
    HearAll(events);
    assert events[..2] == [a, b] && [a, b][..1] == [a] && [a][..0] == [];
    assert AllFactsOf([a]) == FactsOf(a);
    assert AllFactsOf([a, b]) == FactsOf(a);
  }

  /** The first problem is merged into the second. */
  function OneMerge(a: Event, b: Event, c: Event): seq<Op> {
    Hearing([a, b, c]) + [DecideOp(Merge, [IdOf(a.id), IdOf(b.id)], Some(IdOf(b.id)))]
  }

  /** And then the second into the third. */
  function TwoMerges(a: Event, b: Event, c: Event): seq<Op> {
    OneMerge(a, b, c) + [DecideOp(Merge, [IdOf(b.id), IdOf(c.id)], Some(IdOf(c.id)))]
  }

  lemma OneMergeState(a: Event, b: Event, c: Event)
    requires Spaced([a, b, c]) && b.text == "" && c.text == ""
    ensures var st := Run(CFG, OneMerge(a, b, c)).state;
            && FirstMerged(st, a, b, c) && st.facts == FactsOf(a)
            && |st.decisions| == 1 && st.decisions[0].pains == {IdOf(a.id), IdOf(b.id)}
  {
    TrioHeard(a, b, c);
    AllReachable(Hearing([a, b, c]));
    MergeFirst(Run(CFG, Hearing([a, b, c])), a, b, c);
    RunExtends(Hearing([a, b, c]), DecideOp(Merge, [IdOf(a.id), IdOf(b.id)], Some(IdOf(b.id))));
  }

  predicate FirstMerged(st: MeetingState, a: Event, b: Event, c: Event) {
    && Trio(st.pains, a, b, c) && st.pains[1].Live() && st.pains[2].Live()
    && Lineage(st.pains, IdOf(b.id)) == {IdOf(a.id), IdOf(b.id)} && Lineage(st.pains, IdOf(c.id)) == {IdOf(c.id)}
  }

  lemma MergeFirst(m: Memory, a: Event, b: Event, c: Event)
    requires Inv(CFG, m) && Trio(m.state.pains, a, b, c) && (forall i | 0 <= i < 3 :: m.state.pains[i].Live())
    requires m.state.decisions == []
    ensures var after := Step(CFG, m, DecideOp(Merge, [IdOf(a.id), IdOf(b.id)], Some(IdOf(b.id)))).state;
            && FirstMerged(after, a, b, c) && after.facts == m.state.facts
            && |after.decisions| == 1 && after.decisions[0].pains == {IdOf(a.id), IdOf(b.id)}
  {
    MergeStep(m, 0, 1, 1, 0);
    MergeLinks(m.state.pains, 1, 0);
    OneMergeLineages(m.state.pains, a, b, c);
  }

  lemma OneMergeLineages(pains: seq<Pain>, a: Event, b: Event, c: Event)
    requires Trio(pains, a, b, c) && forall i | 0 <= i < 3 :: pains[i].Live()
    ensures Lineage(MergeAt(pains, 1, 0), IdOf(b.id)) == {IdOf(a.id), IdOf(b.id)}
    ensures Lineage(MergeAt(pains, 1, 0), IdOf(c.id)) == {IdOf(c.id)}
  {
    MergeLineages(pains, 1, 0, 1);
    MergeLineages(pains, 1, 0, 2);
    AloneLineage(pains, 1);
    AloneLineage(pains, 2);
  }

  lemma TwoMergesState(a: Event, b: Event, c: Event)
    requires Spaced([a, b, c]) && b.text == "" && c.text == ""
    ensures var st := Run(CFG, TwoMerges(a, b, c)).state;
            && Trio(st.pains, a, b, c) && st.pains[2].Live() && st.facts == FactsOf(a)
            && Lineage(st.pains, IdOf(c.id)) == {IdOf(b.id), IdOf(c.id)}
  {
    OneMergeState(a, b, c);
    AllReachable(OneMerge(a, b, c));
    MergeSecond(Run(CFG, OneMerge(a, b, c)), a, b, c);
    RunExtends(OneMerge(a, b, c), DecideOp(Merge, [IdOf(b.id), IdOf(c.id)], Some(IdOf(c.id))));
  }

  lemma MergeSecond(m: Memory, a: Event, b: Event, c: Event)
    requires Inv(CFG, m) && FirstMerged(m.state, a, b, c)
    requires |m.state.decisions| == 1 && m.state.decisions[0].pains == {IdOf(a.id), IdOf(b.id)}
    ensures var after := Step(CFG, m, DecideOp(Merge, [IdOf(b.id), IdOf(c.id)], Some(IdOf(c.id)))).state;
            && Trio(after.pains, a, b, c) && after.pains[2].Live() && after.facts == m.state.facts
            && Lineage(after.pains, IdOf(c.id)) == {IdOf(b.id), IdOf(c.id)}
  {
    assert IdOf(c.id) !in m.state.decisions[0].pains;
    MergeStep(m, 1, 2, 2, 1);
    MergeLinks(m.state.pains, 2, 1);
    MergeLineages(m.state.pains, 2, 1, 2);
  }

  /** An owner stated for A answers B after the first merge, and after the second one C is asked for its owner. */
  lemma SecondMergeLoses(a: Event, b: Event, c: Event)
    requires Spaced([a, b, c]) && a.text != "" && b.text == "" && c.text == ""
    ensures AnsweredAt(Run(CFG, OneMerge(a, b, c)).state, GapId(IdOf(b.id), Owner))
    ensures OpenAt(Run(CFG, TwoMerges(a, b, c)).state, GapId(IdOf(c.id), Owner))
    ensures Run(CFG, TwoMerges(a, b, c)).state.facts == [FactOf(a)]
  {
    OneMergeState(a, b, c);
    assert Holds(FactOf(a), {IdOf(a.id), IdOf(b.id)}, Owner);
    OwnerGap(OneMerge(a, b, c), 1);
    TwoMergesState(a, b, c);
    assert !Holds(FactOf(a), {IdOf(b.id), IdOf(c.id)}, Owner);
    OwnerGap(TwoMerges(a, b, c), 2);
  }

  const SECOND := Said("b", 2, "")
  const THIRD := Said("c", 3, "")

  lemma ThreeSpaced()
    ensures Spaced([KIM, SECOND, THIRD])
  {
    assert "a"[0] != "b"[0] && "b"[0] != "c"[0] && "a"[0] != "c"[0];
  }

  /** A concrete run of three events and two merges: "Kim" stays active, and C is asked for its owner. */
  lemma SecondMergeLosesAnswer()
    ensures AnsweredAt(Run(CFG, OneMerge(KIM, SECOND, THIRD)).state, GapId(IdOf("b"), Owner))
    ensures OpenAt(Run(CFG, TwoMerges(KIM, SECOND, THIRD)).state, GapId(IdOf("c"), Owner))
    ensures Run(CFG, TwoMerges(KIM, SECOND, THIRD)).state.facts == [FactOf(KIM)]
  {
    ThreeSpaced();
    SecondMergeLoses(KIM, SECOND, THIRD);
  }

  /* ---------- a repeated decision returns another one ---------- */

  /** The first two problems are kept apart. */
  function OneDecision(a: Event, b: Event, c: Event): seq<Op> {
    Hearing([a, b, c]) + [DecideOp(KeepSeparate, [IdOf(a.id), IdOf(b.id)], None)]
  }

  /** And then the last two. */
  function TwoDecisions(a: Event, b: Event, c: Event): seq<Op> {
    OneDecision(a, b, c) + [DecideOp(KeepSeparate, [IdOf(b.id), IdOf(c.id)], None)]
  }

  lemma OneDecisionState(a: Event, b: Event, c: Event)
    requires Spaced([a, b, c]) && b.text == "" && c.text == ""
    ensures var st := Run(CFG, OneDecision(a, b, c)).state;
            && Trio(st.pains, a, b, c) && (forall i | 0 <= i < 3 :: st.pains[i].Live())
            && |st.decisions| == 1 && st.decisions[0].action == KeepSeparate
            && st.decisions[0].pains == {IdOf(a.id), IdOf(b.id)}
  {
    var ops := Hearing([a, b, c]);
    TrioHeard(a, b, c);
    AllReachable(ops);
    DecideStep(Run(CFG, ops), KeepSeparate, 0, 1, None);
    RunExtends(ops, DecideOp(KeepSeparate, [IdOf(a.id), IdOf(b.id)], None));
  }

  lemma TwoDecisionsState(a: Event, b: Event, c: Event)
    requires Spaced([a, b, c]) && b.text == "" && c.text == ""
    ensures var decisions := Run(CFG, TwoDecisions(a, b, c)).state.decisions;
            && |decisions| == 2 && decisions[0].action == KeepSeparate && IdOf(a.id) !in decisions[1].pains
            && decisions[0].pains == {IdOf(a.id), IdOf(b.id)} && decisions[1].pains == {IdOf(b.id), IdOf(c.id)}
  {
    OneDecisionState(a, b, c);
    AllReachable(OneDecision(a, b, c));
    assert IdOf(a.id) !in {IdOf(b.id), IdOf(c.id)};
    DecideStep(Run(CFG, OneDecision(a, b, c)), KeepSeparate, 1, 2, None);
    RunExtends(OneDecision(a, b, c), DecideOp(KeepSeparate, [IdOf(b.id), IdOf(c.id)], None));
  }

  /** Asking for the first decision again returns the second one. */
  lemma RepeatReturnsOther()
    ensures var m := Run(CFG, TwoDecisions(KIM, SECOND, THIRD));
            var again := Decide(CFG, m, KeepSeparate, [IdOf("a"), IdOf("b")], None);
            && again.Ok?
            && var returned := again.value.state.decisions[|again.value.state.decisions| - 1];
               returned.pains == {IdOf("b"), IdOf("c")} &&
               !returned.SameId(DecisionOf(m.state, KeepSeparate, [IdOf("a"), IdOf("b")], None))
  {
    var m := Run(CFG, TwoDecisions(KIM, SECOND, THIRD));
    var d := DecisionOf(m.state, KeepSeparate, [IdOf("a"), IdOf("b")], None);
    ThreeSpaced();
    TwoDecisionsState(KIM, SECOND, THIRD);
    assert d.pains == {IdOf("a"), IdOf("b")} && |d.pains| == 2 by {
      assert "a"[0] != "b"[0];
    }
    assert IdOf("a") in d.pains;
    assert m.state.decisions[0].SameId(d);
    assert Decided(m.state.decisions, d);
  }
}
