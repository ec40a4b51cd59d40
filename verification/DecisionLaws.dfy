/** What an identity decision does, told by the fields of the problems it selects. */
module DecisionLaws {
  import opened Contracts
  import opened Sequences
  import opened Templates
  import opened Reducer
  import opened Identity
  import opened Engine
  import opened Runs

  /** Positions i and j hold the two problems named by the ids: unmerged and of one category. */
  predicate Decidable(pains: seq<Pain>, ids: seq<PainId>, i: nat, j: nat) {
    && i < |pains| && j < |pains| && i != j
    && pains[i].mergedInto.None? && pains[j].mergedInto.None? && pains[i].category == pains[j].category
    && pains[i].id in ids && pains[j].id in ids
    && forall id | id in ids :: id == pains[i].id || id == pains[j].id
  }

  /** Whether this action on this pair has been recorded before. */
  ghost predicate Recorded(decisions: seq<Decision>, action: Action, ids: seq<PainId>) {
    exists d :: d in decisions && d.action == action && About(d, ids)
  }

  ghost predicate About(d: Decision, ids: seq<PainId>) {
    forall id :: id in d.pains <==> id in ids
  }

  /** The earlier problem keeps, the smaller key on ties. */
  predicate Earlier(p: Pain, q: Pain) {
    p.createdSeq < q.createdSeq || (p.createdSeq == q.createdSeq && TextLess(p.id.key, q.id.key))
  }

  /** Problem x has taken problem y over, and everything else is as it was. */
  ghost predicate TakenOver(before: seq<Pain>, after: seq<Pain>, x: nat, y: nat)
    requires x < |before| && y < |before|
  {
    && |after| == |before|
    && (forall i | 0 <= i < |before| && i != x && i != y :: after[i] == before[i])
    && after[y] == before[y].(open := false, mergedInto := Some(before[x].id), revision := before[y].revision + 1)
    && after[x] == before[x].(aliases := after[x].aliases, evidence := after[x].evidence,
                              revision := before[x].revision + 1)
    && NoDup(after[x].aliases) && NoDup(after[x].evidence)
    && (forall k :: k in after[x].aliases <==> k in before[x].aliases || k == before[y].key || k in before[y].aliases)
    && (forall e :: e in after[x].evidence <==> e in before[x].evidence || e in before[y].evidence)
  }

  /** Problem x survives and problem y is merged into it, as the call with these ids asks. */
  ghost predicate Merges(
    before: seq<Pain>, after: seq<Pain>, ids: seq<PainId>, survivor: Option<PainId>, x: nat, y: nat)
  {
    && Decidable(before, ids, x, y)
    && (if survivor.Some? then before[x].id == survivor.value else Earlier(before[x], before[y]))
    && TakenOver(before, after, x, y)
  }

  /** The log of decisions with one more at its end. */
  predicate Records(before: seq<Decision>, after: seq<Decision>, d: Decision) {
    after == before + [d]
  }

  lemma {:induction false} MergeApplied(st: MeetingState, d: Decision, ids: seq<PainId>) returns (x: nat, y: nat)
    requires IdentityInv(st.pains) && d.action == Merge && |d.pains| == 2 && About(d, ids)
    requires !Decided(st.decisions, d) && ApplyDecision(st.pains, st.decisions, d).Ok?
    ensures var after := ApplyDecision(st.pains, st.decisions, d).value;
            && Merges(st.pains, after.pains, ids, d.survivor, x, y)
            && Records(st.decisions, after.decisions,
                       Decision(Merge, {st.pains[x].id, st.pains[y].id}, Some(st.pains[x].id), d.createdVersion))
  {
    var (i, j) := Selected(st.pains, d.pains).value;
    SelectedDecidable(st.pains, ids, d.pains, i, j);
    var roles := Roles(st.pains, i, j, d.survivor);
    x, y := roles.0, roles.1;
    DefaultIsEarlier(st.pains, i, j);
    MergeTakesOver(st.pains, x, y);
    assert d.pains == {st.pains[x].id, st.pains[y].id};
    assert d.(survivor := Some(st.pains[x].id)) ==
           Decision(Merge, {st.pains[x].id, st.pains[y].id}, Some(st.pains[x].id), d.createdVersion);
  }

  /**
    The first decision to merge two problems. The survivor is the named one, or else the problem created earlier, the
    one with the smaller key on ties; it takes over the keys and evidence of the other, which is retired and points to
    it. No fact changes, and the decision is recorded with its survivor.
   */
  lemma {:induction false} MergeOutcome(cfg: Config, ops: seq<Op>, ids: seq<PainId>, survivor: Option<PainId>)
    requires WellFormed(cfg.registry) && Decide(cfg, Run(cfg, ops), Merge, ids, survivor).Ok?
    requires !Recorded(Run(cfg, ops).state.decisions, Merge, ids)
    ensures var before, after := Run(cfg, ops).state, Run(cfg, ops + [DecideOp(Merge, ids, survivor)]).state;
            && after.facts == before.facts
            && exists x: nat, y: nat :: Merges(before.pains, after.pains, ids, survivor, x, y) &&
                 Records(before.decisions, after.decisions,
                         Decision(Merge, {before.pains[x].id, before.pains[y].id}, Some(before.pains[x].id),
                                  before.version))
  {
    var st, d := Run(cfg, ops).state, DecisionOf(Run(cfg, ops).state, Merge, ids, survivor);
    Reachable(cfg, ops);
    assert (ops + [DecideOp(Merge, ids, survivor)])[..|ops|] == ops;
    RecordedIff(st.decisions, Merge, ids, d);
    var x, y := MergeApplied(st, d, ids);
  }

  lemma RecordedIff(decisions: seq<Decision>, action: Action, ids: seq<PainId>, d: Decision)
    requires d.action == action && About(d, ids)
    ensures Decided(decisions, d) <==> Recorded(decisions, action, ids)
  {
    if e :| e in decisions && e.action == action && About(e, ids) {
      assert e.pains == d.pains;
      assert e.SameId(d);
    }
  }

  lemma SelectedDecidable(pains: seq<Pain>, ids: seq<PainId>, chosen: set<PainId>, i: nat, j: nat)
    requires DistinctIds(pains) && SelectsTwo(pains, chosen, i, j) && |chosen| == 2
    requires (forall id :: id in chosen <==> id in ids) && pains[i].category == pains[j].category
    requires pains[i].Live() && pains[j].Live()
    ensures Decidable(pains, ids, i, j) && chosen == {pains[i].id, pains[j].id}
  {
    PairIs(pains, ids, chosen, i, j);
  }

  lemma DefaultIsEarlier(pains: seq<Pain>, i: nat, j: nat)
    requires DistinctIds(pains) && i < |pains| && j < |pains| && i != j
    requires (forall k | 0 <= k < |pains| :: Shaped(pains, k)) && pains[i].category == pains[j].category
    ensures var (x, y) := Roles(pains, i, j, None); Earlier(pains[x], pains[y])
  {
    assert Shaped(pains, i) && Shaped(pains, j);
    assert pains[i].id.key != pains[j].id.key by {
      assert pains[i].id != pains[j].id;
    }
    TextLessTotal(pains[i].id.key, pains[j].id.key);
  }

  lemma MergeTakesOver(pains: seq<Pain>, x: nat, y: nat)
    requires x < |pains| && y < |pains| && x != y
    ensures TakenOver(pains, MergeAt(pains, x, y), x, y)
  {
  }

  /** The first decision to keep two problems apart is recorded, and changes no problem and no fact. */
  lemma {:induction false} SeparateOutcome(cfg: Config, ops: seq<Op>, ids: seq<PainId>, survivor: Option<PainId>)
    requires WellFormed(cfg.registry) && Decide(cfg, Run(cfg, ops), KeepSeparate, ids, survivor).Ok?
    requires !Recorded(Run(cfg, ops).state.decisions, KeepSeparate, ids)
    ensures var before, after := Run(cfg, ops).state, Run(cfg, ops + [DecideOp(KeepSeparate, ids, survivor)]).state;
            && after.pains == before.pains && after.facts == before.facts
            && |after.decisions| == |before.decisions| + 1 && after.decisions[..|before.decisions|] == before.decisions
            && var d := after.decisions[|before.decisions|];
               d.action == KeepSeparate && About(d, ids) && d.survivor == survivor && d.createdVersion == before.version
  {
    var st := Run(cfg, ops).state;
    assert (ops + [DecideOp(KeepSeparate, ids, survivor)])[..|ops|] == ops;
    RecordedIff(st.decisions, KeepSeparate, ids, DecisionOf(st, KeepSeparate, ids, survivor));
  }

  /** These two different ids are given, and no other. */
  predicate TwoIds(ids: seq<PainId>, a: PainId, b: PainId) {
    a in ids && b in ids && a != b && forall id | id in ids :: id == a || id == b
  }

  /** Positions i and j hold the two problems named by the ids, of one category. */
  predicate Paired(pains: seq<Pain>, ids: seq<PainId>, i: nat, j: nat) {
    && i < |pains| && j < |pains| && i != j && pains[i].category == pains[j].category
    && pains[i].id in ids && pains[j].id in ids
    && forall id | id in ids :: id == pains[i].id || id == pains[j].id
  }

  /** Why the call is refused, if it is: the first of these that applies. */
  ghost function Refusal(st: MeetingState, action: Action, ids: seq<PainId>, survivor: Option<PainId>)
    : Option<DecisionError>
  {
    if !exists a, b :: TwoIds(ids, a, b) then Some(NotTwoDistinct)
    else if action.OtherAction? then Some(UnsupportedAction)
    else if Recorded(st.decisions, action, ids) then None
    else PairRefusal(st.pains, action, ids, survivor)
  }

  ghost function PairRefusal(pains: seq<Pain>, action: Action, ids: seq<PainId>, survivor: Option<PainId>)
    : Option<DecisionError>
  {
    if !exists i: nat, j: nat :: Paired(pains, ids, i, j) then Some(NotTwoSameCategory)
    else if !exists i: nat, j: nat :: Decidable(pains, ids, i, j) then Some(AlreadyMerged)
    else if action == Merge && survivor.Some? && survivor.value !in ids then Some(SurvivorNotSelected)
    else None
  }

  /**
    How a decision is answered: it needs two different ids and a known action. A recorded decision goes through again;
    any other needs two problems of one category, none of them merged, and a survivor named for a merge among them.
   */
  lemma {:induction false} AnswerIff(
    cfg: Config, ops: seq<Op>, action: Action, ids: seq<PainId>, survivor: Option<PainId>)
    requires WellFormed(cfg.registry)
    ensures var answer := Decide(cfg, Run(cfg, ops), action, ids, survivor);
            match Refusal(Run(cfg, ops).state, action, ids, survivor)
            case None => answer.Ok?
            case Some(error) => answer == Err(error)
  {
    var st, d := Run(cfg, ops).state, DecisionOf(Run(cfg, ops).state, action, ids, survivor);
    Reachable(cfg, ops);
    RecordedIff(st.decisions, action, ids, d);
    TwoIdsIff(ids, d.pains);
    if |d.pains| == 2 && !action.OtherAction? && !Decided(st.decisions, d) {
      PairAnswer(st.pains, st.decisions, d, ids);
    }
  }

  lemma {:induction false} PairAnswer(pains: seq<Pain>, decisions: seq<Decision>, d: Decision, ids: seq<PainId>)
    requires DistinctIds(pains) && |d.pains| == 2 && About(d, ids)
    requires !d.action.OtherAction? && !Decided(decisions, d)
    ensures match PairRefusal(pains, d.action, ids, d.survivor)
            case None => ApplyDecision(pains, decisions, d).Ok?
            case Some(error) => ApplyDecision(pains, decisions, d) == Err(error)
  {
    PairedSelects(pains, d.pains, ids);
    var selected := Selected(pains, d.pains);
    if selected.Some? {
      var (i, j) := selected.value;
      PairIs(pains, ids, d.pains, i, j);
      assert forall id :: id in ids <==> id == pains[i].id || id == pains[j].id;
      OnlyPair(pains, ids, i, j);
      if Decidable(pains, ids, i, j) && (d.action == Merge && d.survivor.Some? ==> d.survivor.value in d.pains) {
        PairAccepted(pains, decisions, d, i, j);
      }
    }
  }

  lemma PairAccepted(pains: seq<Pain>, decisions: seq<Decision>, d: Decision, i: nat, j: nat)
    requires DistinctIds(pains) && i < j < |pains| && pains[i].Live() && pains[j].Live()
    requires pains[i].category == pains[j].category && d.pains == {pains[i].id, pains[j].id}
    requires !d.action.OtherAction? && !Decided(decisions, d)
    requires d.action == Merge && d.survivor.Some? ==> d.survivor.value in d.pains
    ensures ApplyDecision(pains, decisions, d).Ok?
  {
    assert SelectsTwo(pains, d.pains, i, j);
  }

  lemma OnlyPair(pains: seq<Pain>, ids: seq<PainId>, i: nat, j: nat)
    requires DistinctIds(pains) && i < j < |pains|
    requires forall id :: id in ids <==> id == pains[i].id || id == pains[j].id
    ensures (exists x: nat, y: nat :: Paired(pains, ids, x, y)) <==> pains[i].category == pains[j].category
    ensures (exists x: nat, y: nat :: Decidable(pains, ids, x, y)) <==> Decidable(pains, ids, i, j)
    ensures Decidable(pains, ids, i, j) <==>
            pains[i].category == pains[j].category && pains[i].Live() && pains[j].Live()
  {
    forall x: nat, y: nat | Paired(pains, ids, x, y) ensures {x, y} == {i, j} {
      assert x == i || x == j;
      assert y == i || y == j;
    }
    assert pains[i].category == pains[j].category ==> Paired(pains, ids, i, j);
    if x: nat, y: nat :| Decidable(pains, ids, x, y) {
      assert Paired(pains, ids, x, y) && {x, y} == {i, j};
      assert Decidable(pains, ids, i, j);
    }
  }

  lemma PairIs(pains: seq<Pain>, ids: seq<PainId>, chosen: set<PainId>, i: nat, j: nat)
    requires DistinctIds(pains) && SelectsTwo(pains, chosen, i, j) && |chosen| == 2
    requires forall id :: id in chosen <==> id in ids
    ensures chosen == {pains[i].id, pains[j].id}
  {
    var pair := {pains[i].id, pains[j].id};
    assert |pair| == 2 && pair <= chosen;
    if id :| id in chosen && id !in pair {
      SubsetCard(pair + {id}, chosen);
    }
  }

  lemma PairedSelects(pains: seq<Pain>, chosen: set<PainId>, ids: seq<PainId>)
    requires DistinctIds(pains) && forall id :: id in chosen <==> id in ids
    ensures forall x: nat, y: nat | Paired(pains, ids, x, y) ::
              SelectsTwo(pains, chosen, if x < y then x else y, if x < y then y else x)
  {
  }

  lemma TwoIdsIff(ids: seq<PainId>, chosen: set<PainId>)
    requires forall id :: id in chosen <==> id in ids
    ensures |chosen| == 2 <==> exists a, b :: TwoIds(ids, a, b)
  {
    if |chosen| == 2 {
      var a :| a in chosen;
      assert |chosen - {a}| == 1;
      var b :| b in chosen - {a};
      assert |chosen - {a} - {b}| == 0;
      forall id | id in ids ensures id == a || id == b {
        assert id !in chosen - {a} - {b};
      }
      assert TwoIds(ids, a, b);
    }
    if a, b :| TwoIds(ids, a, b) {
      assert chosen == {a, b};
    }
  }
}
