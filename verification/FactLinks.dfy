/** Supersede and contradict links between facts, and the bound on active facts. */
module FactLinks {
  import opened Contracts
  import opened Sequences
  import opened Reducer
  import opened Facts

  predicate Named(f: Fact) {
    f.id == FactId(f.pain, f.slot, f.createdSeq)
  }

  predicate StatusAgrees(f: Fact) {
    && (f.status == Superseded <==> f.supersededBy.Some?)
    && (f.status == Contradicted <==> f.contradicts != [])
  }

  predicate Succeeds(g: Fact, f: Fact) {
    f.supersededBy == Some(g.id) && g.supersedes == Some(f.id) && g.slot == f.slot && f.createdSeq < g.createdSeq
  }

  predicate Conflict(f: Fact, g: Fact) {
    g.id in f.contradicts && f.id in g.contradicts && f.slot == g.slot
  }

  ghost predicate SuccessorResolves(facts: seq<Fact>, f: Fact) {
    f.supersededBy.Some? ==> exists g :: g in facts && Succeeds(g, f)
  }

  ghost predicate PredecessorResolves(facts: seq<Fact>, g: Fact) {
    g.supersedes.Some? ==> exists f :: f in facts && f.id == g.supersedes.value && Succeeds(g, f)
  }

  ghost predicate ConflictResolves(facts: seq<Fact>, f: Fact, x: FactId) {
    exists g :: g in facts && g.id == x && Conflict(f, g)
  }

  ghost predicate LinksResolve(facts: seq<Fact>, f: Fact) {
    && Named(f) && StatusAgrees(f)
    && SuccessorResolves(facts, f)
    && PredecessorResolves(facts, f)
    && forall x | x in f.contradicts :: ConflictResolves(facts, f, x)
  }

  predicate DistinctFactIds(facts: seq<Fact>) {
    forall i, j | 0 <= i < j < |facts| :: facts[i].id != facts[j].id
  }

  /** Fact ids are unique and every link leads to a fact that links back. */
  ghost predicate LinkInv(facts: seq<Fact>) {
    DistinctFactIds(facts) && forall f | f in facts :: LinksResolve(facts, f)
  }

  /** r comes after every fact of its slot and lineage. */
  predicate Newer(facts: seq<Fact>, r: Routed) {
    r.pain in r.lineage &&
    forall f | f in facts && f.pain in r.lineage && f.slot == r.pf.slot :: f.createdSeq < r.seqNo
  }

  predicate OrderedRoutes(rs: seq<Routed>) {
    forall m, n | 0 <= m < n < |rs| :: rs[m].pain in rs[n].lineage && rs[m].pf.slot == rs[n].pf.slot ==>
                                         rs[m].seqNo < rs[n].seqNo
  }

  /** The fact that g becomes when fact i of the list is revised. */
  function Image(facts: seq<Fact>, i: nat, revised: Fact, g: Fact): Fact
    requires i < |facts|
  {
    if g == facts[i] then revised else g
  }

  lemma ImageIn(facts: seq<Fact>, i: nat, revised: Fact, added: seq<Fact>, g: Fact)
    requires i < |facts| && g in facts
    ensures Image(facts, i, revised, g) in facts[i := revised] + added
  {
    var j :| 0 <= j < |facts| && facts[j] == g;
    if g == facts[i] {
      assert (facts[i := revised] + added)[i] == revised;
    } else {
      assert (facts[i := revised] + added)[j] == g;
    }
  }

  /** Links between facts that stay survive, because the revised fact was active and had no successor or conflict. */
  lemma OldLinksResolve(facts: seq<Fact>, i: nat, revised: Fact, added: seq<Fact>, f: Fact)
    requires LinkInv(facts) && i < |facts| && f in facts && f != facts[i]
    requires facts[i].status == Active
    requires revised.id == facts[i].id && revised.slot == facts[i].slot && revised.createdSeq == facts[i].createdSeq
    requires revised.supersedes == facts[i].supersedes
    ensures LinksResolve(facts[i := revised] + added, f)
  {
    var after := facts[i := revised] + added;
    assert LinksResolve(facts, f) && LinksResolve(facts, facts[i]);
    OldSuccessor(facts, i, revised, added, f);
    if f.supersedes.Some? {
      var g :| g in facts && g.id == f.supersedes.value && Succeeds(f, g);
      ImageIn(facts, i, revised, added, g);
    }
    forall x | x in f.contradicts ensures ConflictResolves(after, f, x) {
      OldConflict(facts, i, revised, added, f, x);
    }
  }

  lemma OldSuccessor(facts: seq<Fact>, i: nat, revised: Fact, added: seq<Fact>, f: Fact)
    requires i < |facts| && SuccessorResolves(facts, f)
    requires revised.id == facts[i].id && revised.slot == facts[i].slot && revised.createdSeq == facts[i].createdSeq
    requires revised.supersedes == facts[i].supersedes
    ensures SuccessorResolves(facts[i := revised] + added, f)
  {
    if f.supersededBy.Some? {
      var g :| g in facts && Succeeds(g, f);
      ImageIn(facts, i, revised, added, g);
      assert Succeeds(Image(facts, i, revised, g), f);
    }
  }

  lemma OldConflict(facts: seq<Fact>, i: nat, revised: Fact, added: seq<Fact>, f: Fact, x: FactId)
    requires i < |facts| && ConflictResolves(facts, f, x) && facts[i].status == Active && StatusAgrees(facts[i])
    ensures ConflictResolves(facts[i := revised] + added, f, x)
  {
    var g :| g in facts && g.id == x && Conflict(f, g);
    ImageIn(facts, i, revised, added, g);
    assert Image(facts, i, revised, g) == g;
  }

  /** The revised fact keeps its own predecessor. */
  lemma RevisedPredecessor(facts: seq<Fact>, i: nat, revised: Fact, added: seq<Fact>)
    requires LinkInv(facts) && i < |facts| && facts[i].status == Active
    requires revised.id == facts[i].id && revised.slot == facts[i].slot && revised.createdSeq == facts[i].createdSeq
    requires revised.supersedes == facts[i].supersedes
    ensures PredecessorResolves(facts[i := revised] + added, revised)
  {
    assert LinksResolve(facts, facts[i]);
    if revised.supersedes.Some? {
      var f :| f in facts && f.id == facts[i].supersedes.value && Succeeds(facts[i], f);
      ImageIn(facts, i, revised, added, f);
      assert Succeeds(revised, f);
    }
  }

  lemma FreshId(facts: seq<Fact>, r: Routed)
    requires LinkInv(facts) && Newer(facts, r)
    ensures forall f | f in facts :: f.id != FactId(r.pain, r.pf.slot, r.seqNo)
  {
    forall f | f in facts ensures f.id != FactId(r.pain, r.pf.slot, r.seqNo) {
      assert LinksResolve(facts, f);
    }
  }

  lemma AbsorbFirstKeepsLinks(facts: seq<Fact>, r: Routed)
    requires LinkInv(facts) && Newer(facts, r) && FirstActive(facts, r.lineage, r.pf.slot).None?
    ensures LinkInv(Absorb(facts, r))
  {
    FreshId(facts, r);
    var created := NewFact(r, Active, None, []);
    var after := facts + [created];
    forall f | f in after ensures LinksResolve(after, f) {
      if f in facts {
        assert LinksResolve(facts, f);
        forall x | x in f.contradicts ensures ConflictResolves(after, f, x) {
          assert ConflictResolves(facts, f, x);
        }
      }
    }
  }

  lemma {:induction false} MeetKeepsLinks(facts: seq<Fact>, r: Routed, i: nat)
    requires LinkInv(facts) && Newer(facts, r) && FirstActive(facts, r.lineage, r.pf.slot) == Some(i)
    ensures LinkInv(Absorb(facts, r))
  {
    FreshId(facts, r);
    var active := facts[i];
    assert LinksResolve(facts, active);
    var (revised, added) := Meet(active, r);
    var after := facts[i := revised] + added;
    RevisedPredecessor(facts, i, revised, added);
    assert after[i] == revised;
    if added != [] {
      assert after[|facts|] == added[0];
    }
    assert DistinctFactIds(after);
    forall f | f in after ensures LinksResolve(after, f) {
      var j :| 0 <= j < |after| && after[j] == f;
      if j == i {
        RevisedResolves(facts, r, i);
      } else if j < |facts| {
        assert f == facts[j] && f.id != active.id;
        OldLinksResolve(facts, i, revised, added, f);
      } else {
        AddedResolves(facts, r, i);
      }
    }
  }

  lemma RevisedResolves(facts: seq<Fact>, r: Routed, i: nat)
    requires LinkInv(facts) && Newer(facts, r) && FirstActive(facts, r.lineage, r.pf.slot) == Some(i)
    ensures LinksResolve(Absorb(facts, r), Meet(facts[i], r).0)
  {
    var active := facts[i];
    assert LinksResolve(facts, active);
    var (revised, added) := Meet(active, r);
    var after := facts[i := revised] + added;
    RevisedPredecessor(facts, i, revised, added);
    if added != [] {
      assert after[|facts|] == added[0];
      RevisedLinks(active, r, after);
    }
  }

  lemma RevisedLinks(active: Fact, r: Routed, after: seq<Fact>)
    requires active.supersededBy.None? && active.contradicts == [] && active.slot == r.pf.slot
    requires active.createdSeq < r.seqNo && Meet(active, r).1 != [] && Meet(active, r).1[0] in after
    ensures var revised := Meet(active, r).0;
            && StatusAgrees(revised) && SuccessorResolves(after, revised)
            && forall x | x in revised.contradicts :: ConflictResolves(after, revised, x)
  {
    var (revised, added) := Meet(active, r);
    if revised.status == Superseded {
      assert Succeeds(added[0], revised);
    } else {
      assert active.contradicts + [added[0].id] == [added[0].id];
      assert Conflict(revised, added[0]);
      assert revised.contradicts == [added[0].id];
    }
  }

  lemma AddedResolves(facts: seq<Fact>, r: Routed, i: nat)
    requires LinkInv(facts) && Newer(facts, r) && FirstActive(facts, r.lineage, r.pf.slot) == Some(i)
    ensures forall f | f in Meet(facts[i], r).1 :: LinksResolve(Absorb(facts, r), f)
  {
    var active := facts[i];
    assert LinksResolve(facts, active);
    var (revised, added) := Meet(active, r);
    var after := facts[i := revised] + added;
    assert after[i] == revised;
    assert revised in after;
    if added != [] {
      if revised.status == Superseded {
        assert Succeeds(added[0], revised);
      } else {
        assert active.contradicts + [added[0].id] == [added[0].id];
        assert Conflict(added[0], revised);
      }
    }
  }

  /** Where the facts of the result come from. */
  ghost predicate Sourced(f: Fact, facts: seq<Fact>, rs: seq<Routed>) {
    || (exists g :: g in facts && g.pain == f.pain && g.slot == f.slot && g.createdSeq == f.createdSeq)
    || (exists r :: r in rs && r.pain == f.pain && r.pf.slot == f.slot && r.seqNo == f.createdSeq)
  }

  lemma {:induction false} AbsorbAllSourced(facts: seq<Fact>, rs: seq<Routed>)
    ensures forall f | f in AbsorbAll(facts, rs) :: Sourced(f, facts, rs)
  {
    if rs != [] {
      var front, r := rs[..|rs| - 1], rs[|rs| - 1];
      assert rs == front + [r];
      AbsorbAllSourced(facts, front);
      var before, after := AbsorbAll(facts, front), AbsorbAll(facts, rs);
      forall f | f in after ensures Sourced(f, facts, rs) {
        var i :| 0 <= i < |after| && after[i] == f;
        if i < |before| {
          assert Sourced(before[i], facts, front);
        }
      }
    }
  }

  lemma OrderedFront(front: seq<Routed>, r: Routed)
    requires OrderedRoutes(front + [r])
    ensures OrderedRoutes(front)
    ensures forall q | q in front && q.pain in r.lineage && q.pf.slot == r.pf.slot :: q.seqNo < r.seqNo
  {
    var rs := front + [r];
    forall m, n | 0 <= m < n < |front| && front[m].pain in front[n].lineage && front[m].pf.slot == front[n].pf.slot
      ensures front[m].seqNo < front[n].seqNo
    {
      assert rs[m] == front[m] && rs[n] == front[n];
    }
    forall q | q in front && q.pain in r.lineage && q.pf.slot == r.pf.slot ensures q.seqNo < r.seqNo {
      var m :| 0 <= m < |front| && front[m] == q;
      assert rs[m] == q && rs[|front|] == r;
    }
  }

  lemma {:induction false} StillNewer(facts: seq<Fact>, front: seq<Routed>, r: Routed)
    requires Newer(facts, r)
    requires forall q | q in front && q.pain in r.lineage && q.pf.slot == r.pf.slot :: q.seqNo < r.seqNo
    ensures Newer(AbsorbAll(facts, front), r)
  {
    AbsorbAllSourced(facts, front);
    forall f | f in AbsorbAll(facts, front) && f.pain in r.lineage && f.slot == r.pf.slot
      ensures f.createdSeq < r.seqNo
    {
      assert Sourced(f, facts, front);
    }
  }

  /** Links survive any list of routed facts that are newer than what they meet. */
  lemma {:induction false} AbsorbAllKeepsLinks(facts: seq<Fact>, rs: seq<Routed>)
    requires LinkInv(facts) && OrderedRoutes(rs) && forall r | r in rs :: Newer(facts, r)
    ensures LinkInv(AbsorbAll(facts, rs))
  {
    if rs != [] {
      var front, r := rs[..|rs| - 1], rs[|rs| - 1];
      assert rs == front + [r];
      OrderedFront(front, r);
      AbsorbAllKeepsLinks(facts, front);
      var before := AbsorbAll(facts, front);
      StillNewer(facts, front, r);
      var found := FirstActive(before, r.lineage, r.pf.slot);
      if found.None? {
        AbsorbFirstKeepsLinks(before, r);
      } else {
        MeetKeepsLinks(before, r, found.value);
      }
    }
  }

  function NewestSeq(facts: seq<Fact>): (r: int)
    ensures forall f | f in facts :: f.createdSeq <= r
  {
    if facts == [] then 0
    else
      var front, f := facts[..|facts| - 1], facts[|facts| - 1];
      assert facts == front + [f];
      var r := NewestSeq(front);
      if f.createdSeq > r then f.createdSeq else r
  }

  /** Supersede chains end: from any fact a chain of successors leads to a fact that nothing supersedes. */
  lemma {:induction false} ChainEnds(facts: seq<Fact>, f: Fact) returns (chain: seq<Fact>)
    requires LinkInv(facts) && f in facts
    ensures chain != [] && chain[0] == f && chain[|chain| - 1].supersededBy.None?
    ensures forall k | 0 <= k < |chain| :: chain[k] in facts
    ensures forall k | 0 < k < |chain| :: Succeeds(chain[k], chain[k - 1])
    decreases NewestSeq(facts) - f.createdSeq
  {
    assert LinksResolve(facts, f);
    if f.supersededBy.None? {
      chain := [f];
    } else {
      var g :| g in facts && Succeeds(g, f);
      var rest := ChainEnds(facts, g);
      chain := [f] + rest;
    }
  }

  /* ---------- active facts ---------- */

  function ActiveCount(facts: seq<Fact>, lineage: set<PainId>, slot: Slot): nat {
    if facts == [] then 0
    else ActiveCount(facts[..|facts| - 1], lineage, slot) + if Holds(facts[|facts| - 1], lineage, slot) then 1 else 0
  }

  lemma {:induction false} ActiveCountConcat(a: seq<Fact>, b: seq<Fact>, lineage: set<PainId>, slot: Slot)
    ensures ActiveCount(a + b, lineage, slot) == ActiveCount(a, lineage, slot) + ActiveCount(b, lineage, slot)
  {
    if b == [] {
      assert a + b == a;
    } else {
      ActiveCountConcat(a, b[..|b| - 1], lineage, slot);
      assert (a + b)[..|a + b| - 1] == a + b[..|b| - 1];
    }
  }

  function Weight(f: Fact, lineage: set<PainId>, slot: Slot): nat {
    if Holds(f, lineage, slot) then 1 else 0
  }

  lemma ActiveCountUpdate(facts: seq<Fact>, i: nat, g: Fact, lineage: set<PainId>, slot: Slot)
    requires i < |facts|
    ensures ActiveCount(facts[i := g], lineage, slot) + Weight(facts[i], lineage, slot) ==
            ActiveCount(facts, lineage, slot) + Weight(g, lineage, slot)
  {
    var pre, post := facts[..i], facts[i + 1..];
    assert facts == pre + [facts[i]] + post && facts[i := g] == pre + [g] + post;
    ActiveCountConcat(pre + [facts[i]], post, lineage, slot);
    ActiveCountConcat(pre, [facts[i]], lineage, slot);
    ActiveCountConcat(pre + [g], post, lineage, slot);
    ActiveCountConcat(pre, [g], lineage, slot);
    assert [g][..0] == [] && [facts[i]][..0] == [];
  }

  lemma {:induction false} NoneActive(facts: seq<Fact>, lineage: set<PainId>, slot: Slot)
    requires forall f | f in facts :: !Holds(f, lineage, slot)
    ensures ActiveCount(facts, lineage, slot) == 0
  {
    if facts != [] {
      NoneActive(facts[..|facts| - 1], lineage, slot);
    }
  }

  function AtLeastOne(n: nat): nat {
    if n == 0 then 1 else n
  }

  /** Of the active fact and the facts made from it at most one is active; all are in one lineage and slot. */
  lemma MeetWeights(active: Fact, r: Routed, lineage: set<PainId>, slot: Slot)
    requires r.pain in r.lineage && (r.lineage == lineage || r.lineage !! lineage)
    requires Holds(active, r.lineage, r.pf.slot)
    ensures var (revised, added) := Meet(active, r);
            var mine := r.lineage == lineage && r.pf.slot == slot;
            && Weight(active, lineage, slot) == (if mine then 1 else 0)
            && Weight(revised, lineage, slot) + ActiveCount(added, lineage, slot) <= (if mine then 1 else 0)
  {
    var (revised, added) := Meet(active, r);
    assert added == [] || (|added| == 1 && added[..0] == []);
  }

  /** A routed fact moves the active count of its own lineage and slot to at most max(1, before), and no other. */
  lemma AbsorbActiveCount(facts: seq<Fact>, r: Routed, lineage: set<PainId>, slot: Slot)
    requires r.pain in r.lineage && (r.lineage == lineage || r.lineage !! lineage)
    ensures var before, after := ActiveCount(facts, lineage, slot), ActiveCount(Absorb(facts, r), lineage, slot);
            if r.lineage == lineage && r.pf.slot == slot then after <= AtLeastOne(before) else after == before
  {
    var found := FirstActive(facts, r.lineage, r.pf.slot);
    if found.None? {
      var created := NewFact(r, Active, None, []);
      ActiveCountConcat(facts, [created], lineage, slot);
      assert [created][..0] == [];
      if r.lineage == lineage && r.pf.slot == slot {
        NoneActive(facts, lineage, slot);
      }
    } else {
      var (revised, added) := Meet(facts[found.value], r);
      MeetWeights(facts[found.value], r, lineage, slot);
      ActiveCountUpdate(facts, found.value, revised, lineage, slot);
      ActiveCountConcat(facts[found.value := revised], added, lineage, slot);
    }
  }

  /** Routing facts never leaves a lineage with more active facts of a slot than max(1, before). */
  lemma {:induction false} AbsorbAllActiveCount(facts: seq<Fact>, rs: seq<Routed>, lineage: set<PainId>, slot: Slot)
    requires forall r | r in rs :: r.pain in r.lineage && (r.lineage == lineage || r.lineage !! lineage)
    ensures ActiveCount(AbsorbAll(facts, rs), lineage, slot) <= AtLeastOne(ActiveCount(facts, lineage, slot))
  {
    if rs != [] {
      var front, r := rs[..|rs| - 1], rs[|rs| - 1];
      assert rs == front + [r];
      AbsorbAllActiveCount(facts, front, lineage, slot);
      AbsorbActiveCount(AbsorbAll(facts, front), r, lineage, slot);
    }
  }

  /* ---------- what the newest statement does ---------- */

  /** The statement openly contradicts the active fact; evidence overrules an inference instead. */
  predicate Contradicts(active: Fact, r: Routed) {
    active.value != r.pf.value && r.pf.relation == Contradict && !(active.kind == Inference && r.pf.kind == Evidence)
  }

  lemma {:induction false} OneActive(facts: seq<Fact>, i: nat, lineage: set<PainId>, slot: Slot)
    requires i < |facts| && Holds(facts[i], lineage, slot)
    ensures ActiveCount(facts, lineage, slot) >= 1
    ensures ActiveCount(facts, lineage, slot) == 1 <==>
            forall j | 0 <= j < |facts| && j != i :: !Holds(facts[j], lineage, slot)
  {
    var pre, post := facts[..i], facts[i + 1..];
    CountAround(facts, i, lineage, slot);
    CountZero(pre, lineage, slot);
    CountZero(post, lineage, slot);
    assert forall j | 0 <= j < i :: facts[j] == pre[j];
    assert forall j | i < j < |facts| :: facts[j] == post[j - i - 1];
    assert forall j | 0 <= j < |post| :: post[j] == facts[i + 1 + j];
  }

  lemma {:induction false} CountAround(facts: seq<Fact>, i: nat, lineage: set<PainId>, slot: Slot)
    requires i < |facts| && Holds(facts[i], lineage, slot)
    ensures ActiveCount(facts, lineage, slot) ==
            ActiveCount(facts[..i], lineage, slot) + 1 + ActiveCount(facts[i + 1..], lineage, slot)
  {
    var f := facts[i];
    assert facts == facts[..i] + [f] + facts[i + 1..] && [f][..0] == [];
    ActiveCountConcat(facts[..i] + [f], facts[i + 1..], lineage, slot);
    ActiveCountConcat(facts[..i], [f], lineage, slot);
  }

  lemma {:induction false} CountZero(facts: seq<Fact>, lineage: set<PainId>, slot: Slot)
    ensures ActiveCount(facts, lineage, slot) == 0 <==> forall j | 0 <= j < |facts| :: !Holds(facts[j], lineage, slot)
  {
    if facts != [] {
      CountZero(facts[..|facts| - 1], lineage, slot);
    }
  }

  /**
    The newest statement wins while a slot has at most one active fact: afterwards its value is the current one,
    with the new evidence, unless it contradicts the active fact; then the slot has no active fact left.
   */
  lemma {:induction false} NewestStatementWins(facts: seq<Fact>, r: Routed)
    requires r.pain in r.lineage && ActiveCount(facts, r.lineage, r.pf.slot) <= 1
    ensures var found, after := FirstActive(facts, r.lineage, r.pf.slot), Absorb(facts, r);
            var now := FirstActive(after, r.lineage, r.pf.slot);
            if found.Some? && Contradicts(facts[found.value], r) then now.None?
            else now.Some? && after[now.value].value == r.pf.value && r.eventId in after[now.value].evidence
  {
    var found, after := FirstActive(facts, r.lineage, r.pf.slot), Absorb(facts, r);
    if found.None? {
      assert Holds(after[|facts|], r.lineage, r.pf.slot);
    } else {
      var i := found.value;
      OneActive(facts, i, r.lineage, r.pf.slot);
      assert r.eventId in facts[i].evidence + [r.eventId];
      if facts[i].value == r.pf.value {
        assert Holds(after[i], r.lineage, r.pf.slot);
      } else if !Contradicts(facts[i], r) {
        assert Holds(after[|facts|], r.lineage, r.pf.slot);
      }
    }
  }

  /**
    After a merge a slot can have several active facts. A superseding statement then resolves the gap exactly when
    the fact it supersedes was the only active one; otherwise an older fact keeps answering.
   */
  lemma {:induction false} SupersedingResolvesIff(facts: seq<Fact>, r: Routed, i: nat)
    requires r.pain in r.lineage && FirstActive(facts, r.lineage, r.pf.slot) == Some(i)
    requires facts[i].value != r.pf.value && !Contradicts(facts[i], r)
    ensures FirstActive(Absorb(facts, r), r.lineage, r.pf.slot) == Some(|facts|) <==>
            ActiveCount(facts, r.lineage, r.pf.slot) == 1
  {
    var after := Absorb(facts, r);
    OneActive(facts, i, r.lineage, r.pf.slot);
    assert |after| == |facts| + 1 && Holds(after[|facts|], r.lineage, r.pf.slot);
    assert forall j | 0 <= j < |facts| && j != i :: after[j] == facts[j];
    assert !Holds(after[i], r.lineage, r.pf.slot);
  }

  /* ---------- statements that do not meet ---------- */

  /** The statement never meets facts of this lineage and slot. */
  predicate Aside(q: Routed, lineage: set<PainId>, slot: Slot) {
    q.pain in q.lineage && (q.pf.slot != slot || q.lineage !! lineage)
  }

  /** The later log says the same about this lineage and slot. */
  predicate Quiet(facts: seq<Fact>, after: seq<Fact>, lineage: set<PainId>, slot: Slot) {
    && |facts| <= |after|
    && (forall j | 0 <= j < |facts| :: Holds(after[j], lineage, slot) <==> Holds(facts[j], lineage, slot))
    && (forall j | 0 <= j < |facts| && Holds(facts[j], lineage, slot) :: after[j] == facts[j])
    && (forall j | |facts| <= j < |after| :: !Holds(after[j], lineage, slot))
  }

  lemma {:induction false} AbsorbAllQuiet(facts: seq<Fact>, rs: seq<Routed>, lineage: set<PainId>, slot: Slot)
    requires forall q | q in rs :: Aside(q, lineage, slot)
    ensures Quiet(facts, AbsorbAll(facts, rs), lineage, slot)
  {
    if rs != [] {
      var before, q := AbsorbAll(facts, rs[..|rs| - 1]), rs[|rs| - 1];
      AbsorbAllQuiet(facts, rs[..|rs| - 1], lineage, slot);
      AbsorbQuiet(before, q, lineage, slot);
    }
  }

  lemma AbsorbQuiet(facts: seq<Fact>, q: Routed, lineage: set<PainId>, slot: Slot)
    requires Aside(q, lineage, slot)
    ensures Quiet(facts, Absorb(facts, q), lineage, slot)
  {
    var found := FirstActive(facts, q.lineage, q.pf.slot);
    if found.Some? {
      MeetQuiet(facts[found.value], q, lineage, slot);
      ReplacedQuiet(facts, found.value, Meet(facts[found.value], q).0, Meet(facts[found.value], q).1, lineage, slot);
    }
  }

  lemma MeetQuiet(active: Fact, q: Routed, lineage: set<PainId>, slot: Slot)
    requires Aside(q, lineage, slot) && Holds(active, q.lineage, q.pf.slot)
    ensures !Holds(active, lineage, slot) && !Holds(Meet(active, q).0, lineage, slot)
    ensures forall f | f in Meet(active, q).1 :: !Holds(f, lineage, slot)
  {
  }

  lemma ReplacedQuiet(facts: seq<Fact>, i: nat, g: Fact, added: seq<Fact>, lineage: set<PainId>, slot: Slot)
    requires i < |facts| && !Holds(facts[i], lineage, slot) && !Holds(g, lineage, slot)
    requires forall f | f in added :: !Holds(f, lineage, slot)
    ensures Quiet(facts, facts[i := g] + added, lineage, slot)
  {
    var after := facts[i := g] + added;
    forall j | |facts| <= j < |after| ensures !Holds(after[j], lineage, slot) {
      assert after[j] == added[j - |facts|];
    }
  }

  lemma QuietFirst(facts: seq<Fact>, after: seq<Fact>, lineage: set<PainId>, slot: Slot)
    requires Quiet(facts, after, lineage, slot)
    ensures FirstActive(after, lineage, slot) == FirstActive(facts, lineage, slot)
  {
  }

  lemma {:induction false} QuietCount(facts: seq<Fact>, after: seq<Fact>, lineage: set<PainId>, slot: Slot)
    requires Quiet(facts, after, lineage, slot)
    ensures ActiveCount(after, lineage, slot) == ActiveCount(facts, lineage, slot)
    decreases |after|
  {
    if |facts| < |after| {
      QuietCount(facts, after[..|after| - 1], lineage, slot);
    } else if facts != [] {
      QuietCount(facts[..|facts| - 1], after[..|after| - 1], lineage, slot);
    }
  }

  /**
    The first active fact of the slot after the call is one that the call added, with the value of statement r,
    exactly when one fact was active before.
   */
  predicate Resolved(facts: seq<Fact>, after: seq<Fact>, r: Routed) {
    var now := FirstActive(after, r.lineage, r.pf.slot);
    && now.Some?
    && (now.value >= |facts| <==> ActiveCount(facts, r.lineage, r.pf.slot) == 1)
    && (now.value >= |facts| ==> after[now.value].value == r.pf.value)
  }

  /** Statements before and after it that do not meet its slot change nothing about whether it becomes current. */
  lemma {:induction false} SupersedingAmongOthers(facts: seq<Fact>, rs: seq<Routed>, k: nat, i: nat)
    requires k < |rs| && rs[k].pain in rs[k].lineage
    requires forall n | 0 <= n < |rs| && n != k :: Aside(rs[n], rs[k].lineage, rs[k].pf.slot)
    requires FirstActive(facts, rs[k].lineage, rs[k].pf.slot) == Some(i)
    requires facts[i].value != rs[k].pf.value && !Contradicts(facts[i], rs[k])
    ensures Resolved(facts, AbsorbAll(facts, rs), rs[k])
  {
    var r, before := rs[k], AbsorbAll(facts, rs[..k]);
    assert AbsorbAll(facts, rs) == AbsorbAll(Absorb(before, r), rs[k + 1..]) by {
      assert rs == rs[..k + 1] + rs[k + 1..] && rs[..k + 1][..k] == rs[..k];
      AbsorbAllConcat(facts, rs[..k + 1], rs[k + 1..]);
    }
    AbsorbAllQuiet(facts, rs[..k], r.lineage, r.pf.slot);
    AbsorbAllQuiet(Absorb(before, r), rs[k + 1..], r.lineage, r.pf.slot);
    SupersedingResolves(facts, before, AbsorbAll(facts, rs), r, i);
  }

  lemma {:induction false} SupersedingResolves(facts: seq<Fact>, before: seq<Fact>, after: seq<Fact>, r: Routed, i: nat)
    requires r.pain in r.lineage && FirstActive(facts, r.lineage, r.pf.slot) == Some(i)
    requires facts[i].value != r.pf.value && !Contradicts(facts[i], r)
    requires Quiet(facts, before, r.lineage, r.pf.slot) && Quiet(Absorb(before, r), after, r.lineage, r.pf.slot)
    ensures Resolved(facts, after, r)
  {
    var mid := Absorb(before, r);
    QuietFirst(facts, before, r.lineage, r.pf.slot);
    QuietFirst(mid, after, r.lineage, r.pf.slot);
    QuietCount(facts, before, r.lineage, r.pf.slot);
    SupersedingResolvesIff(before, r, i);
    assert |mid| == |before| + 1 && mid[|before|] == NewFact(r, Active, Some(before[i].id), []);
    assert forall j | 0 <= j < |before| && j != i :: mid[j] == before[j];
    assert Holds(mid[|before|], r.lineage, r.pf.slot) && !Holds(mid[i], r.lineage, r.pf.slot);
  }
}
