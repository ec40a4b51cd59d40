/** What the gap table says about the fact log, and what a merge does to lineages. */
module GapLaws {
  import opened Contracts
  import opened Sequences
  import opened Templates
  import opened Reducer
  import opened Identity

  /** A slot is answered when the lineage of the problem has an active fact of it. */
  ghost predicate Answered(pains: seq<Pain>, facts: seq<Fact>, id: GapId) {
    exists f :: f in facts && Holds(f, Lineage(pains, id.pain), id.slot)
  }

  lemma {:induction false} PriorityFindsSlot(slots: seq<Slot>, slot: Slot)
    requires slot in slots
    ensures PriorityOf(slots, slot) < |slots| && slots[PriorityOf(slots, slot)] == slot
  {
    if slots[0] != slot {
      PriorityFindsSlot(slots[1..], slot);
    }
  }

  lemma {:induction false} PriorityIsPosition(slots: seq<Slot>, k: nat)
    requires NoDup(slots) && k < |slots|
    ensures PriorityOf(slots, slots[k]) == k
  {
    if k > 0 {
      PriorityIsPosition(slots[1..], k - 1);
    }
  }

  /** A gap of the table is the gap of some slot of some asked problem. */
  ghost predicate FromPain(
    reg: Registry, pains: seq<Pain>, facts: seq<Fact>, prior: seq<Gap>, i: nat, k: nat, g: Gap)
  {
    i < |pains| && Asked(reg, pains[i]) && k < |reg[pains[i].category].slots| &&
    var slots := reg[pains[i].category].slots;
    g == GapFor(pains, facts, prior, GapId(pains[i].id, slots[k]), PriorityOf(slots, slots[k]))
  }

  lemma {:induction false} SlotGapsShape(
    pains: seq<Pain>, facts: seq<Fact>, prior: seq<Gap>, pain: PainId, slots: seq<Slot>, n: nat)
    requires n <= |slots|
    ensures var gaps := SlotGaps(pains, facts, prior, pain, slots, n);
            |gaps| == n && forall k | 0 <= k < n ::
              gaps[k] == GapFor(pains, facts, prior, GapId(pain, slots[k]), PriorityOf(slots, slots[k]))
  {
    if n > 0 {
      SlotGapsShape(pains, facts, prior, pain, slots, n - 1);
    }
  }

  lemma {:induction false} GapsUpToShape(reg: Registry, pains: seq<Pain>, facts: seq<Fact>, prior: seq<Gap>, n: nat)
    requires n <= |pains|
    ensures forall g | g in GapsUpTo(reg, pains, facts, prior, n) ::
              exists i: nat, k: nat :: i < n && FromPain(reg, pains, facts, prior, i, k, g)
    ensures forall i: nat, k: nat, g | i < n && FromPain(reg, pains, facts, prior, i, k, g) ::
              g in GapsUpTo(reg, pains, facts, prior, n)
  {
    if n > 0 {
      GapsUpToShape(reg, pains, facts, prior, n - 1);
      var p := pains[n - 1];
      if Asked(reg, p) {
        var slots := reg[p.category].slots;
        var rows := SlotGaps(pains, facts, prior, p.id, slots, |slots|);
        SlotGapsShape(pains, facts, prior, p.id, slots, |slots|);
        forall g | g in rows ensures exists i: nat, k: nat :: i < n && FromPain(reg, pains, facts, prior, i, k, g) {
          var k :| 0 <= k < |rows| && rows[k] == g;
          assert FromPain(reg, pains, facts, prior, n - 1, k, g);
        }
        var last := n - 1;
        forall k: nat, g | FromPain(reg, pains, facts, prior, last, k, g) ensures g in rows {
          assert rows[k] == g;
        }
      }
    }
  }

  /** The slot with this id is asked: its problem is asked and its template has it. */
  ghost predicate Tracked(reg: Registry, pains: seq<Pain>, id: GapId) {
    exists i :: 0 <= i < |pains| && pains[i].id == id.pain && Asked(reg, pains[i]) &&
                id.slot in reg[pains[i].category].slots
  }

  /** The base priority of the gap is the position of its slot in the template. */
  ghost predicate InTemplate(reg: Registry, pains: seq<Pain>, g: Gap) {
    exists i :: 0 <= i < |pains| && pains[i].id == g.id.pain && Asked(reg, pains[i]) &&
                g.basePriority < |reg[pains[i].category].slots| &&
                reg[pains[i].category].slots[g.basePriority] == g.id.slot
  }

  /** The whole meaning of the table: which gaps it has, and what each says about facts and about the prior table. */
  ghost predicate TableOf(
    reg: Registry, pains: seq<Pain>, facts: seq<Fact>, prior: seq<Gap>, gaps: seq<Gap>, id: GapId) {
    var now, last := PriorOf(gaps, id), PriorOf(prior, id);
    && (now.Some? <==> Tracked(reg, pains, id))
    && (now.Some? ==>
          && now.value.id == id
          && InTemplate(reg, pains, now.value)
          && (now.value.answered <==> Answered(pains, facts, id))
          && now.value.reopenCount == (if last.Some? then last.value.reopenCount else 0)
                                      + (if last.Some? && last.value.answered && !now.value.answered then 1 else 0)
          && (now.value.resolvedBy.Some? <==> now.value.answered)
          && (now.value.answered ==> exists f :: f in facts && f.id == now.value.resolvedBy.value &&
                                                Holds(f, Lineage(pains, id.pain), id.slot)))
  }

  lemma GapForMeaning(pains: seq<Pain>, facts: seq<Fact>, prior: seq<Gap>, id: GapId, priority: nat)
    ensures var now, last := GapFor(pains, facts, prior, id, priority), PriorOf(prior, id);
            && now.id == id
            && (now.answered <==> Answered(pains, facts, id))
            && now.reopenCount == (if last.Some? then last.value.reopenCount else 0)
                                  + (if last.Some? && last.value.answered && !now.answered then 1 else 0)
            && (now.resolvedBy.Some? <==> now.answered)
            && (now.answered ==> exists f :: f in facts && f.id == now.resolvedBy.value &&
                                            Holds(f, Lineage(pains, id.pain), id.slot))
  {
  }

  lemma GapTable(reg: Registry, pains: seq<Pain>, facts: seq<Fact>, prior: seq<Gap>, id: GapId)
    ensures TableOf(reg, pains, facts, prior, Gaps(reg, pains, facts, prior), id)
  {
    var gaps := Gaps(reg, pains, facts, prior);
    var now := PriorOf(gaps, id);
    GapsUpToShape(reg, pains, facts, prior, |pains|);
    if now.Some? {
      var i: nat, k: nat :| i < |pains| && FromPain(reg, pains, facts, prior, i, k, now.value);
      GapForMeaning(pains, facts, prior, id, now.value.basePriority);
      var slots := reg[pains[i].category].slots;
      assert slots[k] in slots;
      PriorityFindsSlot(slots, slots[k]);
    }
    if Tracked(reg, pains, id) {
      var i :| 0 <= i < |pains| && pains[i].id == id.pain && Asked(reg, pains[i]) &&
               id.slot in reg[pains[i].category].slots;
      var slots := reg[pains[i].category].slots;
      var k :| 0 <= k < |slots| && slots[k] == id.slot;
      var g := GapFor(pains, facts, prior, id, PriorityOf(slots, slots[k]));
      assert FromPain(reg, pains, facts, prior, i, k, g);
      assert g in gaps;
    }
  }

  /** Recomputing from unchanged problems and facts changes nothing, reopen counts included. */
  lemma GapsIdempotent(reg: Registry, pains: seq<Pain>, facts: seq<Fact>, prior: seq<Gap>)
    ensures Gaps(reg, pains, facts, Gaps(reg, pains, facts, prior)) == Gaps(reg, pains, facts, prior)
  {
    var gaps := Gaps(reg, pains, facts, prior);
    GapsUpToSame(reg, pains, facts, prior, gaps, |pains|);
  }

  lemma {:induction false} GapsUpToSame(
    reg: Registry, pains: seq<Pain>, facts: seq<Fact>, prior: seq<Gap>, gaps: seq<Gap>, n: nat)
    requires n <= |pains| && gaps == Gaps(reg, pains, facts, prior)
    ensures GapsUpTo(reg, pains, facts, gaps, n) == GapsUpTo(reg, pains, facts, prior, n)
  {
    if n > 0 {
      GapsUpToSame(reg, pains, facts, prior, gaps, n - 1);
      var p := pains[n - 1];
      if Asked(reg, p) {
        var slots := reg[p.category].slots;
        SlotGapsShape(pains, facts, prior, p.id, slots, |slots|);
        SlotGapsShape(pains, facts, gaps, p.id, slots, |slots|);
        forall k | 0 <= k < |slots|
          ensures GapFor(pains, facts, gaps, GapId(p.id, slots[k]), PriorityOf(slots, slots[k])) ==
                  GapFor(pains, facts, prior, GapId(p.id, slots[k]), PriorityOf(slots, slots[k]))
        {
          GapTable(reg, pains, facts, prior, GapId(p.id, slots[k]));
          assert Tracked(reg, pains, GapId(p.id, slots[k]));
        }
      }
    }
  }

  /** Gap ids do not repeat. */
  lemma {:induction false} GapIdsDistinct(reg: Registry, pains: seq<Pain>, facts: seq<Fact>, prior: seq<Gap>, n: nat)
    requires WellFormed(reg) && DistinctIds(pains) && n <= |pains|
    ensures forall a, b | 0 <= a < b < |GapsUpTo(reg, pains, facts, prior, n)| ::
              GapsUpTo(reg, pains, facts, prior, n)[a].id != GapsUpTo(reg, pains, facts, prior, n)[b].id
  {
    if n > 0 {
      GapIdsDistinct(reg, pains, facts, prior, n - 1);
      GapsUpToShape(reg, pains, facts, prior, n - 1);
      var p := pains[n - 1];
      if Asked(reg, p) {
        var slots := reg[p.category].slots;
        SlotGapsShape(pains, facts, prior, p.id, slots, |slots|);
        var front := GapsUpTo(reg, pains, facts, prior, n - 1);
        forall g | g in front ensures g.id.pain != p.id {
          var i: nat, k: nat :| i < n - 1 && FromPain(reg, pains, facts, prior, i, k, g);
        }
      }
    }
  }

  /** Gaps are listed by problem, and for one problem in template order. */
  ghost predicate ListedBefore(pains: seq<Pain>, a: Gap, b: Gap) {
    var i, j := IndexOf(pains, a.id.pain), IndexOf(pains, b.id.pain);
    i.Some? && j.Some? && (i.value < j.value || (i.value == j.value && a.basePriority < b.basePriority))
  }

  lemma {:induction false} GapsInOrder(reg: Registry, pains: seq<Pain>, facts: seq<Fact>, prior: seq<Gap>, n: nat)
    requires WellFormed(reg) && DistinctIds(pains) && n <= |pains|
    ensures forall a, b | 0 <= a < b < |GapsUpTo(reg, pains, facts, prior, n)| ::
              ListedBefore(pains, GapsUpTo(reg, pains, facts, prior, n)[a], GapsUpTo(reg, pains, facts, prior, n)[b])
  {
    if n > 0 {
      GapsInOrder(reg, pains, facts, prior, n - 1);
      GapsUpToShape(reg, pains, facts, prior, n - 1);
      var p, front := pains[n - 1], GapsUpTo(reg, pains, facts, prior, n - 1);
      assert IndexOf(pains, p.id) == Some(n - 1);
      forall g | g in front ensures IndexOf(pains, g.id.pain).Some? && IndexOf(pains, g.id.pain).value < n - 1 {
        var i: nat, k: nat :| i < n - 1 && FromPain(reg, pains, facts, prior, i, k, g);
        assert IndexOf(pains, pains[i].id) == Some(i);
      }
      if Asked(reg, p) {
        SlotGapsInOrder(pains, facts, prior, p.id, reg[p.category].slots);
      }
    }
  }

  lemma {:induction false} SlotGapsInOrder(
    pains: seq<Pain>, facts: seq<Fact>, prior: seq<Gap>, pain: PainId, slots: seq<Slot>)
    requires NoDup(slots)
    ensures var gaps := SlotGaps(pains, facts, prior, pain, slots, |slots|);
            |gaps| == |slots| && forall k | 0 <= k < |gaps| :: gaps[k].id.pain == pain && gaps[k].basePriority == k
  {
    SlotGapsShape(pains, facts, prior, pain, slots, |slots|);
    forall k | 0 <= k < |slots| ensures PriorityOf(slots, slots[k]) == k {
      PriorityIsPosition(slots, k);
    }
  }

  /* ---------- lineages ---------- */

  lemma InLineage(pains: seq<Pain>, id: PainId, x: PainId)
    ensures x in Lineage(pains, id) <==>
            exists i :: 0 <= i < |pains| && pains[i].id == x && (x == id || pains[i].mergedInto == Some(id))
  {
    if x in Lineage(pains, id) {
      var p :| p in pains && (p.id == id || p.mergedInto == Some(id)) && p.id == x;
    }
    if i :| 0 <= i < |pains| && pains[i].id == x && (x == id || pains[i].mergedInto == Some(id)) {
      assert pains[i] in pains;
    }
  }

  /** Lineages of different unmerged problems share nothing. */
  lemma LineagesDisjoint(pains: seq<Pain>, i: nat, j: nat)
    requires DistinctIds(pains) && i < |pains| && j < |pains| && i != j && pains[i].Live() && pains[j].Live()
    ensures Lineage(pains, pains[i].id) !! Lineage(pains, pains[j].id)
  {
    forall x ensures x !in Lineage(pains, pains[i].id) || x !in Lineage(pains, pains[j].id) {
      InLineage(pains, pains[i].id, x);
      InLineage(pains, pains[j].id, x);
    }
  }

  /** A merge extends the survivor's lineage by the merged problem alone and leaves other unmerged problems theirs. */
  lemma MergeLineages(pains: seq<Pain>, s: nat, m: nat, x: nat)
    requires DistinctIds(pains) && s < |pains| && m < |pains| && s != m && x < |pains| && x != m
    requires pains[s].Live() && pains[m].Live() && pains[x].Live()
    ensures Lineage(MergeAt(pains, s, m), pains[x].id) ==
            Lineage(pains, pains[x].id) + if x == s then {pains[m].id} else {}
  {
    var b := MergeAt(pains, s, m);
    assert forall i | 0 <= i < |pains| :: b[i].id == pains[i].id && (i != m ==> b[i].mergedInto == pains[i].mergedInto);
    forall y ensures y in Lineage(b, pains[x].id) <==>
                     y in Lineage(pains, pains[x].id) || (x == s && y == pains[m].id)
    {
      InLineage(b, pains[x].id, y);
      InLineage(pains, pains[x].id, y);
      assert b[m].id == pains[m].id && b[m].mergedInto == Some(pains[s].id);
    }
  }

  /** Answered slots of unmerged problems stay answered through a merge, so a merge reopens nothing. */
  lemma MergeKeepsAnswers(pains: seq<Pain>, facts: seq<Fact>, s: nat, m: nat, x: nat, slot: Slot)
    requires DistinctIds(pains) && s < |pains| && m < |pains| && s != m && x < |pains| && x != m
    requires pains[s].Live() && pains[m].Live() && pains[x].Live()
    ensures Answered(pains, facts, GapId(pains[x].id, slot)) ==>
            Answered(MergeAt(pains, s, m), facts, GapId(pains[x].id, slot))
  {
    MergeLineages(pains, s, m, x);
    if Answered(pains, facts, GapId(pains[x].id, slot)) {
      var f :| f in facts && Holds(f, Lineage(pains, pains[x].id), slot);
      assert Holds(f, Lineage(MergeAt(pains, s, m), pains[x].id), slot);
    }
  }

  /**
    Lineages are one level deep. The survivor inherits everything the merged problem could see exactly when
    nothing had been merged into that problem before.
   */
  lemma MergeInheritsLineage(pains: seq<Pain>, s: nat, m: nat)
    requires IdentityInv(pains) && s < |pains| && m < |pains| && s != m && pains[s].Live() && pains[m].Live()
    ensures Lineage(pains, pains[m].id) <= Lineage(MergeAt(pains, s, m), pains[s].id) <==>
            forall i | 0 <= i < |pains| :: pains[i].mergedInto != Some(pains[m].id)
  {
    MergeLineages(pains, s, m, s);
    var after := Lineage(MergeAt(pains, s, m), pains[s].id);
    if i :| 0 <= i < |pains| && pains[i].mergedInto == Some(pains[m].id) {
      InLineage(pains, pains[m].id, pains[i].id);
      InLineage(pains, pains[s].id, pains[i].id);
      assert pains[i].id !in after;
    }
    forall x | x in Lineage(pains, pains[m].id) &&
               forall i | 0 <= i < |pains| :: pains[i].mergedInto != Some(pains[m].id)
      ensures x in after
    {
      InLineage(pains, pains[m].id, x);
    }
  }

  /**
    What a merge answers: a slot of the survivor is answered afterwards exactly when it was answered before or the
    merged problem itself holds an active fact of it. Facts of problems merged earlier into the merged one are lost.
   */
  lemma MergeAnswersIff(pains: seq<Pain>, facts: seq<Fact>, s: nat, m: nat, slot: Slot)
    requires DistinctIds(pains) && s < |pains| && m < |pains| && s != m && pains[s].Live() && pains[m].Live()
    ensures Answered(MergeAt(pains, s, m), facts, GapId(pains[s].id, slot)) <==>
            || Answered(pains, facts, GapId(pains[s].id, slot))
            || exists f :: f in facts && Holds(f, {pains[m].id}, slot)
  {
    MergeLineages(pains, s, m, s);
    var before, after := Lineage(pains, pains[s].id), Lineage(MergeAt(pains, s, m), pains[s].id);
    assert forall f :: Holds(f, after, slot) <==> Holds(f, before, slot) || Holds(f, {pains[m].id}, slot);
  }
}
