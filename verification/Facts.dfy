/**
  The fact log. Every operation of the engine acts on it as AbsorbAll over some list of routed facts, so its laws
  are proved once for AbsorbAll: history is append-only, links resolve both ways, active facts stay bounded, and
  the log restricted to some problems evolves by the facts routed to those problems alone.
 */
module Facts {
  import opened Contracts
  import opened Sequences
  import opened Reducer

  lemma {:induction false} AbsorbAllConcat(facts: seq<Fact>, a: seq<Routed>, b: seq<Routed>)
    ensures AbsorbAll(facts, a + b) == AbsorbAll(AbsorbAll(facts, a), b)
  {
    if b == [] {
      assert a + b == a;
    } else {
      var front, last := b[..|b| - 1], b[|b| - 1];
      AbsorbAllConcat(facts, a, front);
      assert (a + b)[..|a + b| - 1] == a + front;
    }
  }

  /* ---------- append-only history ---------- */

  /** One fact in an earlier and a later state: only active facts change, and only in evidence, status and links. */
  ghost predicate FactEvolves(f: Fact, g: Fact) {
    && g == f.(evidence := g.evidence, status := g.status, supersededBy := g.supersededBy, contradicts := g.contradicts)
    && (forall e | e in f.evidence :: e in g.evidence)
    && (f.status != Active ==> g == f)
    && (f.status == g.status ==> g.supersededBy == f.supersededBy && g.contradicts == f.contradicts)
  }

  /** Facts are never removed, reordered or renamed. */
  ghost predicate FactsEvolve(a: seq<Fact>, b: seq<Fact>) {
    |a| <= |b| && forall i | 0 <= i < |a| :: FactEvolves(a[i], b[i])
  }

  lemma FactsEvolveTransitive(a: seq<Fact>, b: seq<Fact>, c: seq<Fact>)
    requires FactsEvolve(a, b) && FactsEvolve(b, c)
    ensures FactsEvolve(a, c)
  {
    forall i | 0 <= i < |a| ensures FactEvolves(a[i], c[i]) {
      assert FactEvolves(a[i], b[i]) && FactEvolves(b[i], c[i]);
    }
  }

  lemma AbsorbEvolves(facts: seq<Fact>, r: Routed)
    ensures FactsEvolve(facts, Absorb(facts, r))
  {
  }

  lemma {:induction false} AbsorbAllEvolves(facts: seq<Fact>, rs: seq<Routed>)
    ensures FactsEvolve(facts, AbsorbAll(facts, rs))
  {
    if rs != [] {
      AbsorbAllEvolves(facts, rs[..|rs| - 1]);
      AbsorbEvolves(AbsorbAll(facts, rs[..|rs| - 1]), rs[|rs| - 1]);
      FactsEvolveTransitive(facts, AbsorbAll(facts, rs[..|rs| - 1]), AbsorbAll(facts, rs));
    }
  }

  /** Every fact of the result names a problem and evidence of an earlier fact or of a routed fact. */
  ghost predicate Traced(facts: seq<Fact>, pains: set<PainId>, events: set<string>) {
    forall f | f in facts :: f.pain in pains && f.evidence != [] && forall e | e in f.evidence :: e in events
  }

  lemma {:induction false} AbsorbAllTraced(facts: seq<Fact>, rs: seq<Routed>, pains: set<PainId>, events: set<string>)
    requires Traced(facts, pains, events)
    requires forall r | r in rs :: r.pain in pains && r.eventId in events
    ensures Traced(AbsorbAll(facts, rs), pains, events)
  {
    if rs != [] {
      var front, r := rs[..|rs| - 1], rs[|rs| - 1];
      AbsorbAllTraced(facts, front, pains, events);
      assert r in rs;
      var before, after := AbsorbAll(facts, front), AbsorbAll(facts, rs);
      forall f | f in after ensures f.pain in pains && f.evidence != [] && forall e | e in f.evidence :: e in events {
        var i :| 0 <= i < |after| && after[i] == f;
        if i < |before| {
          assert before[i] in before;
          assert before[i].evidence[0] in (before[i].evidence + [r.eventId]);
        }
      }
    }
  }

  /* ---------- restriction to some problems ---------- */

  /** The facts inside (or outside) a set of problems, in order. */
  function Restrict(facts: seq<Fact>, ids: set<PainId>, inside: bool): (r: seq<Fact>)
    ensures forall f :: f in r <==> f in facts && (f.pain in ids) == inside
  {
    if facts == [] then []
    else
      var front, f := facts[..|facts| - 1], facts[|facts| - 1];
      assert facts == front + [f];
      if (f.pain in ids) == inside then Restrict(front, ids, inside) + [f] else Restrict(front, ids, inside)
  }

  function RestrictRoutes(rs: seq<Routed>, ids: set<PainId>, inside: bool): (r: seq<Routed>)
    ensures forall x :: x in r <==> x in rs && (x.pain in ids) == inside
  {
    if rs == [] then []
    else
      var front, x := rs[..|rs| - 1], rs[|rs| - 1];
      assert rs == front + [x];
      if (x.pain in ids) == inside then RestrictRoutes(front, ids, inside) + [x] else RestrictRoutes(front, ids, inside)
  }

  lemma {:induction false} RestrictConcat(a: seq<Fact>, b: seq<Fact>, ids: set<PainId>, inside: bool)
    ensures Restrict(a + b, ids, inside) == Restrict(a, ids, inside) + Restrict(b, ids, inside)
  {
    if b == [] {
      assert a + b == a;
    } else {
      RestrictConcat(a, b[..|b| - 1], ids, inside);
      assert (a + b)[..|a + b| - 1] == a + b[..|b| - 1];
    }
  }

  lemma {:induction false} RestrictAll(facts: seq<Fact>, ids: set<PainId>, inside: bool)
    requires forall f | f in facts :: (f.pain in ids) == inside
    ensures Restrict(facts, ids, inside) == facts
  {
    if facts != [] {
      var front, f := facts[..|facts| - 1], facts[|facts| - 1];
      assert facts == front + [f];
      RestrictAll(front, ids, inside);
    }
  }

  lemma {:induction false} RestrictUniform(facts: seq<Fact>, pain: PainId, ids: set<PainId>, inside: bool)
    requires forall f | f in facts :: f.pain == pain
    ensures Restrict(facts, ids, inside) == if (pain in ids) == inside then facts else []
  {
    if (pain in ids) == inside {
      RestrictAll(facts, ids, inside);
    } else {
      NoElements(Restrict(facts, ids, inside));
    }
  }

  /** Replacing fact i by one of the same problem restricts to the same replacement. */
  lemma {:induction false} RestrictUpdate(facts: seq<Fact>, i: nat, g: Fact, ids: set<PainId>, inside: bool)
    requires i < |facts| && g.pain == facts[i].pain
    ensures Restrict(facts[i := g], ids, inside) ==
            if (g.pain in ids) == inside
            then Restrict(facts[..i], ids, inside) + [g] + Restrict(facts[i + 1..], ids, inside)
            else Restrict(facts, ids, inside)
  {
    var pre, post := facts[..i], facts[i + 1..];
    assert facts == pre + [facts[i]] + post && facts[i := g] == pre + [g] + post;
    RestrictConcat(pre + [facts[i]], post, ids, inside);
    RestrictConcat(pre, [facts[i]], ids, inside);
    RestrictConcat(pre + [g], post, ids, inside);
    RestrictConcat(pre, [g], ids, inside);
    RestrictUniform([g], g.pain, ids, inside);
    RestrictUniform([facts[i]], g.pain, ids, inside);
  }

  /** The set of problems does not cut through the lineage of r. */
  predicate Uncut(r: Routed, ids: set<PainId>) {
    r.pain in r.lineage && forall p | p in r.lineage :: (p in ids) == (r.pain in ids)
  }

  lemma {:induction false} RestrictFirstActive(facts: seq<Fact>, r: Routed, ids: set<PainId>, i: nat)
    requires Uncut(r, ids) && FirstActive(facts, r.lineage, r.pf.slot) == Some(i)
    ensures FirstActive(Restrict(facts, ids, r.pain in ids), r.lineage, r.pf.slot) ==
            Some(|Restrict(facts[..i], ids, r.pain in ids)|)
  {
    var inside := r.pain in ids;
    var pre, post := Restrict(facts[..i], ids, inside), Restrict(facts[i + 1..], ids, inside);
    assert Restrict(facts, ids, inside) == pre + [facts[i]] + post by {
      RestrictUpdate(facts, i, facts[i], ids, inside);
      assert facts[i := facts[i]] == facts;
    }
    forall f | f in pre ensures !Holds(f, r.lineage, r.pf.slot) {
      assert f in facts[..i];
    }
    FirstActiveAt(pre, facts[i], post, r.lineage, r.pf.slot);
  }

  lemma {:induction false} FirstActiveAt(pre: seq<Fact>, f: Fact, post: seq<Fact>, lineage: set<PainId>, slot: Slot)
    requires Holds(f, lineage, slot) && forall g | g in pre :: !Holds(g, lineage, slot)
    ensures FirstActive(pre + [f] + post, lineage, slot) == Some(|pre|)
  {
    var all := pre + [f] + post;
    assert all[|pre|] == f;
    assert forall j | 0 <= j < |pre| :: all[j] == pre[j] && pre[j] in pre;
  }

  lemma {:induction false} NoneActiveInside(facts: seq<Fact>, r: Routed, ids: set<PainId>, inside: bool)
    requires FirstActive(facts, r.lineage, r.pf.slot).None?
    ensures FirstActive(Restrict(facts, ids, inside), r.lineage, r.pf.slot).None?
  {
    var kept := Restrict(facts, ids, inside);
    forall j | 0 <= j < |kept| ensures !Holds(kept[j], r.lineage, r.pf.slot) {
      assert kept[j] in facts;
    }
  }

  lemma {:induction false} RestrictAbsorbElsewhere(facts: seq<Fact>, r: Routed, ids: set<PainId>, inside: bool)
    requires Uncut(r, ids) && (r.pain in ids) != inside
    ensures Restrict(Absorb(facts, r), ids, inside) == Restrict(facts, ids, inside)
  {
    var found := FirstActive(facts, r.lineage, r.pf.slot);
    if found.None? {
      RestrictConcat(facts, [NewFact(r, Active, None, [])], ids, inside);
      RestrictUniform([NewFact(r, Active, None, [])], r.pain, ids, inside);
    } else {
      var (revised, added) := Meet(facts[found.value], r);
      RestrictConcat(facts[found.value := revised], added, ids, inside);
      RestrictUniform(added, r.pain, ids, inside);
      RestrictUpdate(facts, found.value, revised, ids, inside);
    }
  }

  lemma AbsorbSplit(pre: seq<Fact>, active: Fact, post: seq<Fact>, r: Routed)
    requires FirstActive(pre + [active] + post, r.lineage, r.pf.slot) == Some(|pre|)
    ensures Absorb(pre + [active] + post, r) == pre + [Meet(active, r).0] + post + Meet(active, r).1
  {
    assert (pre + [active] + post)[|pre|] == active;
    assert (pre + [active] + post)[|pre| := Meet(active, r).0] == pre + [Meet(active, r).0] + post;
  }

  lemma {:induction false} RestrictAbsorbMet(facts: seq<Fact>, r: Routed, ids: set<PainId>, i: nat)
    requires Uncut(r, ids) && FirstActive(facts, r.lineage, r.pf.slot) == Some(i)
    ensures var inside := r.pain in ids;
            Restrict(Absorb(facts, r), ids, inside) == Absorb(Restrict(facts, ids, inside), r)
  {
    var inside := r.pain in ids;
    var (revised, added) := Meet(facts[i], r);
    var pre, post := Restrict(facts[..i], ids, inside), Restrict(facts[i + 1..], ids, inside);
    assert Restrict(facts[i := revised] + added, ids, inside) == pre + [revised] + post + added by {
      RestrictConcat(facts[i := revised], added, ids, inside);
      RestrictUniform(added, r.pain, ids, inside);
      RestrictUpdate(facts, i, revised, ids, inside);
    }
    assert Restrict(facts, ids, inside) == pre + [facts[i]] + post by {
      RestrictUpdate(facts, i, facts[i], ids, inside);
      assert facts[i := facts[i]] == facts;
    }
    RestrictFirstActive(facts, r, ids, i);
    AbsorbSplit(pre, facts[i], post, r);
  }

  lemma {:induction false} RestrictAbsorbHere(facts: seq<Fact>, r: Routed, ids: set<PainId>)
    requires Uncut(r, ids)
    ensures var inside := r.pain in ids;
            Restrict(Absorb(facts, r), ids, inside) == Absorb(Restrict(facts, ids, inside), r)
  {
    var found := FirstActive(facts, r.lineage, r.pf.slot);
    if found.None? {
      NoneActiveInside(facts, r, ids, r.pain in ids);
      RestrictConcat(facts, [NewFact(r, Active, None, [])], ids, r.pain in ids);
      RestrictUniform([NewFact(r, Active, None, [])], r.pain, ids, r.pain in ids);
    } else {
      RestrictAbsorbMet(facts, r, ids, found.value);
    }
  }

  /** The isolation law: the log of some problems is the fold of the facts routed to them. */
  lemma {:induction false} RestrictAbsorbAll(facts: seq<Fact>, rs: seq<Routed>, ids: set<PainId>, inside: bool)
    requires forall r | r in rs :: Uncut(r, ids)
    ensures Restrict(AbsorbAll(facts, rs), ids, inside) ==
            AbsorbAll(Restrict(facts, ids, inside), RestrictRoutes(rs, ids, inside))
  {
    if rs != [] {
      var front, r := rs[..|rs| - 1], rs[|rs| - 1];
      assert rs == front + [r];
      RestrictAbsorbAll(facts, front, ids, inside);
      if (r.pain in ids) != inside {
        RestrictAbsorbElsewhere(AbsorbAll(facts, front), r, ids, inside);
      } else {
        RestrictAbsorbHere(AbsorbAll(facts, front), r, ids);
        var kept := RestrictRoutes(front, ids, inside);
        assert (kept + [r])[..|kept|] == kept;
      }
    }
  }
}
