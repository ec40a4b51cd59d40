/**
  Problem identity: instance keys, aliases and merge links form a union-find. The reducer never walks the merge
  links; it searches the aliases of unmerged problems. The two agree in every state that keeps IdentityInv.
 */
module Identity {
  import opened Contracts
  import opened Sequences
  import opened Reducer

  function IndexOf(pains: seq<Pain>, id: PainId): (r: Option<nat>)
    ensures r.Some? ==> r.value < |pains| && pains[r.value].id == id
    ensures r.Some? ==> forall j | 0 <= j < r.value :: pains[j].id != id
    ensures r.None? ==> forall j | 0 <= j < |pains| :: pains[j].id != id
  {
    FirstIndex(pains, (p: Pain) => p.id == id)
  }

  function RetiredIds(pains: seq<Pain>): set<PainId> {
    set p | p in pains && !p.Live() :: p.id
  }

  function LiveIds(pains: seq<Pain>): set<PainId> {
    set p | p in pains && p.Live() :: p.id
  }

  /** Pointer chasing: the unmerged problem reached from id over at most n merge links. */
  function Root(pains: seq<Pain>, id: PainId, n: nat): (r: Option<nat>)
    ensures r.Some? ==> r.value < |pains| && pains[r.value].Live()
    decreases n
  {
    var i := IndexOf(pains, id);
    if i.None? then None
    else if pains[i.value].Live() then i
    else if n == 0 then None
    else Root(pains, pains[i.value].mergedInto.value, n - 1)
  }

  predicate SameShape(p: Pain) {
    && (p.open <==> p.Live())
    && p.id.category == p.category
    && p.HasKey(p.id.key)
  }

  ghost predicate Covers(q: Pain, p: Pain) {
    q.category == p.category && forall k | p.HasKey(k) :: q.HasKey(k)
  }

  predicate DistinctIds(pains: seq<Pain>) {
    forall i, j | 0 <= i < j < |pains| :: pains[i].id != pains[j].id
  }

  ghost predicate Shaped(pains: seq<Pain>, i: nat)
    requires i < |pains|
  {
    SameShape(pains[i])
  }

  ghost predicate Apart(p: Pain, q: Pain) {
    p.category == q.category && p.Live() && q.Live() ==> forall k | p.HasKey(k) :: !q.HasKey(k)
  }

  ghost predicate Disjoint(pains: seq<Pain>, i: nat, j: nat)
    requires i < |pains| && j < |pains|
  {
    Apart(pains[i], pains[j])
  }

  /** A retired problem points at a problem that answers to all its keys. */
  ghost predicate LinkCovered(pains: seq<Pain>, i: nat)
    requires i < |pains|
  {
    pains[i].Live() ||
    exists j :: 0 <= j < |pains| && pains[j].id == pains[i].mergedInto.value && Covers(pains[j], pains[i])
  }

  ghost predicate Rooted(pains: seq<Pain>, i: nat)
    requires i < |pains|
  {
    Root(pains, pains[i].id, |RetiredIds(pains)|).Some?
  }

  /** Keys partition the unmerged problems of a category, and merge links form a forest that respects the keys. */
  ghost predicate IdentityInv(pains: seq<Pain>) {
    && (forall i | 0 <= i < |pains| :: Shaped(pains, i))
    && DistinctIds(pains)
    && (forall i, j | 0 <= i < j < |pains| :: Disjoint(pains, i, j))
    && (forall i | 0 <= i < |pains| :: LinkCovered(pains, i))
    && (forall i | 0 <= i < |pains| :: Rooted(pains, i))
  }

  /** One problem in an earlier and a later state. */
  ghost predicate PainEvolves(p: Pain, q: Pain) {
    && p.id == q.id && p.category == q.category && p.createdSeq == q.createdSeq
    && (forall k | p.HasKey(k) :: q.HasKey(k))
    && (forall e | e in p.evidence :: e in q.evidence)
    && p.revision <= q.revision
    && (p.anchored ==> q.anchored)
    && (!p.Live() ==> q == p)
  }

  /** Problems keep their position and identity; retired problems are frozen. */
  ghost predicate PainsEvolve(a: seq<Pain>, b: seq<Pain>) {
    |a| <= |b| && forall i | 0 <= i < |a| :: PainEvolves(a[i], b[i])
  }

  lemma PainsEvolveTransitive(a: seq<Pain>, b: seq<Pain>, c: seq<Pain>)
    requires PainsEvolve(a, b) && PainsEvolve(b, c)
    ensures PainsEvolve(a, c)
  {
    forall i | 0 <= i < |a| ensures PainEvolves(a[i], c[i]) {
      assert PainEvolves(a[i], b[i]) && PainEvolves(b[i], c[i]);
    }
  }

  /** Detection leaves merge links alone and only adds unmerged problems. */
  ghost predicate LinksUnchanged(a: seq<Pain>, b: seq<Pain>) {
    && |a| <= |b|
    && (forall i | 0 <= i < |a| :: b[i].id == a[i].id && b[i].mergedInto == a[i].mergedInto)
    && (forall i | |a| <= i < |b| :: b[i].Live())
  }

  function PainIds(pains: seq<Pain>): set<PainId> {
    set p | p in pains :: p.id
  }

  lemma {:induction false} DetectAllLinks(pains: seq<Pain>, seqNo: int, dps: seq<Detected>, allow: bool)
    ensures LinksUnchanged(pains, DetectAll(pains, seqNo, dps, allow).pains)
  {
    if dps != [] {
      DetectAllLinks(pains, seqNo, dps[..|dps| - 1], allow);
    }
  }

  /* ---------- pointer chasing ---------- */

  /** The root answers to every key of every problem that leads to it. */
  lemma {:induction false} RootCovers(pains: seq<Pain>, i: nat, n: nat)
    requires i < |pains| && DistinctIds(pains)
    requires forall i | 0 <= i < |pains| :: LinkCovered(pains, i)
    requires Root(pains, pains[i].id, n).Some?
    ensures Covers(pains[Root(pains, pains[i].id, n).value], pains[i])
    decreases n
  {
    assert IndexOf(pains, pains[i].id) == Some(i);
    if !pains[i].Live() {
      assert LinkCovered(pains, i);
      var j :| 0 <= j < |pains| && pains[j].id == pains[i].mergedInto.value && Covers(pains[j], pains[i]);
      RootCovers(pains, j, n - 1);
    }
  }

  /** Changes that keep ids and merge links keep every root. */
  lemma {:induction false} RootFrame(a: seq<Pain>, b: seq<Pain>, id: PainId, n: nat)
    requires |a| <= |b| && forall i | 0 <= i < |a| :: a[i].id == b[i].id && a[i].mergedInto == b[i].mergedInto
    requires Root(a, id, n).Some?
    ensures Root(b, id, n) == Root(a, id, n)
    decreases n
  {
    var i := IndexOf(a, id).value;
    assert IndexOf(b, id) == Some(i);
    if !a[i].Live() {
      RootFrame(a, b, a[i].mergedInto.value, n - 1);
    }
  }

  lemma MergeLinks(a: seq<Pain>, s: nat, m: nat)
    requires s < |a| && m < |a| && s != m
    ensures |MergeAt(a, s, m)| == |a|
    ensures forall j | 0 <= j < |a| :: MergeAt(a, s, m)[j].id == a[j].id
    ensures forall j | 0 <= j < |a| ::
              MergeAt(a, s, m)[j].mergedInto == if j == m then Some(a[s].id) else a[j].mergedInto
  {
  }

  lemma SameIndices(a: seq<Pain>, b: seq<Pain>, id: PainId)
    requires |a| == |b| && forall j | 0 <= j < |a| :: b[j].id == a[j].id
    ensures IndexOf(a, id) == IndexOf(b, id)
  {
  }

  /** A merge redirects exactly the problems whose root was the merged one. */
  lemma {:induction false} RootAfterMerge(a: seq<Pain>, s: nat, m: nat, id: PainId, n: nat)
    requires s < |a| && m < |a| && s != m && DistinctIds(a) && a[s].Live() && a[m].Live()
    requires Root(a, id, n).Some?
    ensures Root(MergeAt(a, s, m), id, n + 1) == if Root(a, id, n).value == m then Some(s) else Root(a, id, n)
    decreases n
  {
    var b := MergeAt(a, s, m);
    var i := IndexOf(a, id).value;
    MergeLinks(a, s, m);
    SameIndices(a, b, id);
    if i == m {
      assert IndexOf(a, a[s].id) == Some(s);
      SameIndices(a, b, a[s].id);
    } else if !a[i].Live() {
      RootAfterMerge(a, s, m, a[i].mergedInto.value, n - 1);
    }
  }

  /** Any key of any problem, retired or not, leads to the same place by alias search and by pointer chasing. */
  lemma AliasSearchFindsRoot(pains: seq<Pain>, i: nat, k: string)
    requires IdentityInv(pains) && i < |pains| && pains[i].HasKey(k)
    ensures FindOwner(pains, pains[i].category, k) == Root(pains, pains[i].id, |RetiredIds(pains)|)
    ensures FindOwner(pains, pains[i].category, k).Some?
  {
    assert Rooted(pains, i);
    var r := Root(pains, pains[i].id, |RetiredIds(pains)|).value;
    RootCovers(pains, i, |RetiredIds(pains)|);
    assert pains[r].Owns(pains[i].category, k);
    var o := FindOwner(pains, pains[i].category, k).value;
    assert o <= r;
    assert o < r ==> Disjoint(pains, o, r);
  }

  /** Each key has at most one owner. */
  lemma OwnerUnique(pains: seq<Pain>, c: Category, k: string, i: nat, j: nat)
    requires IdentityInv(pains) && i < |pains| && j < |pains| && pains[i].Owns(c, k) && pains[j].Owns(c, k)
    ensures i == j
  {
    assert i < j ==> Disjoint(pains, i, j);
    assert j < i ==> Disjoint(pains, j, i);
  }

  /* ---------- what each step keeps ---------- */

  lemma SameRetired(a: seq<Pain>, b: seq<Pain>)
    requires |a| <= |b| && forall i | 0 <= i < |a| :: a[i].id == b[i].id && a[i].mergedInto == b[i].mergedInto
    requires forall i | |a| <= i < |b| :: b[i].Live()
    ensures RetiredIds(a) == RetiredIds(b)
  {
    forall id ensures id in RetiredIds(a) <==> id in RetiredIds(b) {
      if id in RetiredIds(a) {
        var i :| 0 <= i < |a| && a[i].id == id && !a[i].Live();
        assert b[i] in b;
      }
      if id in RetiredIds(b) {
        var i :| 0 <= i < |b| && b[i].id == id && !b[i].Live();
        assert a[i] in a;
      }
    }
  }

  /** An unmerged problem may gain keys that nobody of its category owns. */
  lemma UpdateLiveKeeps(pains: seq<Pain>, i: nat, q: Pain)
    requires IdentityInv(pains) && i < |pains| && pains[i].Live() && PainEvolves(pains[i], q)
    requires q.Live()
    requires q.open == pains[i].open
    requires forall k | q.HasKey(k) && !pains[i].HasKey(k) :: FindOwner(pains, q.category, k).None?
    ensures IdentityInv(pains[i := q]) && PainsEvolve(pains, pains[i := q])
  {
    var b := pains[i := q];
    SameRetired(pains, b);
    forall x | 0 <= x < |b| ensures Shaped(b, x) {
      assert Shaped(pains, x);
    }
    forall x, y | 0 <= x < y < |b| ensures Disjoint(b, x, y) {
      assert Disjoint(pains, x, y);
    }
    forall x | 0 <= x < |b| ensures LinkCovered(b, x) && Rooted(b, x) {
      assert LinkCovered(pains, x) && Rooted(pains, x);
      RootFrame(pains, b, pains[x].id, |RetiredIds(pains)|);
      if x != i && !b[x].Live() {
        var j :| 0 <= j < |pains| && pains[j].id == pains[x].mergedInto.value && Covers(pains[j], pains[x]);
        assert Covers(b[j], b[x]);
      }
    }
  }

  /** A problem minted for a key nobody owns gets an id nobody has, even though keys are renamed later. */
  lemma MintedIdIsFresh(pains: seq<Pain>, c: Category, k: string)
    requires IdentityInv(pains) && FindOwner(pains, c, k).None?
    ensures forall i | 0 <= i < |pains| :: pains[i].id != PainId(c, k)
  {
    forall i | 0 <= i < |pains| ensures pains[i].id != PainId(c, k) {
      if pains[i].id == PainId(c, k) {
        assert Shaped(pains, i);
        AliasSearchFindsRoot(pains, i, k);
      }
    }
  }

  lemma AppendKeeps(pains: seq<Pain>, dp: Detected, seqNo: int)
    requires IdentityInv(pains) && FindOwner(pains, dp.category, dp.key).None?
    ensures IdentityInv(pains + [NewPain(dp, seqNo)]) && PainsEvolve(pains, pains + [NewPain(dp, seqNo)])
  {
    var p := NewPain(dp, seqNo);
    var b := pains + [p];
    MintedIdIsFresh(pains, dp.category, dp.key);
    SameRetired(pains, b);
    assert b[|pains|] == p;
    assert IndexOf(b, p.id) == Some(|pains|);
    forall x | 0 <= x < |b| ensures Shaped(b, x) {
      assert x < |pains| ==> Shaped(pains, x);
    }
    forall x, y | 0 <= x < y < |b| ensures Disjoint(b, x, y) {
      if y < |pains| {
        assert Disjoint(pains, x, y);
      } else {
        assert !pains[x].Owns(dp.category, dp.key);
      }
    }
    forall x | 0 <= x < |b| ensures LinkCovered(b, x) && Rooted(b, x) {
      if x < |pains| {
        assert LinkCovered(pains, x) && Rooted(pains, x);
        RootFrame(pains, b, pains[x].id, |RetiredIds(pains)|);
        if !b[x].Live() {
          var j :| 0 <= j < |pains| && pains[j].id == pains[x].mergedInto.value && Covers(pains[j], pains[x]);
          assert Covers(b[j], b[x]);
        }
      }
    }
  }

  lemma DetectOne(pains: seq<Pain>, seqNo: int, dp: Detected, allow: bool)
    requires FindOwner(pains, dp.category, dp.key).None? && PromotionTarget(pains, dp.category, seqNo).None?
    ensures DetectAll(pains, seqNo, [dp], allow).pains == pains + [NewPain(dp, seqNo)]
  {
    assert [dp][..0] == [];
    assert DetectAll(pains, seqNo, [], allow) == Detection(pains, map[]);
  }

  /** One detection: created, promoted or found again, its key is owned afterwards. */
  lemma DetectKeeps(d: Detection, seqNo: int, dp: Detected, allow: bool)
    requires IdentityInv(d.pains)
    ensures IdentityInv(Detect(d, seqNo, dp, allow).pains)
    ensures PainsEvolve(d.pains, Detect(d, seqNo, dp, allow).pains)
    ensures FindOwner(Detect(d, seqNo, dp, allow).pains, dp.category, dp.key).Some?
  {
    var owner := FindOwner(d.pains, dp.category, dp.key);
    var target := PromotionTarget(d.pains, dp.category, seqNo);
    var after := Detect(d, seqNo, dp, allow).pains;
    if owner.Some? {
      UpdateLiveKeeps(d.pains, owner.value, NoteEvidence(d.pains[owner.value], dp.evidence));
      assert after[owner.value].Owns(dp.category, dp.key);
    } else if allow && dp.anchored && target.Some? {
      UpdateLiveKeeps(d.pains, target.value, Promote(d.pains[target.value], dp));
      assert after[target.value].Owns(dp.category, dp.key);
    } else {
      AppendKeeps(d.pains, dp, seqNo);
      assert after[|d.pains|].Owns(dp.category, dp.key);
    }
  }

  /** A key owned once is owned ever after, and keys together once stay together. */
  lemma OwnershipPersists(a: seq<Pain>, b: seq<Pain>, c: Category, k: string)
    requires IdentityInv(a) && IdentityInv(b) && PainsEvolve(a, b) && FindOwner(a, c, k).Some?
    ensures FindOwner(b, c, k).Some?
    ensures forall l | FindOwner(a, c, l) == FindOwner(a, c, k) :: FindOwner(b, c, l) == FindOwner(b, c, k)
  {
    var i := FindOwner(a, c, k).value;
    assert PainEvolves(a[i], b[i]);
    AliasSearchFindsRoot(b, i, k);
    forall l | FindOwner(a, c, l) == FindOwner(a, c, k) ensures FindOwner(b, c, l) == FindOwner(b, c, k) {
      AliasSearchFindsRoot(b, i, l);
    }
  }

  /** All detections of one result; every key they name is owned afterwards. */
  lemma {:induction false} DetectAllKeeps(pains: seq<Pain>, seqNo: int, dps: seq<Detected>, allow: bool)
    requires IdentityInv(pains)
    ensures IdentityInv(DetectAll(pains, seqNo, dps, allow).pains)
    ensures PainsEvolve(pains, DetectAll(pains, seqNo, dps, allow).pains)
    ensures forall dp | dp in dps :: FindOwner(DetectAll(pains, seqNo, dps, allow).pains, dp.category, dp.key).Some?
  {
    if dps != [] {
      var front, last := dps[..|dps| - 1], dps[|dps| - 1];
      DetectAllKeeps(pains, seqNo, front, allow);
      var d := DetectAll(pains, seqNo, front, allow);
      DetectKeeps(d, seqNo, last, allow);
      var after := Detect(d, seqNo, last, allow).pains;
      PainsEvolveTransitive(pains, d.pains, after);
      assert dps == front + [last];
      forall dp | dp in dps ensures FindOwner(after, dp.category, dp.key).Some? {
        if dp in front {
          OwnershipPersists(d.pains, after, dp.category, dp.key);
        }
      }
    }
  }

  lemma MergeEvolves(pains: seq<Pain>, s: nat, m: nat)
    requires s < |pains| && m < |pains| && s != m && pains[s].Live() && pains[m].Live()
    ensures PainsEvolve(pains, MergeAt(pains, s, m))
    ensures MergeAt(pains, s, m)[s].Live()
    ensures pains[s].category == pains[m].category ==> Covers(MergeAt(pains, s, m)[s], pains[m])
  {
  }

  lemma MergeRetires(pains: seq<Pain>, s: nat, m: nat)
    requires s < |pains| && m < |pains| && s != m && pains[s].Live() && pains[m].Live()
    ensures RetiredIds(MergeAt(pains, s, m)) == RetiredIds(pains) + {pains[m].id}
  {
    var b := MergeAt(pains, s, m);
    MergeLinks(pains, s, m);
    forall id ensures id in RetiredIds(b) <==> id in RetiredIds(pains) + {pains[m].id} {
      if id in RetiredIds(b) {
        var i :| 0 <= i < |b| && b[i].id == id && !b[i].Live();
        assert pains[i] in pains;
      }
      if id in RetiredIds(pains) {
        var i :| 0 <= i < |b| && pains[i].id == id && !pains[i].Live();
        assert b[i] in b;
      }
      assert b[m] in b;
    }
  }

  lemma MergeUnlives(pains: seq<Pain>, s: nat, m: nat)
    requires s < |pains| && m < |pains| && s != m && pains[s].Live() && pains[m].Live() && DistinctIds(pains)
    ensures LiveIds(MergeAt(pains, s, m)) == LiveIds(pains) - {pains[m].id}
  {
    var b := MergeAt(pains, s, m);
    MergeLinks(pains, s, m);
    forall id ensures id in LiveIds(b) <==> id in LiveIds(pains) - {pains[m].id} {
      if id in LiveIds(b) {
        var i :| 0 <= i < |b| && b[i].id == id && b[i].Live();
        assert pains[i] in pains;
      }
      if id in LiveIds(pains) - {pains[m].id} {
        var i :| 0 <= i < |b| && pains[i].id == id && pains[i].Live();
        assert b[i] in b;
      }
    }
  }

  /** A merge retires exactly one problem. */
  lemma MergeCounts(pains: seq<Pain>, s: nat, m: nat)
    requires s < |pains| && m < |pains| && s != m && pains[s].Live() && pains[m].Live() && DistinctIds(pains)
    ensures RetiredIds(MergeAt(pains, s, m)) == RetiredIds(pains) + {pains[m].id}
    ensures |RetiredIds(MergeAt(pains, s, m))| == |RetiredIds(pains)| + 1
    ensures LiveIds(MergeAt(pains, s, m)) == LiveIds(pains) - {pains[m].id}
    ensures |LiveIds(MergeAt(pains, s, m))| == |LiveIds(pains)| - 1
  {
    MergeRetires(pains, s, m);
    MergeUnlives(pains, s, m);
    assert pains[m].id in LiveIds(pains);
    assert pains[m].id !in RetiredIds(pains);
  }

  lemma MergeKeeps(pains: seq<Pain>, s: nat, m: nat)
    requires IdentityInv(pains) && s < |pains| && m < |pains| && s != m
    requires pains[s].Live() && pains[m].Live() && pains[s].category == pains[m].category
    ensures IdentityInv(MergeAt(pains, s, m)) && PainsEvolve(pains, MergeAt(pains, s, m))
  {
    var b := MergeAt(pains, s, m);
    MergeEvolves(pains, s, m);
    assert DistinctIds(b);
    forall x, y | 0 <= x < y < |b| ensures Disjoint(b, x, y) {
      MergedKeysDisjoint(pains, s, m, x, y);
    }
    forall x | 0 <= x < |b| ensures Shaped(b, x) && LinkCovered(b, x) && Rooted(b, x) {
      assert Shaped(pains, x) && LinkCovered(pains, x) && Rooted(pains, x);
      MergedLink(pains, s, m, x);
      MergedRoot(pains, s, m, x);
    }
  }

  lemma MergedLink(pains: seq<Pain>, s: nat, m: nat, x: nat)
    requires s < |pains| && m < |pains| && s != m && x < |pains|
    requires pains[s].Live() && pains[m].Live() && pains[s].category == pains[m].category
    requires Shaped(pains, x) && LinkCovered(pains, x)
    ensures Shaped(MergeAt(pains, s, m), x)
    ensures LinkCovered(MergeAt(pains, s, m), x)
  {
    var b := MergeAt(pains, s, m);
    MergeEvolves(pains, s, m);
    if x == m {
      assert b[s].id == b[m].mergedInto.value && Covers(b[s], b[m]);
    } else if !b[x].Live() {
      var j :| 0 <= j < |pains| && pains[j].id == pains[x].mergedInto.value && Covers(pains[j], pains[x]);
      assert PainEvolves(pains[j], b[j]);
      assert b[j].id == b[x].mergedInto.value && Covers(b[j], b[x]);
    }
  }

  lemma MergedRoot(pains: seq<Pain>, s: nat, m: nat, x: nat)
    requires DistinctIds(pains) && s < |pains| && m < |pains| && s != m && x < |pains|
    requires pains[s].Live() && pains[m].Live() && Rooted(pains, x)
    ensures Rooted(MergeAt(pains, s, m), x)
  {
    var b, n := MergeAt(pains, s, m), |RetiredIds(pains)|;
    var id := pains[x].id;
    assert b[x].id == id;
    assert |RetiredIds(b)| == n + 1 by {
      MergeCounts(pains, s, m);
    }
    assert Root(b, id, n + 1).Some? by {
      RootAfterMerge(pains, s, m, id, n);
    }
  }

  lemma MergedKeysDisjoint(pains: seq<Pain>, s: nat, m: nat, x: nat, y: nat)
    requires IdentityInv(pains) && s < |pains| && m < |pains| && s != m
    requires pains[s].Live() && pains[m].Live() && pains[s].category == pains[m].category
    requires x < y < |pains|
    ensures Disjoint(MergeAt(pains, s, m), x, y)
  {
    var b := MergeAt(pains, s, m);
    assert forall k | b[s].HasKey(k) :: pains[s].HasKey(k) || pains[m].HasKey(k);
    assert Disjoint(pains, x, y);
    var o := if x == s then y else x;
    assert o < m ==> Disjoint(pains, o, m);
    assert m < o ==> Disjoint(pains, m, o);
  }

  /* ---------- decisions ---------- */

  predicate Decided(decisions: seq<Decision>, d: Decision) {
    exists e :: e in decisions && e.SameId(d)
  }

  /** Unmerged problem m is merged into unmerged problem s. */
  predicate MergesInto(pains: seq<Pain>, after: seq<Pain>, s: nat, m: nat) {
    && s < |pains| && m < |pains| && s != m && pains[s].Live() && pains[m].Live()
    && after == MergeAt(pains, s, m)
  }

  /** The survivor and the merged problem of an accepted decision that merges; every other one changes no problem. */
  function Merging(pains: seq<Pain>, decisions: seq<Decision>, d: Decision): (r: Option<(nat, nat)>)
    requires ApplyDecision(pains, decisions, d).Ok?
    ensures r.Some? ==> MergesInto(pains, ApplyDecision(pains, decisions, d).value.pains, r.value.0, r.value.1)
    ensures r.Some? ==> pains[r.value.0].id in d.pains && pains[r.value.1].id in d.pains
    ensures r.Some? ==> pains[r.value.0].category == pains[r.value.1].category
    ensures r.None? ==> ApplyDecision(pains, decisions, d).value.pains == pains
    ensures r.Some? <==> d.action == Merge && !Decided(decisions, d)
  {
    if Decided(decisions, d) || d.action != Merge then None
    else
      var (i, j) := Selected(pains, d.pains).value;
      Some(Roles(pains, i, j, d.survivor))
  }

  /** What deciding problems i and j comes to: they are kept apart, or one is merged into the other. */
  function DecidedTo(pains: seq<Pain>, decisions: seq<Decision>, d: Decision, i: nat, j: nat): Decisions
    requires i < |pains| && j < |pains|
  {
    var (s, m) := Roles(pains, i, j, d.survivor);
    if d.action == KeepSeparate then Decisions(pains, decisions + [d])
    else Decisions(MergeAt(pains, s, m), decisions + [d.(survivor := Some(pains[s].id))])
  }

  /** Deciding two unmerged problems of one category for the first time always succeeds. */
  lemma PairDecided(pains: seq<Pain>, decisions: seq<Decision>, d: Decision, i: nat, j: nat)
    requires DistinctIds(pains) && i < j < |pains| && pains[i].Live() && pains[j].Live()
    requires pains[i].category == pains[j].category && d.pains == {pains[i].id, pains[j].id}
    requires !d.action.OtherAction? && !Decided(decisions, d) && (d.survivor.None? || d.survivor.value in d.pains)
    ensures ApplyDecision(pains, decisions, d) == Ok(DecidedTo(pains, decisions, d, i, j))
  {
    assert SelectsTwo(pains, d.pains, i, j);
  }

  /** A new decision is recorded last, under the id of the request; a repeat records nothing. */
  lemma DecisionRecorded(pains: seq<Pain>, decisions: seq<Decision>, d: Decision)
    requires ApplyDecision(pains, decisions, d).Ok?
    ensures var after := ApplyDecision(pains, decisions, d).value.decisions;
            if Decided(decisions, d) then after == decisions
            else |after| == |decisions| + 1 && after[..|decisions|] == decisions && after[|decisions|].SameId(d)
  {
  }

  /** Whatever is decided, accepted decisions keep the identity structure. */
  lemma DecisionKeeps(pains: seq<Pain>, decisions: seq<Decision>, d: Decision)
    requires IdentityInv(pains) && ApplyDecision(pains, decisions, d).Ok?
    ensures IdentityInv(ApplyDecision(pains, decisions, d).value.pains)
    ensures PainsEvolve(pains, ApplyDecision(pains, decisions, d).value.pains)
    ensures |ApplyDecision(pains, decisions, d).value.pains| == |pains|
  {
    var merging := Merging(pains, decisions, d);
    if merging.Some? {
      MergeKeeps(pains, merging.value.0, merging.value.1);
    }
  }
}
