/**
  The deterministic reduction of one analysis result into problems, facts and gaps (domain/reducer.py).
  Each loop of the source is a method here, proved against the function that the lemmas reason about.
 */
module Reducer {
  import opened Contracts
  import opened Sequences
  import opened Templates

  const PROMOTION_WINDOW := 4

  datatype Board = Board(pains: seq<Pain>, facts: seq<Fact>)

  /* ---------- problem instances ---------- */

  function FindOwner(pains: seq<Pain>, c: Category, k: string): (r: Option<nat>)
    ensures r.Some? ==> r.value < |pains| && pains[r.value].Owns(c, k)
    ensures r.Some? ==> forall j | 0 <= j < r.value :: !pains[j].Owns(c, k)
    ensures r.None? ==> forall j | 0 <= j < |pains| :: !pains[j].Owns(c, k)
  {
    FirstIndex(pains, (p: Pain) => p.Owns(c, k))
  }

  predicate Promotable(p: Pain, c: Category, seqNo: int) {
    p.category == c && p.open && !p.anchored && p.Live() && 0 < seqNo - p.createdSeq <= PROMOTION_WINDOW
  }

  predicate AnchoredRival(p: Pain, c: Category) {
    p.category == c && p.anchored && p.Live()
  }

  /** The only provisional problem an anchored detection may rename, if nothing anchored competes with it. */
  function PromotionTarget(pains: seq<Pain>, c: Category, seqNo: int): (r: Option<nat>)
    ensures r.Some? ==> r.value < |pains| && Promotable(pains[r.value], c, seqNo)
    ensures r.Some? ==> forall j | 0 <= j < |pains| && j != r.value :: !Promotable(pains[j], c, seqNo)
    ensures r.Some? ==> forall j | 0 <= j < |pains| :: !AnchoredRival(pains[j], c)
    ensures r.None? ==>
              || (exists j :: 0 <= j < |pains| && AnchoredRival(pains[j], c))
              || (forall j | 0 <= j < |pains| :: !Promotable(pains[j], c, seqNo))
              || (exists i, j ::
                    0 <= i < j < |pains| && Promotable(pains[i], c, seqNo) && Promotable(pains[j], c, seqNo))
  {
    if FirstIndex(pains, (p: Pain) => AnchoredRival(p, c)).Some? then None
    else SoleIndex(pains, (p: Pain) => Promotable(p, c, seqNo))
  }

  function Promote(p: Pain, dp: Detected): Pain {
    p.(key := dp.key, aliases := Dedupe(p.aliases + [p.key]), revision := p.revision + 1, anchored := true,
       evidence := Dedupe(p.evidence + [dp.evidence]))
  }

  function NewPain(dp: Detected, seqNo: int): Pain {
    Pain(PainId(dp.category, dp.key), dp.category, dp.key, [], 0, dp.anchored, None, true, [dp.evidence], seqNo)
  }

  function NoteEvidence(p: Pain, evidence: string): Pain {
    if evidence in p.evidence then p else p.(evidence := p.evidence + [evidence])
  }

  /** The problems so far, and the key under which each detection was filed. */
  datatype Detection = Detection(pains: seq<Pain>, resolved: map<(Category, string), string>)

  function Detect(d: Detection, seqNo: int, dp: Detected, allow: bool): Detection {
    var owner := FindOwner(d.pains, dp.category, dp.key);
    if owner.Some? then
      var p := d.pains[owner.value];
      Detection(d.pains[owner.value := NoteEvidence(p, dp.evidence)], d.resolved[(dp.category, dp.key) := p.key])
    else
      var target := if allow && dp.anchored then PromotionTarget(d.pains, dp.category, seqNo) else None;
      var pains := if target.Some? then d.pains[target.value := Promote(d.pains[target.value], dp)]
                   else d.pains + [NewPain(dp, seqNo)];
      Detection(pains, d.resolved[(dp.category, dp.key) := dp.key])
  }

  function DetectAll(pains: seq<Pain>, seqNo: int, dps: seq<Detected>, allow: bool): Detection {
    if dps == [] then Detection(pains, map[])
    else Detect(DetectAll(pains, seqNo, dps[..|dps| - 1], allow), seqNo, dps[|dps| - 1], allow)
  }

  /** An anchored detection of an unknown key that could rename more than one provisional problem. */
  predicate IsAmbiguous(pains: seq<Pain>, dp: Detected, seqNo: int) {
    && dp.anchored
    && FirstIndex(pains, (p: Pain) => p.category == dp.category && p.HasKey(dp.key)).None?
    && FirstIndex(pains, (p: Pain) => Promotable(p, dp.category, seqNo)).Some?
    && SoleIndex(pains, (p: Pain) => Promotable(p, dp.category, seqNo)).None?
  }

  function AmbiguousKeys(pains: seq<Pain>, dps: seq<Detected>, seqNo: int): set<(Category, string)> {
    set dp | dp in dps && IsAmbiguous(pains, dp, seqNo) :: (dp.category, dp.key)
  }

  /* ---------- fact routing ---------- */

  predicate Candidate(p: Pain, c: Category) {
    p.category == c && p.open && p.Live()
  }

  datatype Context = Context(
    ambiguous: set<(Category, string)>, resolved: map<(Category, string), string>, ownerCategory: Option<Category>)

  /** The categories that these facts name an owner for without a key. */
  function UnkeyedOwners(pfs: seq<Proposed>): set<Category> {
    set pf | pf in pfs && pf.slot == Owner && pf.key.None? :: pf.category
  }

  /** The category of the one open problem that an owner without a key may be given to. */
  function OwnerCategory(pains: seq<Pain>, pfs: seq<Proposed>): Option<Category> {
    var unanchored := UnkeyedOwners(pfs);
    var target := SoleIndex(pains, (p: Pain) => p.open && p.category in unanchored);
    if target.Some? then Some(pains[target.value].category) else None
  }

  /** The problem a proposed fact is given to: none unless the context is unambiguous. */
  function Target(pains: seq<Pain>, ctx: Context, pf: Proposed): (r: Option<nat>)
    ensures r.Some? ==> r.value < |pains| && Candidate(pains[r.value], pf.category)
  {
    match pf.key
    case Some(k) =>
      if (pf.category, k) in ctx.ambiguous then None
      else
        var key := if (pf.category, k) in ctx.resolved then ctx.resolved[(pf.category, k)] else k;
        FirstIndex(pains, (p: Pain) => Candidate(p, pf.category) && p.HasKey(key))
    case None =>
      if pf.slot == Owner && ctx.ownerCategory != Some(pf.category) then None
      else SoleIndex(pains, (p: Pain) => Candidate(p, pf.category))
  }

  /** A problem and the problems merged directly into it. */
  function Lineage(pains: seq<Pain>, id: PainId): set<PainId> {
    set p | p in pains && (p.id == id || p.mergedInto == Some(id)) :: p.id
  }

  /** A proposed fact with the problem it goes to and the lineage in which it meets earlier facts. */
  datatype Routed = Routed(pain: PainId, lineage: set<PainId>, seqNo: int, eventId: string, pf: Proposed)

  function RouteAll(pains: seq<Pain>, ctx: Context, seqNo: int, eventId: string, pfs: seq<Proposed>): seq<Routed> {
    if pfs == [] then []
    else
      var front, pf := RouteAll(pains, ctx, seqNo, eventId, pfs[..|pfs| - 1]), pfs[|pfs| - 1];
      var target := Target(pains, ctx, pf);
      if target.None? then front
      else
        var id := pains[target.value].id;
        front + [Routed(id, Lineage(pains, id), seqNo, eventId, pf)]
  }

  /* ---------- fact lifecycle ---------- */

  predicate Holds(f: Fact, lineage: set<PainId>, slot: Slot) {
    f.pain in lineage && f.slot == slot && f.status == Active
  }

  function FirstActive(facts: seq<Fact>, lineage: set<PainId>, slot: Slot): (r: Option<nat>)
    ensures r.Some? ==> r.value < |facts| && Holds(facts[r.value], lineage, slot)
    ensures r.Some? ==> forall j | 0 <= j < r.value :: !Holds(facts[j], lineage, slot)
    ensures r.None? ==> forall j | 0 <= j < |facts| :: !Holds(facts[j], lineage, slot)
  {
    FirstIndex(facts, (f: Fact) => Holds(f, lineage, slot))
  }

  function NewFact(r: Routed, status: FactStatus, supersedes: Option<FactId>, contradicts: seq<FactId>): Fact {
    Fact(FactId(r.pain, r.pf.slot, r.seqNo), r.pain, r.pf.slot, r.pf.value, r.pf.kind, r.pf.origin, status,
         [r.eventId], supersedes, None, contradicts, r.seqNo)
  }

  function Corroborated(f: Fact, eventId: string): Fact {
    f.(evidence := Dedupe(f.evidence + [eventId]))
  }

  function ContradictedBy(f: Fact, other: FactId): Fact {
    f.(status := Contradicted, contradicts := Dedupe(f.contradicts + [other]))
  }

  function SupersededBy(f: Fact, other: FactId): Fact {
    f.(status := Superseded, supersededBy := Some(other))
  }

  /** What becomes of the active fact a routed fact meets, and the facts added for it. */
  function Meet(active: Fact, r: Routed): (m: (Fact, seq<Fact>))
    ensures m.0.pain == active.pain
    ensures forall f | f in m.1 :: f.pain == r.pain
  {
    if active.value == r.pf.value then
      (Corroborated(active, r.eventId), [])
    else if r.pf.relation == Contradict && !(active.kind == Inference && r.pf.kind == Evidence) then
      var created := NewFact(r, Contradicted, None, [active.id]);
      (ContradictedBy(active, created.id), [created])
    else
      var created := NewFact(r, Active, Some(active.id), []);
      (SupersededBy(active, created.id), [created])
  }

  /** One routed fact meets the first active fact of its slot and lineage. */
  function Absorb(facts: seq<Fact>, r: Routed): seq<Fact> {
    var found := FirstActive(facts, r.lineage, r.pf.slot);
    if found.None? then facts + [NewFact(r, Active, None, [])]
    else
      var (revised, added) := Meet(facts[found.value], r);
      facts[found.value := revised] + added
  }

  function AbsorbAll(facts: seq<Fact>, rs: seq<Routed>): seq<Fact> {
    if rs == [] then facts else Absorb(AbsorbAll(facts, rs[..|rs| - 1]), rs[|rs| - 1])
  }

  /* ---------- one analysis result ---------- */

  function ContextOf(pains: seq<Pain>, d: Detection, seqNo: int, result: AnalysisResult, allow: bool): Context {
    Context(if allow then AmbiguousKeys(pains, result.pains, seqNo) else {}, d.resolved,
            OwnerCategory(d.pains, result.facts))
  }

  /** The facts of one analysis result, routed against the problems after detection. */
  function Routes(pains: seq<Pain>, seqNo: int, eventId: string, result: AnalysisResult, allow: bool): seq<Routed> {
    var d := DetectAll(pains, seqNo, result.pains, allow);
    RouteAll(d.pains, ContextOf(pains, d, seqNo, result, allow), seqNo, eventId, result.facts)
  }

  function ReduceAnalysis(b: Board, seqNo: int, eventId: string, result: AnalysisResult, allow: bool): Board {
    Board(DetectAll(b.pains, seqNo, result.pains, allow).pains,
          AbsorbAll(b.facts, Routes(b.pains, seqNo, eventId, result, allow)))
  }

  method FindAmbiguousKeys(pains: seq<Pain>, dps: seq<Detected>, seqNo: int)
    returns (ambiguous: set<(Category, string)>)
    ensures ambiguous == AmbiguousKeys(pains, dps, seqNo)
  {
    ambiguous := {};
    for i := 0 to |dps|
      invariant ambiguous == AmbiguousKeys(pains, dps[..i], seqNo)
    {
      assert dps[..i + 1] == dps[..i] + [dps[i]];
      if IsAmbiguous(pains, dps[i], seqNo) {
        ambiguous := ambiguous + {(dps[i].category, dps[i].key)};
      }
    }
    assert dps[..|dps|] == dps;
  }

  method ApplyAnalysis(b: Board, seqNo: int, eventId: string, result: AnalysisResult, allow: bool)
    returns (after: Board)
    ensures after == ReduceAnalysis(b, seqNo, eventId, result, allow)
  {
    var ambiguous := {};
    if allow {
      ambiguous := FindAmbiguousKeys(b.pains, result.pains, seqNo);
    }
    var d := Detection(b.pains, map[]);
    for i := 0 to |result.pains|
      invariant d == DetectAll(b.pains, seqNo, result.pains[..i], allow)
    {
      assert result.pains[..i + 1][..i] == result.pains[..i];
      d := Detect(d, seqNo, result.pains[i], allow);
    }
    assert result.pains[..|result.pains|] == result.pains;
    var ctx := Context(ambiguous, d.resolved, OwnerCategory(d.pains, result.facts));
    var facts := b.facts;
    for i := 0 to |result.facts|
      invariant facts == AbsorbAll(b.facts, RouteAll(d.pains, ctx, seqNo, eventId, result.facts[..i]))
    {
      ghost var before := RouteAll(d.pains, ctx, seqNo, eventId, result.facts[..i]);
      assert result.facts[..i + 1][..i] == result.facts[..i];
      var target := Target(d.pains, ctx, result.facts[i]);
      if target.Some? {
        var id := d.pains[target.value].id;
        var routed := Routed(id, Lineage(d.pains, id), seqNo, eventId, result.facts[i]);
        assert (before + [routed])[..|before|] == before;
        facts := Absorb(facts, routed);
      }
    }
    assert result.facts[..|result.facts|] == result.facts;
    after := Board(d.pains, facts);
  }

  /* ---------- gaps ---------- */

  /** The prior gap table as a dictionary: the last entry of an id wins. */
  function PriorOf(gaps: seq<Gap>, id: GapId): (r: Option<Gap>)
    ensures r.Some? ==> r.value in gaps && r.value.id == id
    ensures r.None? ==> forall g | g in gaps :: g.id != id
  {
    if gaps == [] then None
    else if gaps[|gaps| - 1].id == id then Some(gaps[|gaps| - 1])
    else PriorOf(gaps[..|gaps| - 1], id)
  }

  function GapFor(pains: seq<Pain>, facts: seq<Fact>, prior: seq<Gap>, id: GapId, priority: nat): Gap {
    var found := FirstActive(facts, Lineage(pains, id.pain), id.slot);
    var last := PriorOf(prior, id);
    var count := if last.Some? then last.value.reopenCount else 0;
    Gap(id, found.Some?, if found.Some? then Some(facts[found.value].id) else None, priority,
        if found.None? && last.Some? && last.value.answered then count + 1 else count)
  }

  function SlotGaps(
    pains: seq<Pain>, facts: seq<Fact>, prior: seq<Gap>, pain: PainId, slots: seq<Slot>, n: nat): seq<Gap>
    requires n <= |slots|
  {
    if n == 0 then []
    else SlotGaps(pains, facts, prior, pain, slots, n - 1)
         + [GapFor(pains, facts, prior, GapId(pain, slots[n - 1]), PriorityOf(slots, slots[n - 1]))]
  }

  /** The position of a slot in its template. */
  function PriorityOf(slots: seq<Slot>, slot: Slot): nat
    requires slot in slots
  {
    if slots[0] == slot then 0 else 1 + PriorityOf(slots[1..], slot)
  }

  predicate Asked(reg: Registry, p: Pain) {
    p.open && p.Live() && p.category in reg
  }

  function GapsUpTo(reg: Registry, pains: seq<Pain>, facts: seq<Fact>, prior: seq<Gap>, n: nat): seq<Gap>
    requires n <= |pains|
  {
    if n == 0 then []
    else
      var p, front := pains[n - 1], GapsUpTo(reg, pains, facts, prior, n - 1);
      if Asked(reg, p) then front + SlotGaps(pains, facts, prior, p.id, reg[p.category].slots, |reg[p.category].slots|)
      else front
  }

  function Gaps(reg: Registry, pains: seq<Pain>, facts: seq<Fact>, prior: seq<Gap>): seq<Gap> {
    GapsUpTo(reg, pains, facts, prior, |pains|)
  }

  method ComputeGaps(reg: Registry, pains: seq<Pain>, facts: seq<Fact>, prior: seq<Gap>) returns (gaps: seq<Gap>)
    ensures gaps == Gaps(reg, pains, facts, prior)
  {
    gaps := [];
    for i := 0 to |pains|
      invariant gaps == GapsUpTo(reg, pains, facts, prior, i)
    {
      var p := pains[i];
      if Asked(reg, p) {
        ghost var front := gaps;
        var slots := reg[p.category].slots;
        for k := 0 to |slots|
          invariant gaps == front + SlotGaps(pains, facts, prior, p.id, slots, k)
        {
          gaps := gaps + [GapFor(pains, facts, prior, GapId(p.id, slots[k]), PriorityOf(slots, slots[k]))];
        }
      }
    }
  }

  /* ---------- identity decisions ---------- */

  datatype DecisionError = NotTwoSameCategory | AlreadyMerged | UnsupportedAction | SurvivorNotSelected | NotTwoDistinct

  /** The default survivor: earliest created, ties by id; ids of one category differ in their key only. */
  predicate Precedes(a: Pain, b: Pain) {
    a.createdSeq < b.createdSeq || (a.createdSeq == b.createdSeq && TextLess(a.id.key, b.id.key))
  }

  function Absorbing(survivor: Pain, merged: Pain): Pain {
    survivor.(aliases := Dedupe(survivor.aliases + [merged.key] + merged.aliases),
              revision := survivor.revision + 1,
              evidence := Dedupe(survivor.evidence + merged.evidence))
  }

  function Retired(merged: Pain, survivor: PainId): Pain {
    merged.(open := false, mergedInto := Some(survivor), revision := merged.revision + 1)
  }

  /** The list with problem m merged into problem s. */
  function MergeAt(pains: seq<Pain>, s: nat, m: nat): seq<Pain>
    requires s < |pains| && m < |pains|
  {
    pains[s := Absorbing(pains[s], pains[m])][m := Retired(pains[m], pains[s].id)]
  }

  datatype Decisions = Decisions(pains: seq<Pain>, decisions: seq<Decision>)

  /** Problems i and j are selected, in this order, and no other is. */
  predicate SelectsTwo(pains: seq<Pain>, ids: set<PainId>, i: nat, j: nat) {
    && i < j < |pains| && pains[i].id in ids && pains[j].id in ids
    && forall k | 0 <= k < |pains| && pains[k].id in ids :: k == i || k == j
  }

  /** The two selected positions in list order, when exactly two problems are selected. */
  function Selected(pains: seq<Pain>, ids: set<PainId>): (r: Option<(nat, nat)>)
    ensures r.Some? ==> SelectsTwo(pains, ids, r.value.0, r.value.1)
    ensures r.None? ==> forall i: nat, j: nat :: !SelectsTwo(pains, ids, i, j)
  {
    var first := FirstIndex(pains, (p: Pain) => p.id in ids);
    if first.None? then None
    else
      var rest := pains[first.value + 1..];
      var second := SoleIndex(rest, (p: Pain) => p.id in ids);
      assert forall j | first.value < j < |pains| :: pains[j] == rest[j - first.value - 1];
      if second.None? then None else Some((first.value, first.value + 1 + second.value))
  }

  /** The survivor and the merged problem: the named survivor, or the one that precedes the other. */
  function Roles(pains: seq<Pain>, i: nat, j: nat, survivor: Option<PainId>): (r: (nat, nat))
    requires i < |pains| && j < |pains|
    ensures r == (i, j) || r == (j, i)
  {
    var firstSurvives := if survivor.Some? then survivor.value == pains[i].id else !Precedes(pains[j], pains[i]);
    if firstSurvives then (i, j) else (j, i)
  }

  function ApplyDecision(pains: seq<Pain>, decisions: seq<Decision>, d: Decision): Result<Decisions, DecisionError> {
    if exists e :: e in decisions && e.SameId(d) then Ok(Decisions(pains, decisions))
    else
      match Selected(pains, d.pains)
      case None => Err(NotTwoSameCategory)
      case Some((i, j)) =>
        if pains[i].category != pains[j].category then Err(NotTwoSameCategory)
        else if !pains[i].Live() || !pains[j].Live() then Err(AlreadyMerged)
        else
          match d.action
          case OtherAction(_) => Err(UnsupportedAction)
          case KeepSeparate => Ok(Decisions(pains, decisions + [d]))
          case Merge =>
            if d.survivor.Some? && d.survivor.value != pains[i].id && d.survivor.value != pains[j].id then
              Err(SurvivorNotSelected)
            else
              var (s, m) := Roles(pains, i, j, d.survivor);
              Ok(Decisions(MergeAt(pains, s, m), decisions + [d.(survivor := Some(pains[s].id))]))
  }
}
