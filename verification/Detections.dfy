/** What one detected identity does to the problems of its category, told by their fields, and what follows for runs. */
module Detections {
  import opened Contracts
  import opened Sequences
  import opened Templates
  import opened Analyzer
  import opened Reducer
  import opened Identity
  import opened Engine
  import opened Routing
  import opened Invariants
  import opened Runs
  import opened Statements

  /** Of the problems of category c, at most the one at x is new or changed; others keep to their categories. */
  predicate OnlyAt(before: seq<Pain>, after: seq<Pain>, c: Category, x: nat) {
    && |before| <= |after| && x < |after| && after[x].category == c
    && (forall i | 0 <= i < |before| && i != x ::
          if before[i].category == c then after[i] == before[i] else after[i].category != c)
    && (forall i | |before| <= i < |after| && i != x :: after[i].category != c)
  }

  /** The only provisional problem of the category that is one to four events old, when nothing there is anchored. */
  predicate SoleProvisional(pains: seq<Pain>, c: Category, seqNo: int, x: nat) {
    && x < |pains|
    && (forall i | 0 <= i < |pains| && pains[i].category == c && pains[i].mergedInto.None? :: !pains[i].anchored)
    && (forall i | 0 <= i < |pains| ::
          i == x <==> pains[i].category == c && pains[i].mergedInto.None? && pains[i].open && !pains[i].anchored &&
                      pains[i].createdSeq < seqNo <= pains[i].createdSeq + 4)
  }

  /** The problem is found again: at most its evidence grows, by this piece at the end. */
  predicate FoundAgain(p: Pain, q: Pain, evidence: string) {
    q == p.(evidence := if evidence in p.evidence then p.evidence else p.evidence + [evidence])
  }

  /** The problem is renamed to the anchored key; its old key becomes an alias. */
  ghost predicate Renamed(p: Pain, q: Pain, dp: Detected) {
    && q == p.(key := dp.key, anchored := true, revision := p.revision + 1, aliases := q.aliases,
               evidence := q.evidence)
    && NoDup(q.aliases) && (forall k :: k in q.aliases <==> k in p.aliases || k == p.key)
    && NoDup(q.evidence) && (forall e :: e in q.evidence <==> e in p.evidence || e == dp.evidence)
  }

  /**
    The detection of a key that a problem owns finds that problem again. A new anchored key renames the sole recent
    provisional problem. Otherwise the key gets a problem of its own, as anchored as its detection.
   */
  ghost predicate Outcome(before: seq<Pain>, after: seq<Pain>, dp: Detected, seqNo: int, allow: bool, x: nat) {
    && OnlyAt(before, after, dp.category, x)
    && if FindOwner(before, dp.category, dp.key).Some? then
         FindOwner(before, dp.category, dp.key) == Some(x) && FoundAgain(before[x], after[x], dp.evidence)
       else if allow && dp.anchored && exists y: nat :: SoleProvisional(before, dp.category, seqNo, y) then
         SoleProvisional(before, dp.category, seqNo, x) && Renamed(before[x], after[x], dp)
       else
         && x >= |before|
         && after[x] == Pain(PainId(dp.category, dp.key), dp.category, dp.key, [], 0, dp.anchored, None, true,
                             [dp.evidence], seqNo)
  }

  lemma SoleIsTarget(pains: seq<Pain>, c: Category, seqNo: int)
    ensures var r := PromotionTarget(pains, c, seqNo);
            if r.Some? then SoleProvisional(pains, c, seqNo, r.value)
            else forall y: nat :: !SoleProvisional(pains, c, seqNo, y)
  {
    var r := PromotionTarget(pains, c, seqNo);
    if r.Some? {
      forall i | 0 <= i < |pains| && pains[i].category == c && pains[i].mergedInto.None? ensures !pains[i].anchored {
        assert !AnchoredRival(pains[i], c);
      }
      forall i | 0 <= i < |pains|
        ensures i == r.value <==> pains[i].category == c && pains[i].mergedInto.None? && pains[i].open &&
                                  !pains[i].anchored && pains[i].createdSeq < seqNo <= pains[i].createdSeq + 4
      {
        assert i != r.value ==> !Promotable(pains[i], c, seqNo);
      }
    } else if y: nat :| SoleProvisional(pains, c, seqNo, y) {
      assert Promotable(pains[y], c, seqNo);
    }
  }

  lemma {:induction false} DetectOutcome(d: Detection, seqNo: int, dp: Detected, allow: bool) returns (x: nat)
    ensures Outcome(d.pains, Detect(d, seqNo, dp, allow).pains, dp, seqNo, allow, x)
  {
    var owner := FindOwner(d.pains, dp.category, dp.key);
    var target := PromotionTarget(d.pains, dp.category, seqNo);
    SoleIsTarget(d.pains, dp.category, seqNo);
    if owner.Some? {
      x := owner.value;
    } else if allow && dp.anchored && target.Some? {
      x := target.value;
    } else {
      x := |d.pains|;
    }
  }

  lemma SameOwner(a: seq<Pain>, b: seq<Pain>, c: Category, k: string)
    requires SameInCategory(a, b, c)
    ensures FindOwner(a, c, k) == FindOwner(b, c, k)
  {
    var o, p := FindOwner(a, c, k), FindOwner(b, c, k);
    assert o.Some? ==> b[o.value].Owns(c, k);
    assert p.Some? ==> p.value < |a| && a[p.value].Owns(c, k);
  }

  lemma SameSole(a: seq<Pain>, b: seq<Pain>, c: Category, seqNo: int, x: nat)
    requires SameInCategory(a, b, c)
    ensures SoleProvisional(a, c, seqNo, x) <==> SoleProvisional(b, c, seqNo, x)
  {
    if SoleProvisional(a, c, seqNo, x) {
      assert b[x] == a[x];
    }
    if SoleProvisional(b, c, seqNo, x) {
      assert x < |a| && a[x] == b[x];
      assert forall i | 0 <= i < |a| :: if a[i].category == c then b[i] == a[i] else b[i].category != c;
    }
  }

  lemma OutcomeAfterOthers(
    a: seq<Pain>, b: seq<Pain>, after: seq<Pain>, dp: Detected, seqNo: int, allow: bool, x: nat)
    requires SameInCategory(a, b, dp.category) && Outcome(b, after, dp, seqNo, allow, x)
    ensures Outcome(a, after, dp, seqNo, allow, x)
  {
    SameOwner(a, b, dp.category, dp.key);
    forall y: nat ensures SoleProvisional(a, dp.category, seqNo, y) <==> SoleProvisional(b, dp.category, seqNo, y) {
      SameSole(a, b, dp.category, seqNo, y);
    }
    forall i | 0 <= i < |a| && i != x
      ensures if a[i].category == dp.category then after[i] == a[i] else after[i].category != dp.category
    {
      assert if b[i].category == dp.category then after[i] == b[i] else after[i].category != dp.category;
    }
  }

  lemma OutcomeBeforeOthers(
    before: seq<Pain>, b: seq<Pain>, after: seq<Pain>, dp: Detected, seqNo: int, allow: bool, x: nat)
    requires Outcome(before, b, dp, seqNo, allow, x) && SameInCategory(b, after, dp.category)
    ensures Outcome(before, after, dp, seqNo, allow, x)
  {
    assert after[x] == b[x];
    forall i | 0 <= i < |before| && i != x
      ensures if before[i].category == dp.category then after[i] == before[i] else after[i].category != dp.category
    {
      assert if b[i].category == dp.category then after[i] == b[i] else after[i].category != dp.category;
    }
  }

  /** The detections of one event touch different categories, so each has its outcome whatever the others do. */
  lemma {:induction false} DetectAllOutcome(pains: seq<Pain>, seqNo: int, dps: seq<Detected>, dp: Detected, allow: bool)
    returns (x: nat)
    requires OnePerCategory(dps) && dp in dps
    ensures Outcome(pains, DetectAll(pains, seqNo, dps, allow).pains, dp, seqNo, allow, x)
  {
    var front, last := dps[..|dps| - 1], dps[|dps| - 1];
    var d := DetectAll(pains, seqNo, front, allow);
    if last == dp {
      forall other | other in front ensures other.category != dp.category {
        var k :| 0 <= k < |front| && front[k] == other;
        assert dps[k].category != dps[|front|].category;
      }
      OtherDetections(pains, seqNo, front, allow, dp.category);
      x := DetectOutcome(d, seqNo, dp, allow);
      OutcomeAfterOthers(pains, d.pains, Detect(d, seqNo, dp, allow).pains, dp, seqNo, allow, x);
    } else {
      var k :| 0 <= k < |dps| && dps[k] == dp;
      assert front[k] == dp;
      x := DetectAllOutcome(pains, seqNo, front, dp, allow);
      assert dps[k].category != dps[|front|].category;
      OtherDetection(d, seqNo, last, allow, dp.category);
      OutcomeBeforeOthers(pains, d.pains, Detect(d, seqNo, last, allow).pains, dp, seqNo, allow, x);
    }
  }

  lemma {:induction false} EventPains(cfg: Config, ops: seq<Op>, e: Event)
    requires WellFormed(cfg.registry) && Accepts(Run(cfg, ops), e)
    ensures Run(cfg, ops + [HearOp(e)]).state.pains ==
            DetectAll(Run(cfg, ops).state.pains, e.seqNo, Analyze(cfg.rules, e).pains, cfg.allowPromotion).pains
  {
    assert (ops + [HearOp(e)])[..|ops|] == ops;
    Reachable(cfg, ops);
    HearPainsKeep(cfg, Run(cfg, ops), e);
  }

  /** The identity that the rules extract from the event for a category. */
  function EventIdentity(rules: Rules, e: Event, c: Category): ProblemIdentity {
    rules.identify(c, e, rules.extract(e).facts)
  }

  /** What an accepted event makes of the identity of each category that the rules find in it. */
  lemma {:induction false} EventDetects(cfg: Config, ops: seq<Op>, e: Event, c: Category)
    requires WellFormed(cfg.registry) && Accepts(Run(cfg, ops), e) && c in cfg.rules.extract(e).categories
    ensures var identity := EventIdentity(cfg.rules, e, c);
            exists x: nat ::
              Outcome(Run(cfg, ops).state.pains, Run(cfg, ops + [HearOp(e)]).state.pains,
                      Detected(c, e.id, identity.key, identity.anchored), e.seqNo, cfg.allowPromotion, x)
  {
    var identity := EventIdentity(cfg.rules, e, c);
    var dp := Detected(c, e.id, identity.key, identity.anchored);
    DetectionsAre(cfg.rules, e, dp);
    EventPains(cfg, ops, e);
    var x := DetectAllOutcome(Run(cfg, ops).state.pains, e.seqNo, Analyze(cfg.rules, e).pains, dp, cfg.allowPromotion);
  }

  /** An accepted event leaves the problems alone whose category the rules do not find in it, and adds none there. */
  lemma {:induction false} UndetectedUntouched(cfg: Config, ops: seq<Op>, e: Event, c: Category)
    requires WellFormed(cfg.registry) && Accepts(Run(cfg, ops), e)
    requires c !in cfg.rules.extract(e).categories
    ensures SameInCategory(Run(cfg, ops).state.pains, Run(cfg, ops + [HearOp(e)]).state.pains, c)
  {
    EventPains(cfg, ops, e);
    forall dp | dp in Analyze(cfg.rules, e).pains ensures dp.category != c {
      DetectionsAre(cfg.rules, e, dp);
    }
    OtherDetections(Run(cfg, ops).state.pains, e.seqNo, Analyze(cfg.rules, e).pains, cfg.allowPromotion, c);
  }

  /** The statements of a hint as the identity extraction sees them. */
  predicate AsProposed(hint: Hint, pfs: seq<Proposed>) {
    && |pfs| == |hint.facts|
    && forall i | 0 <= i < |pfs| ::
         pfs[i] == Proposed(hint.category, hint.facts[i].slot, hint.facts[i].value, None, hint.facts[i].kind,
                            Supersede, SemanticConfirmed)
  }

  /** The hint detects this identity of its category, in the words of the latest event it cites. */
  ghost predicate HintIdentity(cfg: Config, transcript: seq<Event>, hint: Hint, t: Event, identity: ProblemIdentity) {
    && LatestAmong(transcript, hint.evidence, t)
    && exists pfs :: AsProposed(hint, pfs) && identity == cfg.rules.identify(hint.category, t, pfs)
  }

  lemma {:induction false} HintDetection(cfg: Config, m: Memory, hint: Hint, t: Event, identity: ProblemIdentity)
    requires Inv(cfg, m) && HintAccepted(cfg, m, hint) && HintIdentity(cfg, m.state.transcript, hint, t, identity)
    ensures t == LatestCited(m.state.transcript, hint.evidence)
    ensures HintResult(cfg, hint, t).pains ==
            [Detected(hint.category, hint.evidence[0], identity.key, identity.anchored)]
  {
    LatestCitedIsLatest(m.state.transcript, hint.evidence);
    LatestUnique(m.state.transcript, hint.evidence, t, LatestCited(m.state.transcript, hint.evidence));
    var pfs :| AsProposed(hint, pfs) && identity == cfg.rules.identify(hint.category, t, pfs);
    assert pfs == HintFacts(hint, None);
  }

  /** What an accepted hint makes of the identity it detects; hints always allow promotion. */
  lemma {:induction false} HintDetects(cfg: Config, ops: seq<Op>, hint: Hint, t: Event, identity: ProblemIdentity)
    requires WellFormed(cfg.registry) && HintAccepted(cfg, Run(cfg, ops), hint)
    requires HintIdentity(cfg, Run(cfg, ops).state.transcript, hint, t, identity)
    ensures var dp := Detected(hint.category, hint.evidence[0], identity.key, identity.anchored);
            exists x: nat ::
              Outcome(Run(cfg, ops).state.pains, Run(cfg, ops + [ConfirmOp(hint)]).state.pains, dp, t.seqNo, true, x)
  {
    var dp := Detected(hint.category, hint.evidence[0], identity.key, identity.anchored);
    Reachable(cfg, ops);
    HintDetection(cfg, Run(cfg, ops), hint, t, identity);
    assert Run(cfg, ops + [ConfirmOp(hint)]).state.pains ==
           DetectAll(Run(cfg, ops).state.pains, t.seqNo, [dp], true).pains by {
      assert (ops + [ConfirmOp(hint)])[..|ops|] == ops;
    }
    var x := DetectAllOutcome(Run(cfg, ops).state.pains, t.seqNo, [dp], dp, true);
  }

  /* ---------- anchored keys ---------- */

  /** This call detects the anchored key k, and no problem of the category has answered to it so far. */
  ghost predicate FirstAnchored(cfg: Config, m: Memory, op: Op, c: Category, k: string) {
    && FindOwner(m.state.pains, c, k).None?
    && match op
       case HearOp(e) =>
         Accepts(m, e) && c in cfg.rules.extract(e).categories &&
         EventIdentity(cfg.rules, e, c) == ProblemIdentity(k, true)
       case DecideOp(_, _, _) => false
       case ConfirmOp(hint) =>
         HintAccepted(cfg, m, hint) && hint.category == c &&
         exists t :: HintIdentity(cfg, m.state.transcript, hint, t, ProblemIdentity(k, true))
  }

  /** The anchored problem at x has the new key, and is new itself unless nothing of the category was anchored. */
  ghost predicate Anchors(before: seq<Pain>, after: seq<Pain>, c: Category, k: string, x: nat) {
    && FindOwner(after, c, k) == Some(x) && after[x].anchored && after[x].key == k
    && (x < |before| ==>
          forall i | 0 <= i < |before| && before[i].category == c && before[i].Live() :: !before[i].anchored)
  }

  lemma OutcomeAnchors(before: seq<Pain>, after: seq<Pain>, dp: Detected, seqNo: int, allow: bool, x: nat)
    requires IdentityInv(after) && FindOwner(before, dp.category, dp.key).None? && dp.anchored
    requires Outcome(before, after, dp, seqNo, allow, x)
    ensures Anchors(before, after, dp.category, dp.key, x)
  {
    assert after[x].Owns(dp.category, dp.key);
    OwnerUnique(after, dp.category, dp.key, FindOwner(after, dp.category, dp.key).value, x);
  }

  /** A problem that owns an anchored key from its first detection is anchored and named by that key. */
  lemma {:induction false} AnchoredOwner(cfg: Config, ops: seq<Op>, op: Op, c: Category, k: string) returns (x: nat)
    requires WellFormed(cfg.registry) && FirstAnchored(cfg, Run(cfg, ops), op, c, k)
    ensures Anchors(Run(cfg, ops).state.pains, Run(cfg, ops + [op]).state.pains, c, k, x)
  {
    var before, after := Run(cfg, ops).state, Run(cfg, ops + [op]).state;
    Reachable(cfg, ops + [op]);
    match op
    case HearOp(e) =>
      var dp := Detected(c, e.id, k, true);
      EventDetects(cfg, ops, e, c);
      x :| Outcome(before.pains, after.pains, dp, e.seqNo, cfg.allowPromotion, x);
      OutcomeAnchors(before.pains, after.pains, dp, e.seqNo, cfg.allowPromotion, x);
    case ConfirmOp(hint) =>
      var t :| HintIdentity(cfg, before.transcript, hint, t, ProblemIdentity(k, true));
      var dp := Detected(c, hint.evidence[0], k, true);
      HintDetects(cfg, ops, hint, t, ProblemIdentity(k, true));
      x :| Outcome(before.pains, after.pains, dp, t.seqNo, true, x);
      OutcomeAnchors(before.pains, after.pains, dp, t.seqNo, true, x);
  }

  /** Without merges a problem goes on owning its keys. */
  lemma OwnerStays(a: seq<Pain>, b: seq<Pain>, c: Category, k: string, x: nat)
    requires IdentityInv(b) && PainsEvolve(a, b) && RetiredIds(b) == {} && FindOwner(a, c, k) == Some(x)
    ensures FindOwner(b, c, k) == Some(x) && (a[x].anchored ==> b[x].anchored)
  {
    assert PainEvolves(a[x], b[x]);
    RetiredOrLive(b);
    assert b[x].Owns(c, k);
    OwnerUnique(b, c, k, FindOwner(b, c, k).value, x);
  }

  /** One call detects at most one anchored key for a category. */
  lemma {:induction false} OneAnchoredKey(cfg: Config, m: Memory, op: Op, c: Category, k: string, l: string)
    requires Inv(cfg, m) && FirstAnchored(cfg, m, op, c, k) && FirstAnchored(cfg, m, op, c, l)
    ensures k == l
  {
    match op
    case HearOp(e) =>
    case ConfirmOp(hint) =>
      var s :| HintIdentity(cfg, m.state.transcript, hint, s, ProblemIdentity(k, true));
      var t :| HintIdentity(cfg, m.state.transcript, hint, t, ProblemIdentity(l, true));
      HintDetection(cfg, m, hint, s, ProblemIdentity(k, true));
      HintDetection(cfg, m, hint, t, ProblemIdentity(l, true));
  }

  lemma {:induction false} LaterKeyApart(cfg: Config, ops: seq<Op>, i: nat, j: nat, c: Category, k: string, l: string)
    requires WellFormed(cfg.registry) && i < j < |ops| && RetiredIds(Run(cfg, ops).state.pains) == {}
    requires FirstAnchored(cfg, Run(cfg, ops[..i]), ops[i], c, k)
    requires FirstAnchored(cfg, Run(cfg, ops[..j]), ops[j], c, l)
    ensures FindOwner(Run(cfg, ops).state.pains, c, k).Some? && FindOwner(Run(cfg, ops).state.pains, c, l).Some?
    ensures FindOwner(Run(cfg, ops).state.pains, c, k) != FindOwner(Run(cfg, ops).state.pains, c, l)
  {
    var x := AnchoredAt(cfg, ops, i, c, k);
    var y := AnchoredAt(cfg, ops, j, c, l);
    TwoCalls(cfg, ops, i, j);
    StatesApart(Run(cfg, ops[..i + 1]).state.pains, Run(cfg, ops[..j]).state.pains, Run(cfg, ops[..j + 1]).state.pains,
                Run(cfg, ops).state.pains, c, k, l, x, y);
  }

  /** A problem anchored in state a keeps its key from being taken over by a key first anchored between b and d. */
  lemma StatesApart(
    a: seq<Pain>, b: seq<Pain>, d: seq<Pain>, final: seq<Pain>, c: Category, k: string, l: string, x: nat, y: nat)
    requires IdentityInv(b) && IdentityInv(final) && RetiredIds(final) == {}
    requires PainsEvolve(a, b) && PainsEvolve(b, final) && PainsEvolve(d, final) && PainsEvolve(a, final)
    requires FindOwner(a, c, k) == Some(x) && a[x].anchored && Anchors(b, d, c, l, y)
    ensures FindOwner(final, c, k) == Some(x) && FindOwner(final, c, l) == Some(y) && x != y
  {
    RetiredShrinks(b, final);
    OwnerStays(a, b, c, k, x);
    OwnerStays(a, final, c, k, x);
    OwnerStays(d, final, c, l, y);
  }

  /** The states after call i, before call j, after it and at the end, in this order. */
  lemma {:induction false} TwoCalls(cfg: Config, ops: seq<Op>, i: nat, j: nat)
    requires WellFormed(cfg.registry) && i < j < |ops|
    ensures var a, b := Run(cfg, ops[..i + 1]).state.pains, Run(cfg, ops[..j]).state.pains;
            var d, final := Run(cfg, ops[..j + 1]).state.pains, Run(cfg, ops).state.pains;
            && IdentityInv(b) && IdentityInv(final)
            && PainsEvolve(a, b) && PainsEvolve(b, final) && PainsEvolve(d, final) && PainsEvolve(a, final)
  {
    RunExtends(cfg, ops, i + 1, j);
    RunExtends(cfg, ops, j, |ops|);
    RunExtends(cfg, ops, i + 1, |ops|);
    RunExtends(cfg, ops, j + 1, |ops|);
    assert ops[..|ops|] == ops;
  }

  lemma {:induction false} AnchoredAt(cfg: Config, ops: seq<Op>, i: nat, c: Category, k: string) returns (x: nat)
    requires WellFormed(cfg.registry) && i < |ops| && FirstAnchored(cfg, Run(cfg, ops[..i]), ops[i], c, k)
    ensures Anchors(Run(cfg, ops[..i]).state.pains, Run(cfg, ops[..i + 1]).state.pains, c, k, x)
  {
    assert ops[..i + 1] == ops[..i] + [ops[i]];
    x := AnchoredOwner(cfg, ops[..i], ops[i], c, k);
  }

  lemma {:induction false} RunExtends(cfg: Config, ops: seq<Op>, i: nat, j: nat)
    requires WellFormed(cfg.registry) && i <= j <= |ops|
    ensures PainsEvolve(Run(cfg, ops[..i]).state.pains, Run(cfg, ops[..j]).state.pains)
    ensures IdentityInv(Run(cfg, ops[..j]).state.pains)
  {
    assert ops[..j][..i] == ops[..i];
    HistoryAppendOnly(cfg, ops[..j], i);
    Reachable(cfg, ops[..j]);
  }

  /**
    On runs that merge nothing, two different anchored keys of one category that were first detected as anchored never
    have the same owner.
   */
  lemma {:induction false} AnchoredKeysStayApart(
    cfg: Config, ops: seq<Op>, i: nat, j: nat, c: Category, k: string, l: string)
    requires WellFormed(cfg.registry) && i < |ops| && j < |ops| && RetiredIds(Run(cfg, ops).state.pains) == {}
    requires FirstAnchored(cfg, Run(cfg, ops[..i]), ops[i], c, k)
    requires FirstAnchored(cfg, Run(cfg, ops[..j]), ops[j], c, l) && k != l
    ensures FindOwner(Run(cfg, ops).state.pains, c, k).Some? && FindOwner(Run(cfg, ops).state.pains, c, l).Some?
    ensures FindOwner(Run(cfg, ops).state.pains, c, k) != FindOwner(Run(cfg, ops).state.pains, c, l)
  {
    if i < j {
      LaterKeyApart(cfg, ops, i, j, c, k, l);
    } else if j < i {
      LaterKeyApart(cfg, ops, j, i, c, l, k);
    } else {
      Reachable(cfg, ops[..i]);
      OneAnchoredKey(cfg, Run(cfg, ops[..i]), ops[i], c, k, l);
    }
  }
}
