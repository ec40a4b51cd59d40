/** The identity review: the pairs offered for a decision (api/live_contracts.py), and why the review ends. */
module Review {
  import opened Contracts
  import opened Sequences
  import opened Templates
  import opened Reducer
  import opened Identity
  import opened Engine
  import opened Invariants

  const REVIEW_LIMIT := 8

  datatype Candidate = Candidate(category: Category, first: PainId, second: PainId)

  predicate Separated(decisions: seq<Decision>, a: PainId, b: PainId) {
    exists d :: d in decisions && d.action == KeepSeparate && d.pains == {a, b}
  }

  predicate Offerable(decisions: seq<Decision>, first: Pain, second: Pain) {
    && first.category == second.category
    && !Separated(decisions, first.id, second.id)
    && !(first.anchored && second.anchored && first.key != second.key)
  }

  predicate Reviewable(p: Pain) {
    p.open && p.Live()
  }

  function ActivePains(pains: seq<Pain>): seq<Pain> {
    if pains == [] then []
    else
      var front, p := ActivePains(pains[..|pains| - 1]), pains[|pains| - 1];
      if Reviewable(p) then front + [p] else front
  }

  /** The pairs of active problem i with the problems i + 1 up to (not including) j. */
  function RowUpTo(decisions: seq<Decision>, active: seq<Pain>, i: nat, j: nat): (r: seq<Candidate>)
    requires i < j <= |active|
    ensures |r| <= j - i - 1
    decreases j
  {
    if j == i + 1 then []
    else
      var front, a, b := RowUpTo(decisions, active, i, j - 1), active[i], active[j - 1];
      if Offerable(decisions, a, b) then front + [Candidate(a.category, a.id, b.id)] else front
  }

  function RowsUpTo(decisions: seq<Decision>, active: seq<Pain>, i: nat): seq<Candidate>
    requires i <= |active|
  {
    if i == 0 then [] else RowsUpTo(decisions, active, i - 1) + RowUpTo(decisions, active, i - 1, |active|)
  }

  /** All offerable pairs, before the limit of the live view. */
  function Candidates(st: MeetingState): seq<Candidate> {
    var active := ActivePains(st.pains);
    RowsUpTo(st.decisions, active, |active|)
  }

  function Capped(all: seq<Candidate>): seq<Candidate> {
    if |all| <= REVIEW_LIMIT then all else all[..REVIEW_LIMIT]
  }

  lemma {:induction false} RowPrefix(decisions: seq<Decision>, active: seq<Pain>, i: nat, j: nat, k: nat)
    requires i < j <= k <= |active|
    ensures RowUpTo(decisions, active, i, j) <= RowUpTo(decisions, active, i, k)
    decreases k
  {
    if j < k {
      RowPrefix(decisions, active, i, j, k - 1);
    }
  }

  lemma {:induction false} RowsPrefix(decisions: seq<Decision>, active: seq<Pain>, i: nat, k: nat)
    requires i <= k <= |active|
    ensures RowsUpTo(decisions, active, i) <= RowsUpTo(decisions, active, k)
    decreases k
  {
    if i < k {
      RowsPrefix(decisions, active, i, k - 1);
    }
  }

  /** What has been collected inside the loops is a prefix of the whole list. */
  lemma {:induction false} PartialIsPrefix(st: MeetingState, i: nat, j: nat)
    requires var active := ActivePains(st.pains); i < j <= |active|
    ensures var active := ActivePains(st.pains);
            RowsUpTo(st.decisions, active, i) + RowUpTo(st.decisions, active, i, j) <= Candidates(st)
  {
    var active := ActivePains(st.pains);
    RowPrefix(st.decisions, active, i, j, |active|);
    RowsPrefix(st.decisions, active, i + 1, |active|);
  }

  lemma RowStep(decisions: seq<Decision>, active: seq<Pain>, i: nat, j: nat, rows: seq<Candidate>)
    requires i < j < |active|
    ensures rows + RowUpTo(decisions, active, i, j + 1) ==
            rows + RowUpTo(decisions, active, i, j) +
            if Offerable(decisions, active[i], active[j])
            then [Candidate(active[i].category, active[i].id, active[j].id)] else []
  {
  }

  method IdentityReviewCandidates(st: MeetingState) returns (candidates: seq<Candidate>)
    ensures candidates == Capped(Candidates(st))
    ensures candidates <= Candidates(st) && |candidates| == if |Candidates(st)| < 8 then |Candidates(st)| else 8
  {
    var active := ActivePains(st.pains);
    candidates := [];
    for i := 0 to |active|
      invariant candidates == RowsUpTo(st.decisions, active, i) && |candidates| < REVIEW_LIMIT
    {
      ghost var rows := candidates;
      for j := i + 1 to |active|
        invariant candidates == rows + RowUpTo(st.decisions, active, i, j) && |candidates| < REVIEW_LIMIT
      {
        RowStep(st.decisions, active, i, j, rows);
        if Offerable(st.decisions, active[i], active[j]) {
          candidates := candidates + [Candidate(active[i].category, active[i].id, active[j].id)];
          if |candidates| == REVIEW_LIMIT {
            PartialIsPrefix(st, i, j + 1);
            return;
          }
        }
      }
    }
  }

  /* ---------- which pairs are offered ---------- */

  /** Problems i and j of the state make an offerable pair. */
  ghost predicate PairAt(st: MeetingState, i: nat, j: nat) {
    i < j < |st.pains| && Reviewable(st.pains[i]) && Reviewable(st.pains[j]) &&
    Offerable(st.decisions, st.pains[i], st.pains[j])
  }

  ghost predicate Offered(st: MeetingState, c: Candidate) {
    exists i: nat, j: nat :: PairAt(st, i, j) && c == Candidate(st.pains[i].category, st.pains[i].id, st.pains[j].id)
  }

  /** Positions of the active problems in the problem list, in the same order. */
  function ActiveIndices(pains: seq<Pain>): (r: seq<nat>)
    ensures |r| == |ActivePains(pains)|
    ensures forall a | 0 <= a < |r| :: r[a] < |pains| && Reviewable(pains[r[a]]) && ActivePains(pains)[a] == pains[r[a]]
    ensures forall a, b | 0 <= a < b < |r| :: r[a] < r[b]
    ensures forall i | 0 <= i < |pains| && Reviewable(pains[i]) :: i in r
  {
    if pains == [] then []
    else
      var front := ActiveIndices(pains[..|pains| - 1]);
      if Reviewable(pains[|pains| - 1]) then front + [|pains| - 1] else front
  }

  lemma {:induction false} RowMembers(decisions: seq<Decision>, active: seq<Pain>, i: nat, j: nat, c: Candidate)
    requires i < j <= |active|
    ensures c in RowUpTo(decisions, active, i, j) <==>
            exists b: nat :: i < b < j && Offerable(decisions, active[i], active[b]) &&
                             c == Candidate(active[i].category, active[i].id, active[b].id)
    decreases j
  {
    if j > i + 1 {
      RowMembers(decisions, active, i, j - 1, c);
    }
  }

  lemma {:induction false} RowsMembers(decisions: seq<Decision>, active: seq<Pain>, i: nat, c: Candidate)
    requires i <= |active|
    ensures c in RowsUpTo(decisions, active, i) <==>
            exists a: nat, b: nat :: a < i && a < b < |active| && Offerable(decisions, active[a], active[b]) &&
                                     c == Candidate(active[a].category, active[a].id, active[b].id)
  {
    if i > 0 {
      RowsMembers(decisions, active, i - 1, c);
      RowMembers(decisions, active, i - 1, |active|, c);
    }
  }

  lemma {:induction false} CandidateIsOffered(st: MeetingState, c: Candidate)
    requires c in Candidates(st)
    ensures Offered(st, c)
  {
    var active, at := ActivePains(st.pains), ActiveIndices(st.pains);
    RowsMembers(st.decisions, active, |active|, c);
    var a: nat, b: nat :| a < b < |active| && Offerable(st.decisions, active[a], active[b]) &&
                          c == Candidate(active[a].category, active[a].id, active[b].id);
    assert PairAt(st, at[a], at[b]);
  }

  lemma {:induction false} OfferedIsCandidate(st: MeetingState, c: Candidate, i: nat, j: nat)
    requires PairAt(st, i, j) && c == Candidate(st.pains[i].category, st.pains[i].id, st.pains[j].id)
    ensures c in Candidates(st)
  {
    var active, at := ActivePains(st.pains), ActiveIndices(st.pains);
    var a: nat :| a < |at| && at[a] == i;
    var b: nat :| b < |at| && at[b] == j;
    assert a < b;
    assert active[a] == st.pains[i] && active[b] == st.pains[j];
    RowsMembers(st.decisions, active, |active|, c);
  }

  lemma {:induction false} CandidatesAreOffered(st: MeetingState, c: Candidate)
    ensures c in Candidates(st) <==> Offered(st, c)
  {
    if c in Candidates(st) {
      CandidateIsOffered(st, c);
    }
    if i: nat, j: nat :| PairAt(st, i, j) && c == Candidate(st.pains[i].category, st.pains[i].id, st.pains[j].id) {
      OfferedIsCandidate(st, c, i, j);
    }
  }

  /** No decision keeps these two problems apart, and they are not both anchored under different keys. */
  predicate StillOpen(decisions: seq<Decision>, p: Pain, q: Pain) {
    && (forall d | d in decisions && d.action == KeepSeparate :: d.pains != {p.id, q.id})
    && (p.anchored && q.anchored ==> p.key == q.key)
  }

  /** The uncapped list offers exactly the unmerged pairs of one category that are still open to a decision. */
  lemma {:induction false} OfferedIff(cfg: Config, m: Memory, i: nat, j: nat)
    requires Inv(cfg, m) && i < j < |m.state.pains|
    ensures var p, q := m.state.pains[i], m.state.pains[j];
            Candidate(p.category, p.id, q.id) in Candidates(m.state) <==>
            && p.category == q.category && p.mergedInto.None? && q.mergedInto.None?
            && StillOpen(m.state.decisions, p, q)
  {
    var st := m.state;
    var p, q := st.pains[i], st.pains[j];
    assert forall x | 0 <= x < |st.pains| :: Shaped(st.pains, x);
    CandidatesAreOffered(st, Candidate(p.category, p.id, q.id));
    assert PairAt(st, i, j) <==> p.category == q.category && p.mergedInto.None? && q.mergedInto.None? &&
                                 StillOpen(st.decisions, p, q) by {
      assert Shaped(st.pains, i) && Shaped(st.pains, j);
    }
    if x: nat, y: nat :| PairAt(st, x, y) && st.pains[x].id == p.id && st.pains[y].id == q.id {
      assert x == i && y == j;
    }
  }

  predicate DistinctActive(active: seq<Pain>) {
    forall a, b | 0 <= a < b < |active| :: active[a].id != active[b].id
  }

  lemma {:induction false} RowNoDup(decisions: seq<Decision>, active: seq<Pain>, i: nat, j: nat)
    requires DistinctActive(active) && i < j <= |active|
    ensures NoDup(RowUpTo(decisions, active, i, j))
    decreases j
  {
    if j > i + 1 {
      RowNoDup(decisions, active, i, j - 1);
      forall c | c in RowUpTo(decisions, active, i, j - 1) ensures c.second != active[j - 1].id {
        RowMembers(decisions, active, i, j - 1, c);
      }
    }
  }

  lemma {:induction false} RowsNoDup(decisions: seq<Decision>, active: seq<Pain>, i: nat)
    requires DistinctActive(active) && i <= |active|
    ensures NoDup(RowsUpTo(decisions, active, i))
  {
    if i > 0 {
      RowsNoDup(decisions, active, i - 1);
      RowNoDup(decisions, active, i - 1, |active|);
      var rows, row := RowsUpTo(decisions, active, i - 1), RowUpTo(decisions, active, i - 1, |active|);
      forall c | c in rows ensures c !in row {
        RowsMembers(decisions, active, i - 1, c);
        RowMembers(decisions, active, i - 1, |active|, c);
      }
      NoDupConcat(rows, row);
    }
  }

  lemma {:induction false} CandidatesNoDup(st: MeetingState)
    requires DistinctIds(st.pains)
    ensures NoDup(Candidates(st))
  {
    var active, at := ActivePains(st.pains), ActiveIndices(st.pains);
    RowsNoDup(st.decisions, active, |active|);
  }

  /* ---------- the number of pairs ---------- */

  function Pairs(n: nat): nat {
    if n == 0 then 0 else Pairs(n - 1) + (n - 1)
  }

  lemma {:induction false} PairsFormula(n: nat)
    ensures 2 * Pairs(n) == n * (n - 1)
  {
    if n > 0 {
      PairsFormula(n - 1);
    }
  }

  lemma {:induction false} RowsBound(decisions: seq<Decision>, active: seq<Pain>, i: nat)
    requires i <= |active|
    ensures |RowsUpTo(decisions, active, i)| + Pairs(|active| - i) <= Pairs(|active|)
  {
    if i > 0 {
      RowsBound(decisions, active, i - 1);
    }
  }

  /** n unmerged problems make at most n(n-1)/2 offerable pairs. */
  lemma CandidatesBound(st: MeetingState)
    ensures var n := |ActivePains(st.pains)|; 2 * |Candidates(st)| <= n * (n - 1)
  {
    var active := ActivePains(st.pains);
    RowsBound(st.decisions, active, |active|);
    PairsFormula(|active|);
  }

  /** The capped list is empty exactly when nothing is offerable. */
  lemma CappedEmpty(st: MeetingState)
    ensures Capped(Candidates(st)) == [] <==> Candidates(st) == []
  {
  }

  /* ---------- deciding an offered pair ---------- */

  /** An offered pair has not been decided in either way before. */
  lemma OfferedUndecided(st: MeetingState, i: nat, j: nat, d: Decision)
    requires DistinctIds(st.pains) && DecisionsRecorded(st) && PairAt(st, i, j)
    requires d.pains == {st.pains[i].id, st.pains[j].id} && !d.action.OtherAction?
    ensures !Decided(st.decisions, d)
  {
    forall e | e in st.decisions ensures !e.SameId(d) {
      if e.action == Merge {
        var p :| p in st.pains && p.id in e.pains && !p.Live();
        var k :| 0 <= k < |st.pains| && st.pains[k] == p;
        assert k != i && k != j;
      }
    }
  }

  /** A review decision: an offered pair, merged or kept apart, with no survivor named or one of the two. */
  ghost predicate ReviewStep(st: MeetingState, action: Action, ids: seq<PainId>, survivor: Option<PainId>) {
    && !action.OtherAction?
    && |ids| == 2
    && (survivor.None? || survivor.value in ids)
    && exists i: nat, j: nat :: PairAt(st, i, j) && ids == [st.pains[i].id, st.pains[j].id]
  }

  /** Where the decision leads: the pair is separated, or one of the two is merged into the other. */
  lemma {:induction false} ReviewOutcome(
    cfg: Config, m: Memory, action: Action, ids: seq<PainId>, survivor: Option<PainId>, i: nat, j: nat)
    requires Inv(cfg, m) && ReviewStep(m.state, action, ids, survivor)
    requires PairAt(m.state, i, j) && ids == [m.state.pains[i].id, m.state.pains[j].id]
    ensures Decide(cfg, m, action, ids, survivor).Ok?
    ensures var after := Decide(cfg, m, action, ids, survivor).value.state;
            var d := DecisionOf(m.state, action, ids, survivor);
            var (s, r) := Roles(m.state.pains, i, j, survivor);
            if action == KeepSeparate then after.pains == m.state.pains && after.decisions == m.state.decisions + [d]
            else after.pains == MergeAt(m.state.pains, s, r) &&
                 after.decisions == m.state.decisions + [d.(survivor := Some(m.state.pains[s].id))]
  {
    var st, d := m.state, DecisionOf(m.state, action, ids, survivor);
    assert d.pains == {st.pains[i].id, st.pains[j].id};
    assert |d.pains| == 2;
    OfferedUndecided(st, i, j, d);
    PairDecided(st.pains, st.decisions, d, i, j);
  }

  lemma {:induction false} SeparatingShrinks(a: MeetingState, b: MeetingState, i: nat, j: nat, d: Decision)
    requires b.pains == a.pains && b.decisions == a.decisions + [d] && d.action == KeepSeparate
    requires DistinctIds(a.pains) && PairAt(a, i, j) && d.pains == {a.pains[i].id, a.pains[j].id}
    ensures forall c | Offered(b, c) :: Offered(a, c)
    ensures !Offered(b, Candidate(a.pains[i].category, a.pains[i].id, a.pains[j].id))
  {
    forall c | Offered(b, c)
      ensures Offered(a, c) && c != Candidate(a.pains[i].category, a.pains[i].id, a.pains[j].id)
    {
      var x: nat, y: nat :| PairAt(b, x, y) && c == Candidate(b.pains[x].category, b.pains[x].id, b.pains[y].id);
      assert forall e | e in a.decisions :: e in b.decisions;
      assert d in b.decisions;
      assert PairAt(a, x, y);
    }
  }

  lemma {:induction false} MergingShrinks(a: MeetingState, b: MeetingState, s: nat, m: nat, e: Decision)
    requires s < |a.pains| && m < |a.pains| && s != m && a.pains[s].Live() && a.pains[m].Live()
    requires b.pains == MergeAt(a.pains, s, m) && b.decisions == a.decisions + [e] && e.action == Merge
    requires DistinctIds(a.pains)
    ensures forall c | Offered(b, c) :: Offered(a, c)
    ensures forall c | Offered(b, c) :: c.first != a.pains[m].id && c.second != a.pains[m].id
  {
    forall c | Offered(b, c) ensures Offered(a, c) && c.first != a.pains[m].id && c.second != a.pains[m].id {
      var x: nat, y: nat :| PairAt(b, x, y) && c == Candidate(b.pains[x].category, b.pains[x].id, b.pains[y].id);
      assert x != m && y != m;
      assert forall d | d in a.decisions :: d in b.decisions;
      assert PairAt(a, x, y);
    }
  }

  lemma {:induction false} ReviewShrinks(
    cfg: Config, m: Memory, action: Action, ids: seq<PainId>, survivor: Option<PainId>, i: nat, j: nat)
    requires Inv(cfg, m) && ReviewStep(m.state, action, ids, survivor)
    requires PairAt(m.state, i, j) && ids == [m.state.pains[i].id, m.state.pains[j].id]
    ensures Decide(cfg, m, action, ids, survivor).Ok?
    ensures var b := Decide(cfg, m, action, ids, survivor).value.state;
            && |b.pains| == |m.state.pains| && (forall k | 0 <= k < |b.pains| :: b.pains[k].id == m.state.pains[k].id)
            && (forall c | Offered(b, c) :: Offered(m.state, c))
            && !Offered(b, Candidate(m.state.pains[i].category, m.state.pains[i].id, m.state.pains[j].id))
  {
    ReviewOutcome(cfg, m, action, ids, survivor, i, j);
    var a, b := m.state, Decide(cfg, m, action, ids, survivor).value.state;
    if action == KeepSeparate {
      SeparatingShrinks(a, b, i, j, DecisionOf(a, action, ids, survivor));
    } else {
      var (s, r) := Roles(a.pains, i, j, survivor);
      MergeLinks(a.pains, s, r);
      MergingShrinks(a, b, s, r, DecisionOf(a, action, ids, survivor).(survivor := Some(a.pains[s].id)));
    }
  }

  /** Every offered pair is accepted, and deciding it leaves strictly fewer offerable pairs. */
  lemma {:induction false} ReviewProgress(
    cfg: Config, m: Memory, action: Action, ids: seq<PainId>, survivor: Option<PainId>)
    requires Inv(cfg, m) && ReviewStep(m.state, action, ids, survivor)
    ensures Decide(cfg, m, action, ids, survivor).Ok?
    ensures |Candidates(Decide(cfg, m, action, ids, survivor).value.state)| < |Candidates(m.state)|
  {
    var i: nat, j: nat :| PairAt(m.state, i, j) && ids == [m.state.pains[i].id, m.state.pains[j].id];
    ReviewShrinks(cfg, m, action, ids, survivor, i, j);
    var c := Candidate(m.state.pains[i].category, m.state.pains[i].id, m.state.pains[j].id);
    assert Offered(m.state, c);
    FewerOffered(m.state, Decide(cfg, m, action, ids, survivor).value.state, c);
  }

  lemma {:induction false} FewerOffered(a: MeetingState, b: MeetingState, c: Candidate)
    requires DistinctIds(a.pains) && DistinctIds(b.pains)
    requires (forall x | Offered(b, x) :: Offered(a, x)) && Offered(a, c) && !Offered(b, c)
    ensures |Candidates(b)| < |Candidates(a)|
  {
    CandidatesNoDup(a);
    CandidatesNoDup(b);
    NoDupCard(Candidates(a));
    NoDupCard(Candidates(b));
    var sa, sb := Elements(Candidates(a)), Elements(Candidates(b));
    forall x | x in sb ensures x in sa {
      CandidatesAreOffered(a, x);
      CandidatesAreOffered(b, x);
    }
    CandidatesAreOffered(a, c);
    CandidatesAreOffered(b, c);
    assert sb <= sa && c in sa && c !in sb;
    StrictSubsetCard(sb, sa);
  }

  datatype Choice = Choice(action: Action, ids: seq<PainId>, survivor: Option<PainId>)

  /** A review session: each choice decides a pair that is offered at that moment. */
  ghost predicate ReviewSession(cfg: Config, m: Memory, choices: seq<Choice>)
    decreases |choices|
  {
    choices == [] ||
    var c := choices[0];
    ReviewStep(m.state, c.action, c.ids, c.survivor) &&
    var next := Decide(cfg, m, c.action, c.ids, c.survivor);
    next.Ok? && ReviewSession(cfg, next.value, choices[1..])
  }

  /** Where a review session leaves the engine. */
  function SessionEnd(cfg: Config, m: Memory, choices: seq<Choice>): Memory
    decreases |choices|
  {
    if choices == [] then m
    else
      var next := Decide(cfg, m, choices[0].action, choices[0].ids, choices[0].survivor);
      if next.Ok? then SessionEnd(cfg, next.value, choices[1..]) else m
  }

  lemma {:induction false} SessionLength(cfg: Config, m: Memory, choices: seq<Choice>)
    requires WellFormed(cfg.registry) && Inv(cfg, m) && ReviewSession(cfg, m, choices)
    ensures |choices| + |Candidates(SessionEnd(cfg, m, choices).state)| <= |Candidates(m.state)|
    decreases |choices|
  {
    if choices != [] {
      var c := choices[0];
      ReviewProgress(cfg, m, c.action, c.ids, c.survivor);
      DecideKeeps(cfg, m, c.action, c.ids, c.survivor);
      SessionLength(cfg, Decide(cfg, m, c.action, c.ids, c.survivor).value, choices[1..]);
    }
  }

  /** Some pair can be decided exactly when the list shown is not empty. */
  lemma {:induction false} CanGoOnIff(st: MeetingState)
    ensures Capped(Candidates(st)) != [] <==> exists c: Choice :: ReviewStep(st, c.action, c.ids, c.survivor)
  {
    if c :| c in Candidates(st) {
      CandidatesAreOffered(st, c);
      assert ReviewStep(st, Merge, [c.first, c.second], None);
      var choice := Choice(Merge, [c.first, c.second], None);
      assert ReviewStep(st, choice.action, choice.ids, choice.survivor);
    }
    if c: Choice :| ReviewStep(st, c.action, c.ids, c.survivor) {
      var i: nat, j: nat :| PairAt(st, i, j) && c.ids == [st.pains[i].id, st.pains[j].id];
      CandidatesAreOffered(st, Candidate(st.pains[i].category, st.pains[i].id, st.pains[j].id));
    }
    NoElements(Candidates(st));
  }

  /**
    With no new events, n unmerged problems allow at most n(n-1)/2 review decisions, and a session that cannot be
    continued has reached the empty list.
   */
  lemma {:induction false} ReviewTerminates(cfg: Config, m: Memory, choices: seq<Choice>)
    requires WellFormed(cfg.registry) && Inv(cfg, m) && ReviewSession(cfg, m, choices)
    ensures var n := |ActivePains(m.state.pains)|; 2 * |choices| <= n * (n - 1)
    ensures var last := SessionEnd(cfg, m, choices).state;
            (forall c: Choice :: !ReviewStep(last, c.action, c.ids, c.survivor)) <==> Capped(Candidates(last)) == []
  {
    SessionLength(cfg, m, choices);
    CandidatesBound(m.state);
    CanGoOnIff(SessionEnd(cfg, m, choices).state);
  }
}
