/** Which questions are published, told by the signals, ages and priorities of the open gaps. */
module Urgency {
  import opened Contracts
  import opened Sequences
  import opened Templates
  import opened Reducer
  import opened Identity
  import opened Selection
  import opened Engine
  import opened Invariants
  import opened Runs
  import opened Statements
  import opened Questions

  /* ---------- what makes a gap urgent ---------- */

  function Worth(s: Signal): int {
    match s
    case SecurityOrRegulatory => -3
    case ProductionInterruption => -3
    case CustomerImpact => -2
    case FinancialClose => -2
    case ExplicitDeadline => -1
  }

  /** The strongest signal in the text is worth a; without any signal a is 0. */
  ghost predicate Strongest(w: Wording, text: string, a: int) {
    && (a == 0 || exists s :: w.marks(s, text) && Worth(s) == a)
    && forall s | w.marks(s, text) :: a <= Worth(s)
  }

  predicate Rising(at: seq<nat>) {
    forall i, j | 0 <= i < j < |at| :: at[i] < at[j]
  }

  /** These are the positions of the active facts of the problem, in order. */
  predicate ActiveAt(facts: seq<Fact>, pain: PainId, at: seq<nat>) {
    && Rising(at)
    && (forall i | 0 <= i < |at| :: at[i] < |facts|)
    && (forall n | 0 <= n < |facts| :: n in at <==> facts[n].pain == pain && facts[n].status == Active)
  }

  /** The values at these positions, each put after the text so far, and case folded with it. */
  function Spoken(w: Wording, facts: seq<Fact>, at: seq<nat>): string
    requires forall i | 0 <= i < |at| :: at[i] < |facts|
  {
    if at == [] then "" else w.fold(Spoken(w, facts, at[..|at| - 1]) + " " + facts[at[|at| - 1]].value)
  }

  /** The effective priority of a gap is v: its template position, moved by the strongest signal but not below 0. */
  ghost predicate Effective(w: Wording, facts: seq<Fact>, g: Gap, v: nat) {
    exists at, a ::
      && ActiveAt(facts, g.id.pain, at) && Strongest(w, Spoken(w, facts, at), a)
      && v == if g.basePriority + a < 0 then 0 else g.basePriority + a
  }

  /** Effective priority decides, then the age of the problem, then the template position, then the name of the gap. */
  predicate Ahead(w: Wording, g: Gap, v: nat, p: Pain, h: Gap, u: nat, q: Pain) {
    v < u || (v == u && (p.createdSeq < q.createdSeq || (p.createdSeq == q.createdSeq &&
    (g.basePriority < h.basePriority || (g.basePriority == h.basePriority &&
    TextLess(w.gapText(g.id), w.gapText(h.id)))))))
  }

  /** Gap g is to be asked before gap h. */
  ghost predicate MoreUrgent(w: Wording, st: MeetingState, g: Gap, h: Gap) {
    exists v, p, u, q ::
      && Effective(w, st.facts, g, v) && p in st.pains && p.id == g.id.pain
      && Effective(w, st.facts, h, u) && q in st.pains && q.id == h.id.pain
      && Ahead(w, g, v, p, h, u, q)
  }

  lemma {:induction false} SpokenPrefix(w: Wording, facts: seq<Fact>, n: nat, at: seq<nat>)
    requires n <= |facts| && forall i | 0 <= i < |at| :: at[i] < n
    ensures Spoken(w, facts, at) == Spoken(w, facts[..n], at)
  {
    if at != [] {
      SpokenPrefix(w, facts, n, at[..|at| - 1]);
    }
  }

  lemma ActiveAtNext(facts: seq<Fact>, pain: PainId, front: seq<nat>)
    requires facts != [] && ActiveAt(facts[..|facts| - 1], pain, front)
    ensures var n := |facts| - 1;
            ActiveAt(facts, pain, if facts[n].pain == pain && facts[n].status == Active then front + [n] else front)
  {
    var n := |facts| - 1;
    var at := front + [n];
    forall k: nat ensures k in at <==> k in front || k == n {
      if k in at {
        var i :| 0 <= i < |at| && at[i] == k;
      }
      assert at[|front|] == n;
    }
    assert forall k | 0 <= k < n :: facts[..n][k] == facts[k];
    assert n !in front;
  }

  lemma {:induction false} ActiveTextSpoken(w: Wording, facts: seq<Fact>, pain: PainId) returns (at: seq<nat>)
    ensures ActiveAt(facts, pain, at) && Spoken(w, facts, at) == ActiveText(w, facts, pain)
  {
    at := [];
    if facts != [] {
      var n := |facts| - 1;
      var front := ActiveTextSpoken(w, facts[..n], pain);
      ActiveAtNext(facts, pain, front);
      SpokenPrefix(w, facts, n, front);
      at := if facts[n].pain == pain && facts[n].status == Active then front + [n] else front;
      assert (front + [n])[..|front|] == front;
    }
  }

  lemma RisingFront(a: seq<nat>, n: nat)
    requires Rising(a) && a != []
    ensures n in a[..|a| - 1] <==> n in a && n < a[|a| - 1]
    ensures n in a ==> n <= a[|a| - 1]
  {
    if n in a {
      var i :| 0 <= i < |a| && a[i] == n;
      assert i < |a| - 1 ==> a[..|a| - 1][i] == n;
    }
  }

  /** Rising sequences of the same numbers are the same. */
  lemma {:induction false} SamePositions(a: seq<nat>, b: seq<nat>)
    requires Rising(a) && Rising(b) && forall n: nat :: n in a <==> n in b
    ensures a == b
  {
    NoElements(a);
    NoElements(b);
    if a != [] && b != [] {
      var x, y := a[|a| - 1], b[|b| - 1];
      RisingFront(a, y);
      RisingFront(b, x);
      var front, back := a[..|a| - 1], b[..|b| - 1];
      forall n: nat ensures n in front <==> n in back {
        RisingFront(a, n);
        RisingFront(b, n);
      }
      SamePositions(front, back);
      assert a == front + [x] && b == back + [y];
    }
  }

  lemma {:induction false} StrongestOfFirst(w: Wording, text: string, n: nat)
    requires n <= |SIGNALS|
    ensures var a := Adjustment(w, text, n);
            && (a == 0 || exists s :: w.marks(s, text) && Worth(s) == a)
            && forall i | 0 <= i < n && w.marks(SIGNALS[i].0, text) :: a <= Worth(SIGNALS[i].0)
  {
    if n > 0 {
      StrongestOfFirst(w, text, n - 1);
      assert SIGNALS[n - 1].1 == Worth(SIGNALS[n - 1].0);
    }
  }

  lemma {:induction false} AdjustmentStrongest(w: Wording, text: string)
    ensures Strongest(w, text, Adjustment(w, text, |SIGNALS|))
  {
    var n := |SIGNALS|;
    StrongestOfFirst(w, text, n);
    assert SIGNALS[0].0 == SecurityOrRegulatory && SIGNALS[1].0 == ProductionInterruption;
    assert SIGNALS[2].0 == CustomerImpact && SIGNALS[3].0 == FinancialClose && SIGNALS[4].0 == ExplicitDeadline;
    forall s | w.marks(s, text) ensures Adjustment(w, text, n) <= Worth(s) {
      var i :| 0 <= i < n && SIGNALS[i].0 == s;
    }
  }

  lemma EffectiveIs(w: Wording, facts: seq<Fact>, pains: seq<Pain>, g: Gap, v: nat)
    ensures Effective(w, facts, g, v) <==> v == RankOne(w, g, pains, facts).priority
  {
    var at := ActiveTextSpoken(w, facts, g.id.pain);
    var text := ActiveText(w, facts, g.id.pain);
    AdjustmentStrongest(w, text);
    forall b | ActiveAt(facts, g.id.pain, b) ensures b == at {
      assert forall n: nat :: n in at ==> n < |facts|;
      SamePositions(at, b);
    }
  }

  lemma {:induction false} CreatedOrderIs(pains: seq<Pain>, p: Pain)
    requires DistinctIds(pains) && p in pains
    ensures CreatedOrder(pains, p.id) == p.createdSeq
  {
    var front, last := pains[..|pains| - 1], pains[|pains| - 1];
    assert pains == front + [last];
    if last.id == p.id {
      var i :| 0 <= i < |pains| && pains[i] == p;
    } else {
      CreatedOrderIs(front, p);
    }
  }

  /** On gaps of known problems the two orders agree. */
  lemma MoreUrgentIff(w: Wording, st: MeetingState, g: Gap, h: Gap)
    requires DistinctIds(st.pains) && g.id.pain in PainIds(st.pains) && h.id.pain in PainIds(st.pains)
    ensures MoreUrgent(w, st, g, h) <==> Before(RankOne(w, g, st.pains, st.facts), RankOne(w, h, st.pains, st.facts))
  {
    var a, b := RankOne(w, g, st.pains, st.facts), RankOne(w, h, st.pains, st.facts);
    forall v: nat ensures Effective(w, st.facts, g, v) <==> v == a.priority {
      EffectiveIs(w, st.facts, st.pains, g, v);
    }
    forall v: nat ensures Effective(w, st.facts, h, v) <==> v == b.priority {
      EffectiveIs(w, st.facts, st.pains, h, v);
    }
    forall p | p in st.pains ensures CreatedOrder(st.pains, p.id) == p.createdSeq {
      CreatedOrderIs(st.pains, p);
    }
    if Before(a, b) {
      var p :| p in st.pains && p.id == g.id.pain;
      var q :| q in st.pains && q.id == h.id.pain;
      assert Ahead(w, g, a.priority, p, h, b.priority, q);
    }
  }

  /* ---------- the ranking and its prefix ---------- */

  /** The open gaps that are to be asked before h. */
  ghost function AheadOf(w: Wording, st: MeetingState, h: Gap): set<Gap> {
    set g | g in st.gaps && !g.answered && MoreUrgent(w, st, g, h)
  }

  /** The ranking lists the open gaps; a gap stands at the position that the number of gaps ahead of it gives. */
  ghost predicate RanksGaps(w: Wording, st: MeetingState, ranked: seq<Ranked>) {
    && (forall i, j | 0 <= i < |ranked| && 0 <= j < |ranked| ::
          i < j <==> MoreUrgent(w, st, ranked[i].gap, ranked[j].gap))
    && (forall r | r in ranked :: r.gap in st.gaps && !r.gap.answered && Effective(w, st.facts, r.gap, r.priority))
    && (forall g | g in st.gaps && !g.answered :: exists k :: 0 <= k < |ranked| && ranked[k].gap == g)
  }

  lemma {:induction false} RankingRanks(w: Wording, st: MeetingState)
    requires DistinctIds(st.pains) && DistinctGaps(st.gaps) && DistinctNames(w)
    requires forall g | g in st.gaps :: g.id.pain in PainIds(st.pains)
    ensures RanksGaps(w, st, Ranking(w, st.pains, st.gaps, st.facts))
  {
    var ranked := Ranking(w, st.pains, st.gaps, st.facts);
    RankingOrdered(w, st.pains, st.gaps, st.facts);
    RankingElements(w, st.pains, st.gaps, st.facts);
    forall i, j | 0 <= i < |ranked| && 0 <= j < |ranked|
      ensures i < j <==> MoreUrgent(w, st, ranked[i].gap, ranked[j].gap)
    {
      assert ranked[i] in ranked && ranked[j] in ranked;
      MoreUrgentIff(w, st, ranked[i].gap, ranked[j].gap);
      SortedBefore(ranked, i, j);
    }
    forall r | r in ranked ensures Effective(w, st.facts, r.gap, r.priority) {
      EffectiveIs(w, st.facts, st.pains, r.gap, r.priority);
    }
    forall g | g in st.gaps && !g.answered ensures exists k :: 0 <= k < |ranked| && ranked[k].gap == g {
      assert RankOne(w, g, st.pains, st.facts) in ranked;
    }
  }

  lemma SortedBefore(s: seq<Ranked>, i: nat, j: nat)
    requires Sorted(s) && i < |s| && j < |s|
    ensures i < j <==> Before(s[i], s[j])
  {
    TextLessTotal(s[i].text, s[j].text);
    assert j < i ==> Before(s[j], s[i]);
  }

  function GapsOf(ranked: seq<Ranked>): seq<Gap> {
    Mapped(ranked, (r: Ranked) => r.gap)
  }

  lemma FirstRankedDiffer(w: Wording, st: MeetingState, ranked: seq<Ranked>, k: nat)
    requires RanksGaps(w, st, ranked) && k < |ranked|
    ensures NoDup(GapsOf(ranked[..k]))
  {
    var before := GapsOf(ranked[..k]);
    forall i, j | 0 <= i < j < k ensures before[i] != before[j] {
      assert MoreUrgent(w, st, ranked[i].gap, ranked[j].gap);
      assert i < i <==> MoreUrgent(w, st, ranked[i].gap, ranked[i].gap);
    }
  }

  lemma FirstRankedAhead(w: Wording, st: MeetingState, ranked: seq<Ranked>, k: nat, g: Gap)
    requires RanksGaps(w, st, ranked) && k < |ranked|
    ensures g in GapsOf(ranked[..k]) <==> g in AheadOf(w, st, ranked[k].gap)
  {
    var before := GapsOf(ranked[..k]);
    if g in before {
      var i :| 0 <= i < k && before[i] == g;
      assert ranked[i] in ranked;
      assert i < k <==> MoreUrgent(w, st, ranked[i].gap, ranked[k].gap);
    }
    if g in AheadOf(w, st, ranked[k].gap) {
      var i :| 0 <= i < |ranked| && ranked[i].gap == g;
      assert i < k <==> MoreUrgent(w, st, ranked[i].gap, ranked[k].gap);
      assert before[i] == g;
    }
  }

  lemma RankIsNumberAhead(w: Wording, st: MeetingState, ranked: seq<Ranked>, k: nat)
    requires RanksGaps(w, st, ranked) && k < |ranked|
    ensures |AheadOf(w, st, ranked[k].gap)| == k
  {
    FirstRankedDiffer(w, st, ranked, k);
    NoDupCard(GapsOf(ranked[..k]));
    forall g ensures g in Elements(GapsOf(ranked[..k])) <==> g in AheadOf(w, st, ranked[k].gap) {
      FirstRankedAhead(w, st, ranked, k, g);
    }
    assert Elements(GapsOf(ranked[..k])) == AheadOf(w, st, ranked[k].gap);
  }

  /* ---------- what is published ---------- */

  /** The call succeeds, and the questions are published in this language. */
  ghost predicate PublishesIn(cfg: Config, m: Memory, op: Op, lang: Lang) {
    match op
    case HearOp(e) => Accepts(m, e) && lang == e.lang
    case DecideOp(action, ids, survivor) =>
      && Decide(cfg, m, action, ids, survivor).Ok?
      && lang == if m.state.transcript == [] then En else m.state.transcript[|m.state.transcript| - 1].lang
    case ConfirmOp(hint) =>
      HintAccepted(cfg, m, hint) && exists t :: LatestAmong(m.state.transcript, hint.evidence, t) && lang == t.lang
  }

  lemma {:induction false} PublishesSuggestions(cfg: Config, m: Memory, op: Op, lang: Lang)
    requires Inv(cfg, m) && PublishesIn(cfg, m, op, lang)
    ensures Published(cfg, Step(cfg, m, op).state, lang)
  {
    match op
    case HearOp(e) =>
    case DecideOp(action, ids, survivor) =>
    case ConfirmOp(hint) =>
      var t :| LatestAmong(m.state.transcript, hint.evidence, t) && lang == t.lang;
      LatestCitedIsLatest(m.state.transcript, hint.evidence);
      LatestUnique(m.state.transcript, hint.evidence, t, LatestCited(m.state.transcript, hint.evidence));
  }

  /** The suggestion asks the open gap h: as ASK NOW if nothing is more urgent, with its effective priority. */
  ghost predicate Asks(w: Wording, st: MeetingState, s: Suggestion, h: Gap) {
    && h in st.gaps && !h.answered && s.gap == h.id
    && (s.role == AskNow <==> AheadOf(w, st, h) == {})
    && Effective(w, st.facts, h, s.priority)
  }

  /** Each suggestion asks a gap, and gaps asked later are less urgent. */
  ghost predicate AsksInOrder(w: Wording, st: MeetingState, asked: seq<Gap>) {
    && |asked| == |st.suggestions|
    && (forall k | 0 <= k < |asked| :: Asks(w, st, st.suggestions[k], asked[k]))
    && (forall i, j | 0 <= i < j < |asked| :: MoreUrgent(w, st, asked[i], asked[j]))
  }

  /** These positions of the ranking, in order, are the first n that can be asked in the language. */
  ghost predicate AskedPositions(
    w: Wording, reg: Registry, pains: seq<Pain>, lang: Lang, ranked: seq<Ranked>, n: nat, at: seq<nat>)
    requires n <= |ranked|
  {
    && Rising(at) && (forall i | 0 <= i < |at| :: at[i] < n)
    && forall k: nat :: k in at <==> k < n && Renderable(w, reg, pains, lang, ranked[k].gap.id)
  }

  lemma {:induction false} SuggestPositions(
    w: Wording, reg: Registry, pains: seq<Pain>, lang: Lang, ranked: seq<Ranked>, n: nat) returns (at: seq<nat>)
    requires n <= |ranked|
    ensures AskedPositions(w, reg, pains, lang, ranked, n, at)
    ensures var chosen := Suggest(w, reg, pains, lang, ranked, n);
            |chosen| == |at| && forall i | 0 <= i < |at| ::
              chosen[i] == Suggestion(ranked[at[i]].gap.id, if at[i] == 0 then AskNow else FollowUp,
                                      ranked[at[i]].priority)
  {
    at := [];
    if n > 0 {
      var front := SuggestPositions(w, reg, pains, lang, ranked, n - 1);
      at := front;
      if Renderable(w, reg, pains, lang, ranked[n - 1].gap.id) {
        at := front + [n - 1];
        assert forall k: nat :: k in at <==> k in front || k == n - 1;
      }
    }
  }

  /** A gap of the table can be asked exactly in the languages that have its question. */
  lemma RenderableIff(cfg: Config, m: Memory, lang: Lang, g: Gap)
    requires Inv(cfg, m) && g in m.state.gaps
    ensures g.id.pain in PainIds(m.state.pains)
    ensures Renderable(cfg.wording, cfg.registry, m.state.pains, lang, g.id) <==>
            cfg.wording.localized(lang, g.id.pain.category, g.id.slot)
  {
    var pains := m.state.pains;
    assert GapMatches(cfg.registry, m.state, g.id);
    var i :| 0 <= i < |pains| && pains[i].id == g.id.pain && Asked(cfg.registry, pains[i]) &&
             g.id.slot in cfg.registry[pains[i].category].slots;
    var c := CategoryOf(pains, g.id.pain);
    var j :| 0 <= j < |pains| && pains[j].id == g.id.pain && pains[j].category == c.value;
    assert Shaped(pains, i) && Shaped(pains, j) && pains[i] in pains;
  }

  /** The gaps at these positions of the ranking are those with fewer than three gaps ahead and a question to ask. */
  lemma AskedIff(
    w: Wording, reg: Registry, st: MeetingState, lang: Lang, ranked: seq<Ranked>, n: nat, at: seq<nat>,
    asked: seq<Gap>, h: Gap)
    requires |asked| == |at| && forall i | 0 <= i < |at| :: at[i] < |ranked| && asked[i] == ranked[at[i]].gap
    requires RanksGaps(w, st, ranked) && n == AtMost(|ranked|, 3) && h in st.gaps && !h.answered
    requires AskedPositions(w, reg, st.pains, lang, ranked, n, at)
    ensures h in asked <==> |AheadOf(w, st, h)| < 3 && Renderable(w, reg, st.pains, lang, h.id)
  {
    var k :| 0 <= k < |ranked| && ranked[k].gap == h;
    RankIsNumberAhead(w, st, ranked, k);
    if h in asked {
      var i :| 0 <= i < |at| && asked[i] == h;
      RankIsNumberAhead(w, st, ranked, at[i]);
      assert at[i] in at;
    }
    if k < n && Renderable(w, reg, st.pains, lang, h.id) {
      var i :| 0 <= i < |at| && at[i] == k;
      assert asked[i] == h;
    }
  }

  lemma PositionsAsk(
    w: Wording, reg: Registry, st: MeetingState, lang: Lang, ranked: seq<Ranked>, n: nat, at: seq<nat>, asked: seq<Gap>)
    requires RanksGaps(w, st, ranked) && n <= |ranked| && AskedPositions(w, reg, st.pains, lang, ranked, n, at)
    requires |st.suggestions| == |at| == |asked|
    requires forall i | 0 <= i < |at| ::
               asked[i] == ranked[at[i]].gap &&
               st.suggestions[i] == Suggestion(ranked[at[i]].gap.id, if at[i] == 0 then AskNow else FollowUp,
                                               ranked[at[i]].priority)
    ensures AsksInOrder(w, st, asked)
  {
    forall i | 0 <= i < |at| ensures Asks(w, st, st.suggestions[i], asked[i]) {
      RankIsNumberAhead(w, st, ranked, at[i]);
      assert ranked[at[i]] in ranked;
    }
    forall i, j | 0 <= i < j < |at| ensures MoreUrgent(w, st, asked[i], asked[j]) {
      assert at[i] < at[j] <==> MoreUrgent(w, st, ranked[at[i]].gap, ranked[at[j]].gap);
    }
  }

  /**
    What every call publishes: in order of urgency, the open gaps that have a question in the language of the call and
    fewer than three open gaps more urgent than themselves; ASK NOW is the one that no gap is more urgent than.
   */
  lemma {:induction false} UrgentAreAsked(cfg: Config, ops: seq<Op>, op: Op, lang: Lang) returns (asked: seq<Gap>)
    requires WellFormed(cfg.registry) && DistinctNames(cfg.wording) && PublishesIn(cfg, Run(cfg, ops), op, lang)
    ensures var st := Run(cfg, ops + [op]).state;
            && AsksInOrder(cfg.wording, st, asked)
            && forall h | h in st.gaps && !h.answered ::
                 h in asked <==> |AheadOf(cfg.wording, st, h)| < 3 &&
                                 cfg.wording.localized(lang, h.id.pain.category, h.id.slot)
  {
    var m := Run(cfg, ops + [op]);
    assert Inv(cfg, m) && Published(cfg, m.state, lang) by {
      assert (ops + [op])[..|ops|] == ops;
      Reachable(cfg, ops);
      Reachable(cfg, ops + [op]);
      PublishesSuggestions(cfg, Run(cfg, ops), op, lang);
    }
    asked := AskedOf(cfg, m, lang);
    forall h | h in m.state.gaps && !h.answered
      ensures h in asked <==> |AheadOf(cfg.wording, m.state, h)| < 3 &&
                              cfg.wording.localized(lang, h.id.pain.category, h.id.slot)
    {
      RenderableIff(cfg, m, lang, h);
    }
  }

  lemma {:induction false} AskedOf(cfg: Config, m: Memory, lang: Lang) returns (asked: seq<Gap>)
    requires Inv(cfg, m) && DistinctNames(cfg.wording) && Published(cfg, m.state, lang)
    ensures AsksInOrder(cfg.wording, m.state, asked)
    ensures forall h | h in m.state.gaps && !h.answered ::
              h in asked <==> |AheadOf(cfg.wording, m.state, h)| < 3 &&
                              Renderable(cfg.wording, cfg.registry, m.state.pains, lang, h.id)
  {
    var st := m.state;
    forall g | g in st.gaps ensures g.id.pain in PainIds(st.pains) {
      RenderableIff(cfg, m, lang, g);
    }
    RankingRanks(cfg.wording, st);
    asked := AskedAt(cfg.wording, cfg.registry, st, lang, Ranking(cfg.wording, st.pains, st.gaps, st.facts));
  }

  lemma {:induction false} AskedAt(w: Wording, reg: Registry, st: MeetingState, lang: Lang, ranked: seq<Ranked>)
    returns (asked: seq<Gap>)
    requires RanksGaps(w, st, ranked)
    requires st.suggestions == Suggest(w, reg, st.pains, lang, ranked, AtMost(|ranked|, 3))
    ensures AsksInOrder(w, st, asked)
    ensures forall h | h in st.gaps && !h.answered ::
              h in asked <==> |AheadOf(w, st, h)| < 3 && Renderable(w, reg, st.pains, lang, h.id)
  {
    var n := AtMost(|ranked|, 3);
    var at := SuggestPositions(w, reg, st.pains, lang, ranked, n);
    asked := seq(|at|, i requires 0 <= i < |at| => ranked[at[i]].gap);
    PositionsAsk(w, reg, st, lang, ranked, n, at, asked);
    forall h | h in st.gaps && !h.answered
      ensures h in asked <==> |AheadOf(w, st, h)| < 3 && Renderable(w, reg, st.pains, lang, h.id)
    {
      AskedIff(w, reg, st, lang, ranked, n, at, asked, h);
    }
  }

  lemma MoreUrgentTransitive(w: Wording, st: MeetingState, f: Gap, g: Gap, h: Gap)
    requires DistinctIds(st.pains) && MoreUrgent(w, st, f, g) && MoreUrgent(w, st, g, h)
    ensures MoreUrgent(w, st, f, h) && !MoreUrgent(w, st, h, g)
  {
    MoreUrgentIff(w, st, f, g);
    MoreUrgentIff(w, st, g, h);
    MoreUrgentIff(w, st, f, h);
    MoreUrgentIff(w, st, h, g);
    var a, b, c := RankOne(w, f, st.pains, st.facts), RankOne(w, g, st.pains, st.facts),
                   RankOne(w, h, st.pains, st.facts);
    BeforeTransitive(a, b, c);
    TextLessTotal(b.text, c.text);
  }

  lemma FewerAhead(w: Wording, st: MeetingState, g: Gap, h: Gap)
    requires DistinctIds(st.pains) && MoreUrgent(w, st, g, h)
    ensures |AheadOf(w, st, g)| <= |AheadOf(w, st, h)| && g != h && !MoreUrgent(w, st, h, g)
  {
    forall f | f in AheadOf(w, st, g) ensures f in AheadOf(w, st, h) {
      MoreUrgentTransitive(w, st, f, g, h);
    }
    SubsetCard(AheadOf(w, st, g), AheadOf(w, st, h));
    if MoreUrgent(w, st, h, g) {
      MoreUrgentTransitive(w, st, g, h, g);
    }
  }

  lemma AsksOf(w: Wording, st: MeetingState, asked: seq<Gap>, k: nat, j: nat)
    requires AsksInOrder(w, st, asked) && k < |asked| && j < |asked|
    ensures st.suggestions[j].gap == asked[j].id
    ensures k < j ==> MoreUrgent(w, st, asked[k], asked[j])
  {
    assert Asks(w, st, st.suggestions[j], asked[j]);
  }

  lemma AskedEarlier(w: Wording, st: MeetingState, asked: seq<Gap>, g: Gap, h: Gap, k: nat) returns (j: nat)
    requires !MoreUrgent(w, st, h, g) && g != h && g in asked
    requires AsksInOrder(w, st, asked) && k < |asked| && asked[k] == h
    ensures j < k && st.suggestions[j].gap == g.id
  {
    j :| 0 <= j < |asked| && asked[j] == g;
    AsksOf(w, st, asked, k, j);
  }

  /** When a gap is asked, every more urgent gap that has a question is asked before it. */
  lemma {:induction false} UrgentFirst(
    cfg: Config, ops: seq<Op>, op: Op, lang: Lang, g: Gap, h: Gap, k: nat) returns (j: nat)
    requires WellFormed(cfg.registry) && DistinctNames(cfg.wording) && PublishesIn(cfg, Run(cfg, ops), op, lang)
    requires var st := Run(cfg, ops + [op]).state;
             && g in st.gaps && !g.answered && cfg.wording.localized(lang, g.id.pain.category, g.id.slot)
             && h in st.gaps && !h.answered && k < |st.suggestions| && st.suggestions[k].gap == h.id
             && MoreUrgent(cfg.wording, st, g, h)
    ensures j < k && Run(cfg, ops + [op]).state.suggestions[j].gap == g.id
  {
    var st := Run(cfg, ops + [op]).state;
    Reachable(cfg, ops + [op]);
    var asked := UrgentAreAsked(cfg, ops, op, lang);
    assert Asks(cfg.wording, st, st.suggestions[k], asked[k]);
    assert asked[k] == h by {
      assert DistinctGaps(st.gaps);
    }
    FewerAhead(cfg.wording, st, g, h);
    j := AskedEarlier(cfg.wording, st, asked, g, h, k);
  }
}
