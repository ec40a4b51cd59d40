/** Question ranking and selection (domain/priority.py, domain/selector.py). */
module Selection {
  import opened Contracts
  import opened Sequences
  import opened Templates

  datatype Signal = SecurityOrRegulatory | ProductionInterruption | CustomerImpact | FinancialClose | ExplicitDeadline

  const SIGNALS: seq<(Signal, int)> := [
    (SecurityOrRegulatory, -3), (ProductionInterruption, -3), (CustomerImpact, -2), (FinancialClose, -2),
    (ExplicitDeadline, -1)]

  const MAX_SUGGESTIONS := 3

  /** Language data: case folding, signal markers, which questions are translated, and the wire text of a gap id. */
  datatype Wording = Wording(
    fold: string -> string, marks: (Signal, string) -> bool, localized: (Lang, Category, Slot) -> bool,
    gapText: GapId -> string)

  /* ---------- ranking ---------- */

  function ActiveText(w: Wording, facts: seq<Fact>, pain: PainId): string {
    if facts == [] then ""
    else
      var front, f := ActiveText(w, facts[..|facts| - 1], pain), facts[|facts| - 1];
      if f.status == Active && f.pain == pain then w.fold(front + " " + f.value) else front
  }

  /** The strongest of the first n signals that the text carries. */
  function Adjustment(w: Wording, text: string, n: nat): (r: int)
    requires n <= |SIGNALS|
    ensures -3 <= r <= 0
  {
    if n == 0 then 0
    else
      var before, (signal, value) := Adjustment(w, text, n - 1), SIGNALS[n - 1];
      if w.marks(signal, text) && value < before then value else before
  }

  function CreatedOrder(pains: seq<Pain>, id: PainId): int {
    if pains == [] then 0
    else if pains[|pains| - 1].id == id then pains[|pains| - 1].createdSeq
    else CreatedOrder(pains[..|pains| - 1], id)
  }

  datatype Ranked = Ranked(gap: Gap, priority: nat, created: int, text: string)

  function RankOne(w: Wording, g: Gap, pains: seq<Pain>, facts: seq<Fact>): Ranked {
    var shifted := g.basePriority + Adjustment(w, ActiveText(w, facts, g.id.pain), |SIGNALS|);
    Ranked(g, if shifted < 0 then 0 else shifted, CreatedOrder(pains, g.id.pain), w.gapText(g.id))
  }

  function RankAll(w: Wording, gaps: seq<Gap>, pains: seq<Pain>, facts: seq<Fact>): (r: seq<Ranked>)
    ensures |r| == |gaps| && forall i | 0 <= i < |gaps| :: r[i] == RankOne(w, gaps[i], pains, facts)
  {
    if gaps == [] then []
    else RankAll(w, gaps[..|gaps| - 1], pains, facts) + [RankOne(w, gaps[|gaps| - 1], pains, facts)]
  }

  /** The sort key, compared lexicographically. */
  predicate Before(a: Ranked, b: Ranked) {
    a.priority < b.priority || (a.priority == b.priority &&
    (a.created < b.created || (a.created == b.created &&
    (a.gap.basePriority < b.gap.basePriority || (a.gap.basePriority == b.gap.basePriority &&
    TextLess(a.text, b.text))))))
  }

  lemma BeforeTotal(a: Ranked, b: Ranked)
    requires a.text != b.text
    ensures Before(a, b) <==> !Before(b, a)
  {
    TextLessTotal(a.text, b.text);
  }

  lemma BeforeTransitive(a: Ranked, b: Ranked, c: Ranked)
    requires Before(a, b) && Before(b, c)
    ensures Before(a, c)
  {
    if TextLess(a.text, b.text) && TextLess(b.text, c.text) {
      TextLessTransitive(a.text, b.text, c.text);
    }
  }

  predicate Sorted(s: seq<Ranked>) {
    forall i, j | 0 <= i < j < |s| :: Before(s[i], s[j])
  }

  predicate DistinctTexts(s: seq<Ranked>) {
    forall i, j | 0 <= i < j < |s| :: s[i].text != s[j].text
  }

  /** r is placed after every element that is not greater. */
  function Insert(s: seq<Ranked>, r: Ranked): (t: seq<Ranked>)
    ensures forall x :: x in t <==> x in s || x == r
  {
    if s == [] || !Before(r, s[|s| - 1]) then s + [r]
    else
      assert s == s[..|s| - 1] + [s[|s| - 1]];
      Insert(s[..|s| - 1], r) + [s[|s| - 1]]
  }

  function Sort(s: seq<Ranked>): seq<Ranked> {
    if s == [] then [] else Insert(Sort(s[..|s| - 1]), s[|s| - 1])
  }

  lemma {:induction false} InsertKeeps(s: seq<Ranked>, r: Ranked)
    ensures multiset(Insert(s, r)) == multiset(s) + multiset{r}
    ensures |Insert(s, r)| == |s| + 1
  {
    if s != [] && Before(r, s[|s| - 1]) {
      InsertKeeps(s[..|s| - 1], r);
      assert s == s[..|s| - 1] + [s[|s| - 1]];
    }
  }

  lemma {:induction false} InsertSorted(s: seq<Ranked>, r: Ranked)
    requires Sorted(s) && forall x | x in s :: x.text != r.text
    ensures Sorted(Insert(s, r))
  {
    if s != [] {
      var front, last := s[..|s| - 1], s[|s| - 1];
      assert s == front + [last];
      BeforeTotal(r, last);
      if Before(r, last) {
        InsertSorted(front, r);
        forall x | x in Insert(front, r) ensures Before(x, last) {
          if x in front {
            var k :| 0 <= k < |front| && front[k] == x;
            assert Before(s[k], s[|front|]);
          }
        }
      } else {
        forall x | x in front ensures Before(x, r) {
          BeforeTransitive(x, last, r);
        }
      }
    }
  }

  lemma {:induction false} SortIsSorted(s: seq<Ranked>)
    requires DistinctTexts(s)
    ensures multiset(Sort(s)) == multiset(s) && |Sort(s)| == |s| && Sorted(Sort(s))
  {
    if s != [] {
      var front, last := s[..|s| - 1], s[|s| - 1];
      assert s == front + [last];
      SortIsSorted(front);
      InsertKeeps(Sort(front), last);
      forall x | x in Sort(front) ensures x.text != last.text {
        assert x in multiset(Sort(front));
        assert x in front;
      }
      InsertSorted(Sort(front), last);
    }
  }

  /** A strict order leaves no choice: sorted lists with the same elements are the same list. */
  lemma {:induction false} SortedUnique(a: seq<Ranked>, b: seq<Ranked>)
    requires Sorted(a) && Sorted(b) && multiset(a) == multiset(b)
    ensures a == b
  {
    assert |a| == |multiset(a)| == |multiset(b)| == |b|;
    if a != [] {
      var x, y := a[0], b[0];
      assert x in multiset(b) && y in multiset(a);
      if x != y {
        assert Before(y, x) && Before(x, y);
        TextLessTotal(x.text, y.text);
        assert false;
      }
      assert a == [x] + a[1..] && b == [y] + b[1..];
      assert multiset(a[1..]) == multiset(a) - multiset{x};
      SortedUnique(a[1..], b[1..]);
    }
  }

  method Rank(w: Wording, gaps: seq<Gap>, pains: seq<Pain>, facts: seq<Fact>) returns (ranked: seq<Ranked>)
    ensures ranked == Sort(RankAll(w, gaps, pains, facts))
  {
    ranked := [];
    for i := 0 to |gaps|
      invariant ranked == RankAll(w, gaps[..i], pains, facts)
    {
      var text := ActiveText(w, facts, gaps[i].id.pain);
      var adjustment := 0;
      for k := 0 to |SIGNALS|
        invariant adjustment == Adjustment(w, text, k)
      {
        var (signal, value) := SIGNALS[k];
        if w.marks(signal, text) && value < adjustment {
          adjustment := value;
        }
      }
      var shifted := gaps[i].basePriority + adjustment;
      assert gaps[..i + 1][..i] == gaps[..i];
      ranked := ranked + [Ranked(gaps[i], if shifted < 0 then 0 else shifted, CreatedOrder(pains, gaps[i].id.pain),
                                 w.gapText(gaps[i].id))];
    }
    assert gaps[..|gaps|] == gaps;
    ranked := Sort(ranked);
  }

  /* ---------- selection ---------- */

  function OpenGaps(gaps: seq<Gap>): (r: seq<Gap>)
    ensures forall g :: g in r <==> g in gaps && !g.answered
  {
    if gaps == [] then []
    else
      var front, g := OpenGaps(gaps[..|gaps| - 1]), gaps[|gaps| - 1];
      assert gaps == gaps[..|gaps| - 1] + [g];
      if g.answered then front else front + [g]
  }

  function CategoryOf(pains: seq<Pain>, id: PainId): (r: Option<Category>)
    ensures r.Some? ==> exists i :: 0 <= i < |pains| && pains[i].id == id && pains[i].category == r.value
    ensures r.None? ==> forall i | 0 <= i < |pains| :: pains[i].id != id
  {
    if pains == [] then None
    else if pains[|pains| - 1].id == id then Some(pains[|pains| - 1].category)
    else CategoryOf(pains[..|pains| - 1], id)
  }

  /** The question of a gap exists in the meeting language; there is no fallback to another language. */
  predicate Renderable(w: Wording, reg: Registry, pains: seq<Pain>, lang: Lang, id: GapId) {
    var c := CategoryOf(pains, id.pain);
    c.Some? && c.value in reg && w.localized(lang, c.value, id.slot)
  }

  /** The suggestions of the first n ranked gaps. */
  function Suggest(
    w: Wording, reg: Registry, pains: seq<Pain>, lang: Lang, ranked: seq<Ranked>, n: nat): seq<Suggestion>
    requires n <= |ranked|
  {
    if n == 0 then []
    else
      var front, r := Suggest(w, reg, pains, lang, ranked, n - 1), ranked[n - 1];
      if Renderable(w, reg, pains, lang, r.gap.id)
      then front + [Suggestion(r.gap.id, if n == 1 then AskNow else FollowUp, r.priority)]
      else front
  }

  function Ranking(w: Wording, pains: seq<Pain>, gaps: seq<Gap>, facts: seq<Fact>): seq<Ranked> {
    Sort(RankAll(w, OpenGaps(gaps), pains, facts))
  }

  function AtMost(n: nat, limit: nat): nat {
    if n <= limit then n else limit
  }

  function Suggestions(
    w: Wording, reg: Registry, pains: seq<Pain>, gaps: seq<Gap>, lang: Lang, facts: seq<Fact>): seq<Suggestion>
  {
    var ranked := Ranking(w, pains, gaps, facts);
    Suggest(w, reg, pains, lang, ranked, AtMost(|ranked|, MAX_SUGGESTIONS))
  }

  method SelectSuggestions(
    w: Wording, reg: Registry, pains: seq<Pain>, gaps: seq<Gap>, lang: Lang, facts: seq<Fact>)
    returns (suggestions: seq<Suggestion>)
    ensures suggestions == Suggestions(w, reg, pains, gaps, lang, facts)
  {
    var ranked := Rank(w, OpenGaps(gaps), pains, facts);
    suggestions := [];
    for rank := 0 to AtMost(|ranked|, MAX_SUGGESTIONS)
      invariant suggestions == Suggest(w, reg, pains, lang, ranked, rank)
    {
      var r := ranked[rank];
      if Renderable(w, reg, pains, lang, r.gap.id) {
        suggestions := suggestions + [Suggestion(r.gap.id, if rank == 0 then AskNow else FollowUp, r.priority)];
      }
    }
  }

  /* ---------- laws ---------- */

  ghost predicate DistinctGapTexts(w: Wording, gaps: seq<Gap>) {
    forall i, j | 0 <= i < j < |gaps| :: w.gapText(gaps[i].id) != w.gapText(gaps[j].id)
  }

  lemma {:induction false} OpenGapsDistinct(w: Wording, gaps: seq<Gap>)
    requires DistinctGapTexts(w, gaps)
    ensures DistinctGapTexts(w, OpenGaps(gaps))
  {
    if gaps != [] {
      var front, g := gaps[..|gaps| - 1], gaps[|gaps| - 1];
      OpenGapsDistinct(w, front);
      forall h | h in OpenGaps(front) ensures w.gapText(h.id) != w.gapText(g.id) {
        assert h in front;
      }
    }
  }

  lemma {:induction false} RankingOrdered(w: Wording, pains: seq<Pain>, gaps: seq<Gap>, facts: seq<Fact>)
    requires DistinctGapTexts(w, gaps)
    ensures Sorted(Ranking(w, pains, gaps, facts))
    ensures multiset(Ranking(w, pains, gaps, facts)) == multiset(RankAll(w, OpenGaps(gaps), pains, facts))
    ensures |Ranking(w, pains, gaps, facts)| == |OpenGaps(gaps)|
  {
    OpenGapsDistinct(w, gaps);
    SortIsSorted(RankAll(w, OpenGaps(gaps), pains, facts));
  }

  lemma {:induction false} RankingElements(w: Wording, pains: seq<Pain>, gaps: seq<Gap>, facts: seq<Fact>)
    requires DistinctGapTexts(w, gaps)
    ensures forall r | r in Ranking(w, pains, gaps, facts) ::
              r.gap in gaps && !r.gap.answered && r == RankOne(w, r.gap, pains, facts)
    ensures forall g | g in gaps && !g.answered :: RankOne(w, g, pains, facts) in Ranking(w, pains, gaps, facts)
  {
    RankingOrdered(w, pains, gaps, facts);
    var all := RankAll(w, OpenGaps(gaps), pains, facts);
    forall r | r in Ranking(w, pains, gaps, facts)
      ensures r.gap in gaps && !r.gap.answered && r == RankOne(w, r.gap, pains, facts)
    {
      assert r in multiset(all);
      var i :| 0 <= i < |all| && all[i] == r;
      assert OpenGaps(gaps)[i] in OpenGaps(gaps);
    }
    forall g | g in gaps && !g.answered ensures RankOne(w, g, pains, facts) in Ranking(w, pains, gaps, facts) {
      var i :| 0 <= i < |OpenGaps(gaps)| && OpenGaps(gaps)[i] == g;
      assert all[i] in multiset(all);
      assert all[i] in multiset(Ranking(w, pains, gaps, facts));
    }
  }

  /** r is among the first n of the list, or all of them come before it. */
  ghost predicate ChosenOrLater(ranked: seq<Ranked>, n: nat, r: Ranked)
    requires n <= |ranked|
  {
    (exists k :: 0 <= k < n && ranked[k] == r) || (forall k | 0 <= k < n :: Before(ranked[k], r))
  }

  lemma SortedPrefix(ranked: seq<Ranked>, n: nat, r: Ranked)
    requires Sorted(ranked) && n <= |ranked| && r in ranked
    ensures ChosenOrLater(ranked, n, r)
  {
    var j :| 0 <= j < |ranked| && ranked[j] == r;
  }

  /**
    With every question localized, the suggestions are the first min(3, open) gaps of the ranking, in order, the
    first alone being ASK NOW, and every other open gap ranks after all of them.
   */
  lemma SelectionIsTopThree(
    w: Wording, reg: Registry, pains: seq<Pain>, gaps: seq<Gap>, lang: Lang, facts: seq<Fact>)
    requires DistinctGapTexts(w, gaps)
    requires forall g | g in gaps :: Renderable(w, reg, pains, lang, g.id)
    ensures var chosen, ranked := Suggestions(w, reg, pains, gaps, lang, facts), Ranking(w, pains, gaps, facts);
            && |chosen| == AtMost(|OpenGaps(gaps)|, MAX_SUGGESTIONS) <= |ranked|
            && (forall k | 0 <= k < |chosen| ::
                  chosen[k] == Suggestion(ranked[k].gap.id, if k == 0 then AskNow else FollowUp, ranked[k].priority))
            && (forall g | g in gaps && !g.answered ::
                  ChosenOrLater(ranked, |chosen|, RankOne(w, g, pains, facts)))
  {
    var ranked := Ranking(w, pains, gaps, facts);
    RankingOrdered(w, pains, gaps, facts);
    RankingElements(w, pains, gaps, facts);
    var n := AtMost(|ranked|, MAX_SUGGESTIONS);
    SuggestPrefix(w, reg, pains, lang, ranked, n);
    forall g | g in gaps && !g.answered ensures ChosenOrLater(ranked, n, RankOne(w, g, pains, facts)) {
      SortedPrefix(ranked, n, RankOne(w, g, pains, facts));
    }
  }

  lemma {:induction false} SuggestPrefix(
    w: Wording, reg: Registry, pains: seq<Pain>, lang: Lang, ranked: seq<Ranked>, n: nat)
    requires n <= |ranked| && forall k | 0 <= k < n :: Renderable(w, reg, pains, lang, ranked[k].gap.id)
    ensures var chosen := Suggest(w, reg, pains, lang, ranked, n);
            |chosen| == n && forall k | 0 <= k < n ::
              chosen[k] == Suggestion(ranked[k].gap.id, if k == 0 then AskNow else FollowUp, ranked[k].priority)
  {
    if n > 0 {
      SuggestPrefix(w, reg, pains, lang, ranked, n - 1);
    }
  }

  /** The order of the gap table does not matter. */
  lemma {:induction false} SelectionIgnoresGapOrder(
    w: Wording, reg: Registry, pains: seq<Pain>, a: seq<Gap>, b: seq<Gap>, lang: Lang, facts: seq<Fact>)
    requires DistinctGapTexts(w, a) && DistinctGapTexts(w, b) && multiset(a) == multiset(b)
    ensures Suggestions(w, reg, pains, a, lang, facts) == Suggestions(w, reg, pains, b, lang, facts)
  {
    RankingIgnoresGapOrder(w, pains, a, b, facts);
  }

  lemma {:induction false} SortDetermined(x: seq<Ranked>, y: seq<Ranked>)
    requires DistinctTexts(x) && DistinctTexts(y) && multiset(x) == multiset(y)
    ensures Sort(x) == Sort(y)
  {
    SortIsSorted(x);
    SortIsSorted(y);
    SortedUnique(Sort(x), Sort(y));
  }

  lemma {:induction false} RankingIgnoresGapOrder(
    w: Wording, pains: seq<Pain>, a: seq<Gap>, b: seq<Gap>, facts: seq<Fact>)
    requires DistinctGapTexts(w, a) && DistinctGapTexts(w, b) && multiset(a) == multiset(b)
    ensures Ranking(w, pains, a, facts) == Ranking(w, pains, b, facts)
  {
    var x, y := RankAll(w, OpenGaps(a), pains, facts), RankAll(w, OpenGaps(b), pains, facts);
    assert DistinctTexts(x) by {
      OpenGapsDistinct(w, a);
    }
    assert DistinctTexts(y) by {
      OpenGapsDistinct(w, b);
    }
    assert multiset(x) == multiset(y) by {
      OpenGapsSameMultiset(a, b);
      RankAllMultiset(w, OpenGaps(a), OpenGaps(b), pains, facts);
    }
    SortDetermined(x, y);
  }

  lemma {:induction false} OpenGapsSameMultiset(a: seq<Gap>, b: seq<Gap>)
    requires multiset(a) == multiset(b)
    ensures multiset(OpenGaps(a)) == multiset(OpenGaps(b))
  {
    OpenGapsMultiset(a);
    OpenGapsMultiset(b);
  }

  lemma {:induction false} OpenGapsMultiset(gaps: seq<Gap>)
    ensures forall g :: multiset(OpenGaps(gaps))[g] == if g.answered then 0 else multiset(gaps)[g]
  {
    if gaps != [] {
      var front, g := gaps[..|gaps| - 1], gaps[|gaps| - 1];
      OpenGapsMultiset(front);
      assert gaps == front + [g];
    }
  }

  lemma {:induction false} RankAllMultiset(w: Wording, a: seq<Gap>, b: seq<Gap>, pains: seq<Pain>, facts: seq<Fact>)
    requires multiset(a) == multiset(b)
    ensures multiset(RankAll(w, a, pains, facts)) == multiset(RankAll(w, b, pains, facts))
  {
    var f := (g: Gap) => RankOne(w, g, pains, facts);
    assert RankAll(w, a, pains, facts) == Mapped(a, f);
    assert RankAll(w, b, pains, facts) == Mapped(b, f);
    MappedMultiset(a, b, f);
  }

  /** The adjustment is per problem, so the gaps of one problem keep their template order. */
  lemma TemplateOrderKept(w: Wording, g: Gap, h: Gap, pains: seq<Pain>, facts: seq<Fact>)
    requires g.id.pain == h.id.pain && g.basePriority < h.basePriority
    ensures Before(RankOne(w, g, pains, facts), RankOne(w, h, pains, facts))
  {
  }
}
