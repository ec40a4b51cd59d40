/** Issue drafts (services/issue_drafts.py): a second reader of lineages and active facts, next to the gap table. */
module Drafts {
  import opened Contracts
  import opened Sequences
  import opened Templates
  import opened Reducer
  import opened Identity
  import opened GapLaws
  import opened Engine
  import opened Invariants
  import opened Runs

  datatype Draft = Draft(
    values: map<Slot, string>, missing: seq<Slot>, ready: bool, questions: seq<Gap>, history: seq<Fact>)

  /** active_by_slot: the last active fact of a slot wins. */
  function ActiveBySlot(facts: seq<Fact>, lineage: set<PainId>): map<Slot, string> {
    if facts == [] then map[]
    else
      var front, f := ActiveBySlot(facts[..|facts| - 1], lineage), facts[|facts| - 1];
      if f.pain in lineage && f.status == Active then front[f.slot := f.value] else front
  }

  function History(facts: seq<Fact>, lineage: set<PainId>): seq<Fact> {
    if facts == [] then []
    else
      var front, f := History(facts[..|facts| - 1], lineage), facts[|facts| - 1];
      if f.pain in lineage && f.status != Active then front + [f] else front
  }

  /** The history holds exactly the facts of the lineage that are no longer active, as often as the log does. */
  lemma {:induction false} HistoryIsInactive(facts: seq<Fact>, lineage: set<PainId>)
    ensures forall f :: multiset(History(facts, lineage))[f] ==
                        if f.pain in lineage && f.status != Active then multiset(facts)[f] else 0
  {
    if facts != [] {
      var front, f := facts[..|facts| - 1], facts[|facts| - 1];
      HistoryIsInactive(front, lineage);
      assert facts == front + [f];
    }
  }

  function Missing(required: seq<Slot>, values: map<Slot, string>): (r: seq<Slot>)
    ensures forall s :: s in r <==> s in required && s !in values
  {
    if required == [] then []
    else
      var front, s := Missing(required[..|required| - 1], values), required[|required| - 1];
      assert required == required[..|required| - 1] + [s];
      if s in values then front else front + [s]
  }

  /** Missing slots stand in the order in which the template requires them. */
  lemma {:induction false} MissingInOrder(required: seq<Slot>, values: map<Slot, string>, i: nat, j: nat)
    requires i < j < |Missing(required, values)|
    ensures var missing := Missing(required, values);
            exists a, b :: 0 <= a < b < |required| && required[a] == missing[i] && required[b] == missing[j]
  {
    var front, last := required[..|required| - 1], |required| - 1;
    var r := Missing(front, values);
    if j < |r| {
      MissingInOrder(front, values, i, j);
      var a, b :| 0 <= a < b < |front| && front[a] == r[i] && front[b] == r[j];
      assert required[a] == r[i] && required[b] == r[j];
    } else {
      assert r[i] in r && r[i] in front;
      var a :| 0 <= a < |front| && front[a] == r[i];
      assert required[a] == r[i] && a < last && required[last] == Missing(required, values)[j];
    }
  }

  /** The open gaps of one problem. */
  function OpenOf(gaps: seq<Gap>, pain: PainId): (r: seq<Gap>)
    ensures forall g :: g in r <==> g in gaps && g.id.pain == pain && !g.answered
  {
    if gaps == [] then []
    else
      var front, g := OpenOf(gaps[..|gaps| - 1], pain), gaps[|gaps| - 1];
      assert gaps == gaps[..|gaps| - 1] + [g];
      if g.id.pain == pain && !g.answered then front + [g] else front
  }

  function InsertByPriority(s: seq<Gap>, g: Gap): (r: seq<Gap>)
    ensures forall x :: x in r <==> x in s || x == g
    ensures |r| == |s| + 1
  {
    if s == [] || s[|s| - 1].basePriority <= g.basePriority then s + [g]
    else
      assert s == s[..|s| - 1] + [s[|s| - 1]];
      InsertByPriority(s[..|s| - 1], g) + [s[|s| - 1]]
  }

  function SortByPriority(s: seq<Gap>): (r: seq<Gap>)
    ensures forall x :: x in r <==> x in s
    ensures |r| == |s|
  {
    if s == [] then []
    else
      assert s == s[..|s| - 1] + [s[|s| - 1]];
      InsertByPriority(SortByPriority(s[..|s| - 1]), s[|s| - 1])
  }

  predicate ByPriority(s: seq<Gap>) {
    forall a, b | 0 <= a < b < |s| :: s[a].basePriority <= s[b].basePriority
  }

  lemma {:induction false} InsertKeepsOrder(s: seq<Gap>, g: Gap)
    requires ByPriority(s)
    ensures ByPriority(InsertByPriority(s, g))
  {
    if s != [] && s[|s| - 1].basePriority > g.basePriority {
      var front, last := s[..|s| - 1], s[|s| - 1];
      InsertKeepsOrder(front, g);
      forall x | x in InsertByPriority(front, g) ensures x.basePriority <= last.basePriority {
        assert x == g || x in front;
      }
    }
  }

  lemma {:induction false} InsertKeepsAll(s: seq<Gap>, g: Gap)
    ensures multiset(InsertByPriority(s, g)) == multiset(s) + multiset{g}
  {
    if s != [] && s[|s| - 1].basePriority > g.basePriority {
      InsertKeepsAll(s[..|s| - 1], g);
      assert s == s[..|s| - 1] + [s[|s| - 1]];
    }
  }

  /** Questions are listed by template priority, none lost and none repeated. */
  lemma {:induction false} QuestionsInTemplateOrder(s: seq<Gap>)
    ensures ByPriority(SortByPriority(s)) && multiset(SortByPriority(s)) == multiset(s)
  {
    if s != [] {
      var front, last := s[..|s| - 1], s[|s| - 1];
      assert s == front + [last];
      QuestionsInTemplateOrder(front);
      InsertKeepsOrder(SortByPriority(front), last);
      InsertKeepsAll(SortByPriority(front), last);
    }
  }

  function BuildDraft(reg: Registry, st: MeetingState, id: PainId): Option<Draft> {
    var i := IndexOf(st.pains, id);
    if i.None? || st.pains[i.value].category !in reg then None
    else
      var lineage := Lineage(st.pains, id);
      var values := ActiveBySlot(st.facts, lineage);
      var missing := Missing(reg[st.pains[i.value].category].required, values);
      Some(Draft(values, missing, missing == [], SortByPriority(OpenOf(st.gaps, id)), History(st.facts, lineage)))
  }

  lemma {:induction false} ActiveBySlotKeys(facts: seq<Fact>, lineage: set<PainId>, slot: Slot)
    ensures slot in ActiveBySlot(facts, lineage) <==> exists f :: f in facts && Holds(f, lineage, slot)
  {
    if facts != [] {
      var front, f := facts[..|facts| - 1], facts[|facts| - 1];
      assert facts == front + [f];
      ActiveBySlotKeys(front, lineage, slot);
      if x :| x in front && Holds(x, lineage, slot) {
        assert x in facts;
      }
      if Holds(f, lineage, slot) {
        assert f in facts;
      }
    }
  }

  lemma {:induction false} QuestionsAreOpenGaps(st: MeetingState, id: GapId)
    requires DistinctGaps(st.gaps)
    ensures (exists g :: g in SortByPriority(OpenOf(st.gaps, id.pain)) && g.id == id) <==> OpenAt(st, id)
  {
    var found := PriorOf(st.gaps, id);
    forall g | g in st.gaps && g.id == id ensures found == Some(g) {
      var a :| 0 <= a < |st.gaps| && st.gaps[a] == g;
      var b :| 0 <= b < |st.gaps| && st.gaps[b] == found.value;
      assert a == b;
    }
  }

  /**
    Draft and gap table agree in every reachable state: a required slot of an unmerged problem is listed missing
    exactly when its gap is open, the questions are exactly the open gaps, and a ready draft asks nothing required.
   */
  lemma {:induction false} DraftAgreesWithGaps(cfg: Config, ops: seq<Op>, i: nat)
    requires WellFormed(cfg.registry) && i < |Run(cfg, ops).state.pains|
    requires Asked(cfg.registry, Run(cfg, ops).state.pains[i])
    ensures var st := Run(cfg, ops).state;
            var id, required := st.pains[i].id, cfg.registry[st.pains[i].category].required;
            var draft := BuildDraft(cfg.registry, st, id);
            && draft.Some?
            && (forall s | s in required :: s in draft.value.missing <==> OpenAt(st, GapId(id, s)))
            && (draft.value.ready <==> forall s | s in required :: AnsweredAt(st, GapId(id, s)))
            && (forall s :: (exists g :: g in draft.value.questions && g.id == GapId(id, s)) <==>
                OpenAt(st, GapId(id, s)))
            && (draft.value.ready ==> forall g | g in draft.value.questions :: g.id.slot !in required)
  {
    Reachable(cfg, ops);
    var st := Run(cfg, ops).state;
    var id, required := st.pains[i].id, cfg.registry[st.pains[i].category].required;
    assert IndexOf(st.pains, id) == Some(i);
    var draft := BuildDraft(cfg.registry, st, id).value;
    forall s | s in required
      ensures s in draft.missing <==> OpenAt(st, GapId(id, s))
      ensures s !in draft.missing <==> AnsweredAt(st, GapId(id, s))
    {
      RequiredSlotStatus(cfg, ops, i, s);
    }
    NoElements(draft.missing);
    forall s ensures (exists g :: g in draft.questions && g.id == GapId(id, s)) <==> OpenAt(st, GapId(id, s)) {
      QuestionsAreOpenGaps(st, GapId(id, s));
    }
    forall g | g in draft.questions && draft.ready ensures g.id.slot !in required {
      assert g.id == GapId(id, g.id.slot);
      assert OpenAt(st, GapId(id, g.id.slot));
    }
  }

  lemma {:induction false} RequiredSlotStatus(cfg: Config, ops: seq<Op>, i: nat, s: Slot)
    requires WellFormed(cfg.registry) && i < |Run(cfg, ops).state.pains|
    requires Asked(cfg.registry, Run(cfg, ops).state.pains[i])
    requires s in cfg.registry[Run(cfg, ops).state.pains[i].category].required
    ensures var st := Run(cfg, ops).state;
            var id := GapId(st.pains[i].id, s);
            && (s in ActiveBySlot(st.facts, Lineage(st.pains, id.pain)) <==> AnsweredAt(st, id))
            && (OpenAt(st, id) <==> !AnsweredAt(st, id))
  {
    var st := Run(cfg, ops).state;
    var id := GapId(st.pains[i].id, s);
    GapsAreCurrent(cfg, ops, id);
    ActiveBySlotKeys(st.facts, Lineage(st.pains, id.pain), s);
    assert Tracked(cfg.registry, st.pains, id);
  }
}
