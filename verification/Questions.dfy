/** The suggestions published with every reachable state are the top of its own gap table. */
module Questions {
  import opened Contracts
  import opened Templates
  import opened Reducer
  import opened Selection
  import opened Engine
  import opened Invariants
  import opened Runs

  ghost predicate DistinctNames(w: Wording) {
    forall a, b | a != b :: w.gapText(a) != w.gapText(b)
  }

  predicate Localized(w: Wording, reg: Registry, lang: Lang) {
    forall c | c in reg :: forall s | s in reg[c].slots :: w.localized(lang, c, s)
  }

  ghost predicate Published(cfg: Config, st: MeetingState, lang: Lang) {
    st.suggestions == Suggestions(cfg.wording, cfg.registry, st.pains, st.gaps, lang, st.facts)
  }

  lemma {:induction false} StepPublishesSuggestions(cfg: Config, m: Memory, op: Op) returns (lang: Lang)
    ensures Step(cfg, m, op) == m || Published(cfg, Step(cfg, m, op).state, lang)
  {
    match op
    case HearOp(e) => lang := e.lang;
    case DecideOp(_, _, _) => lang := LanguageOf(m.state.transcript);
    case ConfirmOp(hint) =>
      lang := if HintAccepted(cfg, m, hint) then LatestCited(m.state.transcript, hint.evidence).lang else En;
  }

  lemma {:induction false} AlwaysPublished(cfg: Config, ops: seq<Op>) returns (lang: Lang)
    ensures Published(cfg, Run(cfg, ops).state, lang)
  {
    if ops == [] {
      lang := En;
    } else {
      lang := AlwaysPublished(cfg, ops[..|ops| - 1]);
      var next := StepPublishesSuggestions(cfg, Run(cfg, ops[..|ops| - 1]), ops[|ops| - 1]);
      if Run(cfg, ops) != Run(cfg, ops[..|ops| - 1]) {
        lang := next;
      }
    }
  }

  /** Every gap of a reachable state can be asked in a language for which all template questions exist. */
  lemma {:induction false} GapsRenderable(cfg: Config, ops: seq<Op>, lang: Lang)
    requires WellFormed(cfg.registry) && Localized(cfg.wording, cfg.registry, lang)
    ensures var st := Run(cfg, ops).state;
            forall g | g in st.gaps :: Renderable(cfg.wording, cfg.registry, st.pains, lang, g.id)
  {
    Reachable(cfg, ops);
    var st := Run(cfg, ops).state;
    forall g | g in st.gaps ensures Renderable(cfg.wording, cfg.registry, st.pains, lang, g.id) {
      assert GapMatches(cfg.registry, st, g.id);
      var i :| 0 <= i < |st.pains| && st.pains[i].id == g.id.pain && Asked(cfg.registry, st.pains[i]) &&
               g.id.slot in cfg.registry[st.pains[i].category].slots;
    }
  }

  /**
    When every question exists in every language, then in every reachable state the published suggestions are exactly
    the first min(3, open) gaps of the strict ranking: at most one ASK NOW, which is the least, and two FOLLOW UP.
   */
  lemma {:induction false} PublishedTopThree(cfg: Config, ops: seq<Op>)
    requires WellFormed(cfg.registry) && DistinctNames(cfg.wording)
    requires forall lang :: Localized(cfg.wording, cfg.registry, lang)
    ensures var st := Run(cfg, ops).state;
            var ranked := Ranking(cfg.wording, st.pains, st.gaps, st.facts);
            && Sorted(ranked)
            && |st.suggestions| == AtMost(|OpenGaps(st.gaps)|, MAX_SUGGESTIONS) <= |ranked|
            && (forall k | 0 <= k < |st.suggestions| ::
                  st.suggestions[k] ==
                  Suggestion(ranked[k].gap.id, if k == 0 then AskNow else FollowUp, ranked[k].priority))
            && (forall g | g in st.gaps && !g.answered ::
                  ChosenOrLater(ranked, |st.suggestions|, RankOne(cfg.wording, g, st.pains, st.facts)))
  {
    Reachable(cfg, ops);
    var lang := AlwaysPublished(cfg, ops);
    GapsRenderable(cfg, ops, lang);
    var st := Run(cfg, ops).state;
    RankingOrdered(cfg.wording, st.pains, st.gaps, st.facts);
    SelectionIsTopThree(cfg.wording, cfg.registry, st.pains, st.gaps, lang, st.facts);
  }
}
