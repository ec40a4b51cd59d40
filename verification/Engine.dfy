/** The meeting engine (services/meeting_engine.py): the fold of events, decisions and hints into one state. */
module Engine {
  import opened Contracts
  import opened Sequences
  import opened Templates
  import opened Analyzer
  import opened Reducer
  import opened Facts
  import opened Selection

  const CONTEXT_EVENTS := 4
  const CONTEXT_SECONDS := 30.0

  datatype Config = Config(
    meetingId: string, registry: Registry, rules: Rules, wording: Wording, allowPromotion: bool)

  /** The whole mutable part of an engine. */
  datatype Memory = Memory(state: MeetingState, seen: set<string>)

  const FRESH := Memory(EMPTY_STATE, {})

  /* ---------- backfill ---------- */

  /** The events of the window that count as context of its last event. */
  function ContextUpTo(window: seq<Event>, n: nat): seq<Event>
    requires n <= |window|
  {
    if n == 0 then []
    else
      var front, current := ContextUpTo(window, n - 1), window[|window| - 1];
      if n == |window| || current.tsStart - window[n - 1].tsEnd <= CONTEXT_SECONDS
      then front + [window[n - 1]] else front
  }

  function ContextOfLast(transcript: seq<Event>): seq<Event> {
    var window := LastN(transcript, CONTEXT_EVENTS);
    ContextUpTo(window, |window|)
  }

  /** Where the backfill would put a fact: by current key, or to the only open problem of its category. */
  function ReplayTarget(pains: seq<Pain>, pf: Proposed): (r: Option<nat>)
    ensures r.Some? ==> r.value < |pains| && pains[r.value].category == pf.category && pains[r.value].open
  {
    match pf.key
    case None => SoleIndex(pains, (p: Pain) => p.category == pf.category && p.open)
    case Some(k) => FirstIndex(pains, (p: Pain) => p.category == pf.category && p.open && p.key == k)
  }

  function Relevant(pains: seq<Pain>, newIds: set<PainId>, pfs: seq<Proposed>): seq<Proposed> {
    if pfs == [] then []
    else
      var front, pf := Relevant(pains, newIds, pfs[..|pfs| - 1]), pfs[|pfs| - 1];
      var target := ReplayTarget(pains, pf);
      if target.None? || pains[target.value].id !in newIds then front
      else front + [pf.(key := Some(pains[target.value].key))]
  }

  function ReplayOne(rules: Rules, b: Board, newIds: set<PainId>, e: Event): Board {
    var relevant := Relevant(b.pains, newIds, Analyze(rules, e).facts);
    if relevant == [] then b else ReduceAnalysis(b, e.seqNo, e.id, AnalysisResult([], relevant), true)
  }

  function Replay(rules: Rules, b: Board, newIds: set<PainId>, events: seq<Event>): Board {
    if events == [] then b
    else ReplayOne(rules, Replay(rules, b, newIds, events[..|events| - 1]), newIds, events[|events| - 1])
  }

  function Backfill(rules: Rules, transcript: seq<Event>, b: Board, newIds: set<PainId>): Board {
    Replay(rules, b.(facts := Restrict(b.facts, newIds, false)), newIds, ContextOfLast(transcript))
  }

  /* ---------- operations ---------- */

  function Ambiguous(cfg: Config, pains: seq<Pain>, e: Event): set<(Category, string)> {
    if cfg.allowPromotion then AmbiguousKeys(pains, Analyze(cfg.rules, e).pains, e.seqNo) else {}
  }

  /** Problems created by this event whose identity was not ambiguous. */
  function NewIds(prior: seq<Pain>, pains: seq<Pain>, seqNo: int, ambiguous: set<(Category, string)>): set<PainId> {
    var priorIds := set p | p in prior :: p.id;
    set p | p in pains && p.id !in priorIds && p.createdSeq == seqNo && (p.category, p.key) !in ambiguous :: p.id
  }

  /** Problems and facts after an accepted event. */
  function HearBoard(cfg: Config, st: MeetingState, e: Event): Board {
    var b := ReduceAnalysis(Board(st.pains, st.facts), e.seqNo, e.id, Analyze(cfg.rules, e), cfg.allowPromotion);
    var newIds := NewIds(st.pains, b.pains, e.seqNo, Ambiguous(cfg, st.pains, e));
    if newIds == {} then b else Backfill(cfg.rules, st.transcript + [e], b, newIds)
  }

  /** The derived tables for new problems and facts. */
  function Publish(cfg: Config, st: MeetingState, pains: seq<Pain>, facts: seq<Fact>, lang: Lang): MeetingState {
    var gaps := Gaps(cfg.registry, pains, facts, st.gaps);
    st.(version := st.version + 1, pains := pains, facts := facts, gaps := gaps,
        suggestions := Suggestions(cfg.wording, cfg.registry, pains, gaps, lang, facts))
  }

  predicate Accepts(m: Memory, e: Event) {
    e.isFinal && e.id !in m.seen
  }

  function Hear(cfg: Config, m: Memory, e: Event): Memory {
    if !Accepts(m, e) then m
    else
      var b := HearBoard(cfg, m.state, e);
      var st := m.state.(transcript := m.state.transcript + [e], lastSeq := e.seqNo);
      Memory(Publish(cfg, st, b.pains, b.facts, e.lang), m.seen + {e.id})
  }

  function LanguageOf(transcript: seq<Event>): Lang {
    if transcript == [] then En else transcript[|transcript| - 1].lang
  }

  function DecisionOf(st: MeetingState, action: Action, ids: seq<PainId>, survivor: Option<PainId>): Decision {
    Decision(action, (set id | id in ids), survivor, st.version)
  }

  function Decide(cfg: Config, m: Memory, action: Action, ids: seq<PainId>, survivor: Option<PainId>)
    : (r: Result<Memory, DecisionError>)
    ensures r.Ok? ==> r.value.state.decisions != []
  {
    var d := DecisionOf(m.state, action, ids, survivor);
    if |d.pains| != 2 then Err(NotTwoDistinct)
    else if action.OtherAction? then Err(UnsupportedAction)
    else
      match ApplyDecision(m.state.pains, m.state.decisions, d)
      case Err(e) => Err(e)
      case Ok(after) =>
        var st := m.state.(decisions := after.decisions);
        Ok(m.(state := Publish(cfg, st, after.pains, st.facts, LanguageOf(st.transcript))))
  }

  datatype HintFact = HintFact(slot: Slot, value: string, kind: Kind)
  datatype Hint = Hint(id: string, session: string, category: Category, evidence: seq<string>, facts: seq<HintFact>)
  datatype HintError = OtherSession | EvidenceUnavailable

  function EventById(transcript: seq<Event>, id: string): (r: Option<Event>)
    ensures r.Some? ==> r.value in transcript && r.value.id == id
    ensures r.None? ==> forall e | e in transcript :: e.id != id
  {
    if transcript == [] then None
    else if transcript[|transcript| - 1].id == id then Some(transcript[|transcript| - 1])
    else EventById(transcript[..|transcript| - 1], id)
  }

  predicate Supported(transcript: seq<Event>, ids: seq<string>) {
    ids != [] && forall id | id in ids :: EventById(transcript, id).Some?
  }

  /** The cited event with the greatest sequence number, the first cited one on ties. */
  function LatestCited(transcript: seq<Event>, ids: seq<string>): (e: Event)
    requires Supported(transcript, ids)
    ensures e in transcript && e.id in ids
  {
    var last := EventById(transcript, ids[|ids| - 1]).value;
    if |ids| == 1 then last
    else
      var front := LatestCited(transcript, ids[..|ids| - 1]);
      if last.seqNo > front.seqNo then last else front
  }

  function HintFacts(hint: Hint, key: Option<string>): (r: seq<Proposed>)
    ensures |r| == |hint.facts|
  {
    seq(|hint.facts|, i requires 0 <= i < |hint.facts| =>
      Proposed(hint.category, hint.facts[i].slot, hint.facts[i].value, key, hint.facts[i].kind, Supersede,
               SemanticConfirmed))
  }

  function HintResult(cfg: Config, hint: Hint, e: Event): AnalysisResult
    requires hint.evidence != []
  {
    var identity := cfg.rules.identify(hint.category, e, HintFacts(hint, None));
    AnalysisResult([Detected(hint.category, hint.evidence[0], identity.key, identity.anchored)],
                   HintFacts(hint, Some(identity.key)))
  }

  predicate HintAccepted(cfg: Config, m: Memory, hint: Hint) {
    hint.session == cfg.meetingId && hint.id !in m.state.confirmedHints && Supported(m.state.transcript, hint.evidence)
  }

  function Confirm(cfg: Config, m: Memory, hint: Hint): Result<Memory, HintError> {
    if hint.session != cfg.meetingId then Err(OtherSession)
    else if hint.id in m.state.confirmedHints then Ok(m)
    else if !Supported(m.state.transcript, hint.evidence) then Err(EvidenceUnavailable)
    else
      var e := LatestCited(m.state.transcript, hint.evidence);
      var b := ReduceAnalysis(Board(m.state.pains, m.state.facts), e.seqNo, e.id, HintResult(cfg, hint, e), true);
      var st := m.state.(confirmedHints := m.state.confirmedHints + [hint.id]);
      Ok(m.(state := Publish(cfg, st, b.pains, b.facts, e.lang)))
  }

  /* ---------- the engine object ---------- */

  class MeetingEngine {
    const cfg: Config
    var state: MeetingState
    var seen: set<string>

    function Contents(): Memory
      reads this
    {
      Memory(state, seen)
    }

    constructor (cfg: Config)
      ensures this.cfg == cfg && Contents() == FRESH
    {
      this.cfg, state, seen := cfg, EMPTY_STATE, {};
    }

    /** Recovery from a stored state; promotion is always enabled again. */
    constructor FromState(cfg: Config, stored: MeetingState)
      ensures this.cfg == cfg.(allowPromotion := true)
      ensures Contents() == Memory(stored, (set e | e in stored.transcript :: e.id))
    {
      this.cfg, state, seen := cfg.(allowPromotion := true), stored, (set e | e in stored.transcript :: e.id);
    }

    method Apply(e: Event) returns (advanced: bool)
      modifies this
      ensures advanced == old(Accepts(Contents(), e))
      ensures Contents() == Hear(cfg, old(Contents()), e)
    {
      if !e.isFinal || e.id in seen {
        return false;
      }
      seen := seen + {e.id};
      var b := ReduceEvent(e);
      state := Recompute(state.(transcript := state.transcript + [e], lastSeq := e.seqNo), b.pains, b.facts, e.lang);
      return true;
    }

    method Recompute(st: MeetingState, pains: seq<Pain>, facts: seq<Fact>, lang: Lang) returns (after: MeetingState)
      ensures after == Publish(cfg, st, pains, facts, lang)
    {
      var gaps := ComputeGaps(cfg.registry, pains, facts, st.gaps);
      var suggestions := SelectSuggestions(cfg.wording, cfg.registry, pains, gaps, lang, facts);
      after := st.(version := st.version + 1, pains := pains, facts := facts, gaps := gaps, suggestions := suggestions);
    }

    /** The problems and facts of an accepted event, before anything is published. */
    method ReduceEvent(e: Event) returns (b: Board)
      ensures b == HearBoard(cfg, state, e)
    {
      var result := Analyze(cfg.rules, e);
      var ambiguous := {};
      if cfg.allowPromotion {
        ambiguous := FindAmbiguousKeys(state.pains, result.pains, e.seqNo);
      }
      b := ApplyAnalysis(Board(state.pains, state.facts), e.seqNo, e.id, result, cfg.allowPromotion);
      var newIds := NewIds(state.pains, b.pains, e.seqNo, ambiguous);
      if newIds != {} {
        b := BackfillNewPainContext(state.transcript + [e], b, newIds);
      }
    }

    method BackfillNewPainContext(transcript: seq<Event>, b: Board, newIds: set<PainId>) returns (after: Board)
      requires transcript != []
      ensures after == Backfill(cfg.rules, transcript, b, newIds)
    {
      after := Board(b.pains, Restrict(b.facts, newIds, false));
      ghost var start := after;
      var context := ContextOfLast(transcript);
      for i := 0 to |context|
        invariant after == Replay(cfg.rules, start, newIds, context[..i])
      {
        var relevant := RelevantFacts(after.pains, newIds, Analyze(cfg.rules, context[i]).facts);
        assert context[..i + 1][..i] == context[..i];
        if relevant != [] {
          after := ApplyAnalysis(after, context[i].seqNo, context[i].id, AnalysisResult([], relevant), true);
        }
      }
      assert context[..|context|] == context;
    }

    method RelevantFacts(pains: seq<Pain>, newIds: set<PainId>, proposed: seq<Proposed>)
      returns (relevant: seq<Proposed>)
      ensures relevant == Relevant(pains, newIds, proposed)
    {
      relevant := [];
      for k := 0 to |proposed|
        invariant relevant == Relevant(pains, newIds, proposed[..k])
      {
        assert proposed[..k + 1][..k] == proposed[..k];
        var target := ReplayTarget(pains, proposed[k]);
        if target.Some? && pains[target.value].id in newIds {
          relevant := relevant + [proposed[k].(key := Some(pains[target.value].key))];
        }
      }
      assert proposed[..|proposed|] == proposed;
    }

    /** The returned decision is the last recorded one, whether or not this call added it. */
    method DecideIdentity(action: Action, ids: seq<PainId>, survivor: Option<PainId>)
      returns (r: Result<Decision, DecisionError>)
      modifies this
      ensures match Decide(cfg, old(Contents()), action, ids, survivor)
              case Ok(after) => Contents() == after && r == Ok(state.decisions[|state.decisions| - 1])
              case Err(error) => Contents() == old(Contents()) && r == Err(error)
    {
      var d := DecisionOf(state, action, ids, survivor);
      if |d.pains| != 2 {
        return Err(NotTwoDistinct);
      }
      if action.OtherAction? {
        return Err(UnsupportedAction);
      }
      match ApplyDecision(state.pains, state.decisions, d) {
        case Err(error) =>
          return Err(error);
        case Ok(after) =>
          state := Recompute(state.(decisions := after.decisions), after.pains, state.facts,
                             LanguageOf(state.transcript));
          return Ok(after.decisions[|after.decisions| - 1]);
      }
    }

    method ConfirmSemanticHint(hint: Hint) returns (r: Result<bool, HintError>)
      modifies this
      ensures match Confirm(cfg, old(Contents()), hint)
              case Ok(after) => Contents() == after && r == Ok(old(HintAccepted(cfg, Contents(), hint)))
              case Err(error) => Contents() == old(Contents()) && r == Err(error)
    {
      if hint.session != cfg.meetingId {
        return Err(OtherSession);
      }
      if hint.id in state.confirmedHints {
        return Ok(false);
      }
      if !Supported(state.transcript, hint.evidence) {
        return Err(EvidenceUnavailable);
      }
      var e := LatestCited(state.transcript, hint.evidence);
      var b := ApplyAnalysis(Board(state.pains, state.facts), e.seqNo, e.id, HintResult(cfg, hint, e), true);
      state := Recompute(state.(confirmedHints := state.confirmedHints + [hint.id]), b.pains, b.facts, e.lang);
      return Ok(true);
    }
  }
}
