/** An owner named without a key reaches two problems, or none, depending on when it is named. */
module OwnerWitnesses {
  import opened Contracts
  import opened Sequences
  import opened Templates
  import opened Analyzer
  import opened Reducer
  import opened Engine
  import opened HearLaws
  import opened Invariants
  import opened Runs
  import opened Routing
  import opened Meetings

  function WhoOwns(c: Category): Proposed {
    Proposed(c, Owner, "Kim", None, Evidence, Supersede, Deterministic)
  }

  /** An event either names an owner for two categories, or states a problem of each. */
  const TWO_RULES := Rules(
    (e: Event) => if e.text == "owner" then RawAnalysis([], [WhoOwns(DataMismatch), WhoOwns(ManualWork)])
                  else RawAnalysis([DataMismatch, ManualWork], []),
    (c: Category, e: Event, pfs: seq<Proposed>) => ProblemIdentity(e.id, true))

  const TWO := Config("meeting", STANDARD, TWO_RULES, WORDING, true)

  function OwnerNamed(n: nat): Event {
    Event("owner", n, En, 0.0, 0.0, true, "owner")
  }

  function BothStated(n: nat): Event {
    Event("both", n, En, 10.0, 10.0, true, "")
  }

  function BothProblems(n: nat): seq<Pain> {
    [NewPain(Detected(DataMismatch, "both", "both", true), n), NewPain(Detected(ManualWork, "both", "both", true), n)]
  }

  lemma OwnerAnalysis(n: nat)
    ensures Analyze(TWO_RULES, OwnerNamed(n)) == AnalysisResult([], [WhoOwns(DataMismatch), WhoOwns(ManualWork)])
  {
    var e, raw := OwnerNamed(n), TWO_RULES.extract(OwnerNamed(n));
    assert Identified(TWO_RULES, e, raw, 0) == [];
  }

  lemma BothAnalysis(n: nat)
    ensures Analyze(TWO_RULES, BothStated(n)) ==
            AnalysisResult(
              [Detected(DataMismatch, "both", "both", true), Detected(ManualWork, "both", "both", true)], [])
  {
    var e, raw := BothStated(n), TWO_RULES.extract(BothStated(n));
    assert |""| != |"owner"|;
    assert raw == RawAnalysis([DataMismatch, ManualWork], []);
    assert Identified(TWO_RULES, e, raw, 0) == [];
    assert Identified(TWO_RULES, e, raw, 1) == [Detected(DataMismatch, "both", "both", true)];
    assert KeyOf(Identified(TWO_RULES, e, raw, 1), ManualWork).None?;
    assert Identified(TWO_RULES, e, raw, 2) ==
           [Detected(DataMismatch, "both", "both", true), Detected(ManualWork, "both", "both", true)];
  }

  lemma {:induction false} TwoReachable(ops: seq<Op>)
    ensures Inv(TWO, Run(TWO, ops))
  {
    StandardWellFormed();
    Reachable(TWO, ops);
  }

  lemma {:induction false} HeardAlone(cfg: Config, e: Event)
    requires e.isFinal
    ensures var st := Run(cfg, [HearOp(e)]).state;
            st.transcript == [e] && st.pains == PainsAfter(cfg, EMPTY_STATE, e)
  {
    assert [HearOp(e)][..0] == [];
    assert Run(cfg, []) == FRESH;
    FreshInv(cfg);
    HearNormalForm(cfg, EMPTY_STATE, e);
  }

  lemma TwoDetected(n: nat, first: Detected, second: Detected)
    requires first.category != second.category
    ensures DetectAll([], n, [first, second], true).pains == [NewPain(first, n), NewPain(second, n)]
  {
    var d := Detection([NewPain(first, n)], map[(first.category, first.key) := first.key]);
    assert [first, second][..1] == [first] && [first][..0] == [];
    assert DetectAll([], n, [], true) == Detection([], map[]);
    assert DetectAll([], n, [first], true) == d;
    assert FindOwner(d.pains, second.category, second.key).None?;
    assert PromotionTarget(d.pains, second.category, n).None?;
  }

  lemma {:induction false} BothDetected(st: MeetingState, n: nat)
    requires st.pains == []
    ensures PainsAfter(TWO, st, BothStated(n)) == BothProblems(n)
  {
    BothAnalysis(n);
    TwoDetected(n, Detected(DataMismatch, "both", "both", true), Detected(ManualWork, "both", "both", true));
  }

  /** In an empty meeting every detected problem is new. */
  lemma NewFromNothing(cfg: Config, st: MeetingState, e: Event, after: seq<Pain>, i: nat)
    requires st.pains == [] && PainsAfter(cfg, st, e) == after && i < |after| && after[i].createdSeq == e.seqNo
    ensures after[i].id in Created(cfg, st, e)
  {
    assert Ambiguous(cfg, st.pains, e) == {};
    assert after[i] in after;
  }

  lemma BothOpen(n: nat, i: nat)
    requires i < 2
    ensures OnlyOpen(BothProblems(n), BothProblems(n)[i].category, i)
  {
  }

  lemma {:induction false} OwnerInContext(m: nat, n: nat)
    ensures OwnerNamed(m) in ContextOfLast([OwnerNamed(m)] + [BothStated(n)])
  {
    var transcript := [OwnerNamed(m)] + [BothStated(n)];
    var at := ContextMeaning(transcript);
    assert InContext(transcript, 0);
    var k :| 0 <= k < |at| && at[k] == 0;
    assert ContextOfLast(transcript)[k] == transcript[0];
  }

  lemma {:induction false} AfterOwner()
    ensures var m := Run(TWO, [HearOp(OwnerNamed(1))]);
            Inv(TWO, m) && m.state.pains == [] && m.state.transcript == [OwnerNamed(1)] && Accepts(m, BothStated(2))
  {
    TwoReachable([HearOp(OwnerNamed(1))]);
    HeardAlone(TWO, OwnerNamed(1));
    OwnerAnalysis(1);
    assert |"owner"| != |"both"|;
  }

  lemma {:induction false} AfterBoth()
    ensures var m := Run(TWO, [HearOp(BothStated(1))]);
            Inv(TWO, m) && m.state.pains == BothProblems(1) && Accepts(m, OwnerNamed(2))
  {
    TwoReachable([HearOp(BothStated(1))]);
    HeardAlone(TWO, BothStated(1));
    BothDetected(EMPTY_STATE, 1);
    assert |"owner"| != |"both"|;
  }

  lemma OwnerIsNamed(k: nat, n: nat, i: nat)
    requires i < 2
    ensures WhoOwns(BothProblems(n)[i].category) in Analyze(TWO_RULES, OwnerNamed(k)).facts
  {
    OwnerAnalysis(k);
  }

  lemma {:induction false} OwnerReplayed(m: Memory, k: nat, n: nat, i: nat)
    requires i < 2 && Inv(TWO, m) && m.state.pains == [] && m.state.transcript == [OwnerNamed(k)]
    requires Accepts(m, BothStated(n))
    ensures var p := BothProblems(n)[i];
            Reaches(TWO, m.state, BothStated(n), OwnerNamed(k), WhoOwns(p.category), p.id)
  {
    var pf := WhoOwns(BothProblems(n)[i].category);
    BothDetected(m.state, n);
    NewFromNothing(TWO, m.state, BothStated(n), BothProblems(n), i);
    OwnerIsNamed(k, n, i);
    OwnerInContext(k, n);
    BothOpen(n, i);
    ContextReaches(TWO, m, BothStated(n), OwnerNamed(k), pf, i);
  }

  /** Named just before both problems are stated, the owner is replayed to both. */
  lemma {:induction false} OwnerReachesBoth(i: nat)
    requires i < 2
    ensures var p := BothProblems(2)[i];
            var st := Run(TWO, [HearOp(OwnerNamed(1))]).state;
            Reaches(TWO, st, BothStated(2), OwnerNamed(1), WhoOwns(p.category), p.id)
  {
    AfterOwner();
    OwnerReplayed(Run(TWO, [HearOp(OwnerNamed(1))]), 1, 2, i);
  }

  lemma {:induction false} OwnerContested(i: nat)
    requires i < 2
    ensures !Uncontested(BothProblems(1), Analyze(TWO_RULES, OwnerNamed(2)).facts, i)
  {
    var other, facts := BothProblems(1)[1 - i], Analyze(TWO_RULES, OwnerNamed(2)).facts;
    OwnerAnalysis(2);
    assert WhoOwns(other.category) in facts;
    assert other.category in UnkeyedOwners(facts);
    assert other.open;
  }

  lemma {:induction false} OwnerDetectsNothing(st: MeetingState)
    ensures PainsAfter(TWO, st, OwnerNamed(2)) == st.pains && Created(TWO, st, OwnerNamed(2)) == {}
  {
    OwnerAnalysis(2);
  }

  lemma {:induction false} OwnerWithheld(m: Memory, i: nat)
    requires i < 2 && Inv(TWO, m) && m.state.pains == BothProblems(1) && Accepts(m, OwnerNamed(2))
    ensures var p := BothProblems(1)[i];
            !Reaches(TWO, m.state, OwnerNamed(2), OwnerNamed(2), WhoOwns(p.category), p.id)
  {
    var e, pf := OwnerNamed(2), WhoOwns(BothProblems(1)[i].category);
    OwnerDetectsNothing(m.state);
    OwnerContested(i);
    OwnerIsNamed(2, 1, i);
    ContestedOwner(TWO, m, e, pf, i);
  }

  /** Named after both problems are stated, the owner reaches neither. */
  lemma {:induction false} OwnerReachesNeither(i: nat)
    requires i < 2
    ensures var p := BothProblems(1)[i];
            var st := Run(TWO, [HearOp(BothStated(1))]).state;
            !Reaches(TWO, st, OwnerNamed(2), OwnerNamed(2), WhoOwns(p.category), p.id)
  {
    AfterBoth();
    OwnerWithheld(Run(TWO, [HearOp(BothStated(1))]), i);
  }
}
