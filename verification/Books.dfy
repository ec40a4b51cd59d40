/** The counters and logs of a run, told by its calls: transcript, last number, version and confirmed hints. */
module Books {
  import opened Contracts
  import opened Sequences
  import opened Templates
  import opened Engine
  import opened Invariants
  import opened Runs

  /** The final events with ids not heard before, in the order of the calls. */
  function FirstHeard(ops: seq<Op>): seq<Event> {
    if ops == [] then []
    else
      var front, op := FirstHeard(ops[..|ops| - 1]), ops[|ops| - 1];
      if op.HearOp? && op.e.isFinal && forall t | t in front :: t.id != op.e.id then front + [op.e] else front
  }

  /** The transcript is what the calls say first, and its last event gives the last number. */
  lemma {:induction false} TranscriptIsHeard(cfg: Config, ops: seq<Op>)
    requires WellFormed(cfg.registry)
    ensures var st, heard := Run(cfg, ops).state, FirstHeard(ops);
            st.transcript == heard && st.lastSeq == if heard == [] then -1 else heard[|heard| - 1].seqNo
  {
    if ops != [] {
      var front, op := ops[..|ops| - 1], ops[|ops| - 1];
      TranscriptIsHeard(cfg, front);
      Reachable(cfg, front);
      if op.HearOp? {
        SeenIsHeard(cfg, Run(cfg, front), op.e);
      }
    }
  }

  lemma SeenIsHeard(cfg: Config, m: Memory, e: Event)
    requires Inv(cfg, m)
    ensures Accepts(m, e) <==> e.isFinal && forall t | t in m.state.transcript :: t.id != e.id
  {
  }

  /** The hint is of this session, not confirmed before, and cites events of the transcript, at least one. */
  predicate Confirmable(cfg: Config, st: MeetingState, hint: Hint) {
    && hint.session == cfg.meetingId && hint.id !in st.confirmedHints && hint.evidence != []
    && forall id | id in hint.evidence :: exists t :: t in st.transcript && t.id == id
  }

  /** The call goes through and changes the meeting. */
  predicate Succeeds(cfg: Config, m: Memory, op: Op) {
    match op
    case HearOp(e) => e.isFinal && forall t | t in m.state.transcript :: t.id != e.id
    case DecideOp(action, ids, survivor) => Decide(cfg, m, action, ids, survivor).Ok?
    case ConfirmOp(hint) => Confirmable(cfg, m.state, hint)
  }

  function Successes(cfg: Config, ops: seq<Op>): nat {
    if ops == [] then 0
    else
      Successes(cfg, ops[..|ops| - 1]) +
      if Succeeds(cfg, Run(cfg, ops[..|ops| - 1]), ops[|ops| - 1]) then 1 else 0
  }

  /** The ids of the hints that went through, in the order of the calls. */
  function Confirmed(cfg: Config, ops: seq<Op>): seq<string> {
    if ops == [] then []
    else
      var front, op := Confirmed(cfg, ops[..|ops| - 1]), ops[|ops| - 1];
      if op.ConfirmOp? && Confirmable(cfg, Run(cfg, ops[..|ops| - 1]).state, op.hint) then front + [op.hint.id]
      else front
  }

  lemma ConfirmableIff(cfg: Config, m: Memory, hint: Hint)
    ensures Confirmable(cfg, m.state, hint) <==> HintAccepted(cfg, m, hint)
  {
    forall id | id in hint.evidence
      ensures EventById(m.state.transcript, id).Some? <==> exists t :: t in m.state.transcript && t.id == id
    {
      assert EventById(m.state.transcript, id).Some? ==> EventById(m.state.transcript, id).value in m.state.transcript;
    }
  }

  /** A call that goes through adds one to the version and another changes nothing at all; hints go through once. */
  lemma {:induction false} VersionCountsSuccesses(cfg: Config, ops: seq<Op>)
    requires WellFormed(cfg.registry)
    ensures Run(cfg, ops).state.version == Successes(cfg, ops)
    ensures Run(cfg, ops).state.confirmedHints == Confirmed(cfg, ops) && NoDup(Confirmed(cfg, ops))
  {
    if ops != [] {
      var front, op := ops[..|ops| - 1], ops[|ops| - 1];
      VersionCountsSuccesses(cfg, front);
      Reachable(cfg, front);
      StepBooks(cfg, Run(cfg, front), op);
    }
  }

  lemma {:induction false} StepBooks(cfg: Config, m: Memory, op: Op)
    requires Inv(cfg, m)
    ensures var after := Step(cfg, m, op);
            && after.state.version == m.state.version + (if Succeeds(cfg, m, op) then 1 else 0)
            && after.state.confirmedHints == m.state.confirmedHints +
               (if op.ConfirmOp? && Succeeds(cfg, m, op) then [op.hint.id] else [])
            && (!Succeeds(cfg, m, op) ==> after == m)
  {
    match op
    case HearOp(e) => SeenIsHeard(cfg, m, e);
    case DecideOp(action, ids, survivor) =>
    case ConfirmOp(hint) => ConfirmableIff(cfg, m, hint);
  }

  /** A call that does not go through leaves the engine as it was. */
  lemma {:induction false} FailureChangesNothing(cfg: Config, ops: seq<Op>, op: Op)
    requires WellFormed(cfg.registry) && !Succeeds(cfg, Run(cfg, ops), op)
    ensures Run(cfg, ops + [op]) == Run(cfg, ops)
  {
    assert (ops + [op])[..|ops|] == ops;
    Reachable(cfg, ops);
    StepBooks(cfg, Run(cfg, ops), op);
  }

  /** What a hint that does not go through is told: repeated hints are fine, then the session and the evidence count. */
  lemma {:induction false} HintAnswerIff(cfg: Config, ops: seq<Op>, hint: Hint)
    ensures var st, answer := Run(cfg, ops).state, Confirm(cfg, Run(cfg, ops), hint);
            && (answer.Ok? <==>
                  hint.session == cfg.meetingId && (hint.id in st.confirmedHints || Confirmable(cfg, st, hint)))
            && (answer == Err(OtherSession) <==> hint.session != cfg.meetingId)
            && (answer.Ok? && hint.id in st.confirmedHints ==> answer.value == Run(cfg, ops))
  {
    ConfirmableIff(cfg, Run(cfg, ops), hint);
  }
}
