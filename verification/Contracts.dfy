/** Wire contracts and analyzer output types (domain/contracts.py, domain/analysis.py). */
module Contracts {
  import opened Sequences

  datatype Lang = Ja | En | Ko

  datatype Category =
    | DataMismatch | ManualWork | IntegrationFailure | VagueRequirement | ProcessDelay | UnclearOwnership
    | NonfunctionalRequirement | ArchitectureConstraint | SecurityControlGap | DependencyBlocker
    | OtherCategory(name: string)

  datatype Slot =
    | SourceOfTruth | BusinessImpact | Owner | AffectedScope | Frequency | CorrectionProcess | Volume | TimeCost
    | ReasonManual | SuccessCondition | FailurePoint | RetryBehavior | ErrorSignal | SourceSystem | TargetSystem
    | ExpectedBehavior | AcceptanceCriteria | CurrentProblem | PriorityLevel | Bottleneck | CurrentLeadTime
    | NormalLeadTime | ProcessStep | DecisionProcess | Stakeholders | EscalationPath | CurrentStatus
    | QualityAttribute | MeasurableTarget | ScopeLoad | MeasurementMethod | Constraint | RationaleSource
    | AffectedSystems | DecisionAuthority | Alternatives | ExceptionPath | AffectedAssetData | ThreatControlGap
    | ComplianceSource | TargetDate | Provider | Consumer | DeliverableInterface | NeededBy | Fallback
    | OtherSlot(name: string)

  datatype Kind = Evidence | Inference
  datatype Origin = Deterministic | SemanticConfirmed
  datatype FactStatus = Active | Superseded | Contradicted
  datatype Relation = Supersede | Contradict

  /** Ids are minted from their parts, so they are modelled as the parts themselves. */
  datatype PainId = PainId(category: Category, key: string)
  datatype FactId = FactId(pain: PainId, slot: Slot, seqNo: int)
  datatype GapId = GapId(pain: PainId, slot: Slot)

  datatype Event = Event(id: string, seqNo: int, lang: Lang, tsStart: real, tsEnd: real, isFinal: bool, text: string)

  datatype Pain = Pain(
    id: PainId, category: Category, key: string, aliases: seq<string>, revision: nat, anchored: bool,
    mergedInto: Option<PainId>, open: bool, evidence: seq<string>, createdSeq: int)
  {
    predicate Live() {
      mergedInto.None?
    }

    predicate HasKey(k: string) {
      key == k || k in aliases
    }

    /** The alias search of the reducer: an unmerged problem of category c that answers to key k. */
    predicate Owns(c: Category, k: string) {
      category == c && Live() && HasKey(k)
    }
  }

  datatype Fact = Fact(
    id: FactId, pain: PainId, slot: Slot, value: string, kind: Kind, origin: Origin, status: FactStatus,
    evidence: seq<string>, supersedes: Option<FactId>, supersededBy: Option<FactId>, contradicts: seq<FactId>,
    createdSeq: int)

  datatype Gap = Gap(id: GapId, answered: bool, resolvedBy: Option<FactId>, basePriority: nat, reopenCount: nat)

  datatype Role = AskNow | FollowUp
  datatype Suggestion = Suggestion(gap: GapId, role: Role, priority: nat)

  datatype Action = Merge | KeepSeparate | OtherAction(name: string)

  /** decision_id is a digest of the action and the sorted pair, so the two fields identify the decision. */
  datatype Decision = Decision(action: Action, pains: set<PainId>, survivor: Option<PainId>, createdVersion: nat)
  {
    predicate SameId(other: Decision) {
      action == other.action && pains == other.pains
    }
  }

  datatype MeetingState = MeetingState(
    version: nat, transcript: seq<Event>, pains: seq<Pain>, facts: seq<Fact>, gaps: seq<Gap>,
    suggestions: seq<Suggestion>, lastSeq: int, decisions: seq<Decision>, confirmedHints: seq<string>)

  const EMPTY_STATE := MeetingState(0, [], [], [], [], [], -1, [], [])

  datatype Detected = Detected(category: Category, evidence: string, key: string, anchored: bool)

  datatype Proposed = Proposed(
    category: Category, slot: Slot, value: string, key: Option<string>, kind: Kind, relation: Relation, origin: Origin)

  datatype AnalysisResult = AnalysisResult(pains: seq<Detected>, facts: seq<Proposed>)

  datatype ProblemIdentity = ProblemIdentity(key: string, anchored: bool)
}
