/** The template registry: ordered slots per category, and the slots a reviewable issue needs. */
module Templates {
  import opened Contracts
  import opened Sequences

  datatype Template = Template(slots: seq<Slot>, required: seq<Slot>)

  type Registry = map<Category, Template>

  predicate WellFormed(reg: Registry) {
    forall c | c in reg :: NoDup(reg[c].slots) && forall s | s in reg[c].required :: s in reg[c].slots
  }

  function StandardTemplate(c: Category): Template {
    match c
    case DataMismatch => Template(
      [SourceOfTruth, BusinessImpact, Owner, AffectedScope, Frequency, CorrectionProcess],
      [SourceOfTruth, BusinessImpact, Owner, AffectedScope])
    case ManualWork => Template(
      [BusinessImpact, Frequency, Volume, TimeCost, Owner, ReasonManual, SuccessCondition],
      [BusinessImpact, Frequency, Owner, SuccessCondition])
    case IntegrationFailure => Template(
      [BusinessImpact, FailurePoint, Owner, RetryBehavior, ErrorSignal, SourceSystem, TargetSystem],
      [BusinessImpact, FailurePoint, Owner, SourceSystem, TargetSystem])
    case VagueRequirement => Template(
      [ExpectedBehavior, AcceptanceCriteria, BusinessImpact, CurrentProblem, Owner, PriorityLevel],
      [CurrentProblem, ExpectedBehavior, AcceptanceCriteria, Owner])
    case ProcessDelay => Template(
      [BusinessImpact, Bottleneck, CurrentLeadTime, Owner, NormalLeadTime, ProcessStep],
      [BusinessImpact, ProcessStep, CurrentLeadTime, Owner])
    case UnclearOwnership => Template(
      [Owner, BusinessImpact, DecisionProcess, Stakeholders, EscalationPath, CurrentStatus],
      [BusinessImpact, Stakeholders, DecisionProcess, EscalationPath, CurrentStatus])
    case NonfunctionalRequirement => Template(
      [QualityAttribute, MeasurableTarget, ScopeLoad, MeasurementMethod, Owner],
      [QualityAttribute, MeasurableTarget, ScopeLoad, MeasurementMethod, Owner])
    case ArchitectureConstraint => Template(
      [Constraint, RationaleSource, AffectedSystems, DecisionAuthority, Alternatives, ExceptionPath],
      [Constraint, RationaleSource, AffectedSystems, DecisionAuthority])
    case SecurityControlGap => Template(
      [AffectedAssetData, ThreatControlGap, BusinessImpact, Owner, ComplianceSource, TargetDate],
      [AffectedAssetData, ThreatControlGap, BusinessImpact, Owner, ComplianceSource, TargetDate])
    case DependencyBlocker => Template(
      [Provider, Consumer, DeliverableInterface, NeededBy, Owner, CurrentStatus, Fallback],
      [Provider, Consumer, DeliverableInterface, NeededBy, Owner, CurrentStatus])
    case OtherCategory(_) => Template([], [])
  }

  const CATEGORIES: set<Category> := {
    DataMismatch, ManualWork, IntegrationFailure, VagueRequirement, ProcessDelay,
    UnclearOwnership, NonfunctionalRequirement, ArchitectureConstraint, SecurityControlGap, DependencyBlocker}

  const STANDARD: Registry := map c | c in CATEGORIES :: StandardTemplate(c)

  lemma DistinctSlots(c: Category)
    ensures NoDup(StandardTemplate(c).slots)
  {
  }

  lemma RequiredSlotsExist(c: Category)
    ensures forall s | s in StandardTemplate(c).required :: s in StandardTemplate(c).slots
  {
  }

  /** The registry the program ships: slots are distinct, and every required slot is a template slot. */
  lemma StandardWellFormed()
    ensures WellFormed(STANDARD)
  {
    forall c | c in STANDARD
      ensures NoDup(STANDARD[c].slots) && forall s | s in STANDARD[c].required :: s in STANDARD[c].slots
    {
      DistinctSlots(c);
      RequiredSlotsExist(c);
    }
  }
}
