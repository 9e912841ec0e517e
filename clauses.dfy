/**
 * The clause-analysis records: clause types, risk levels, extracted clauses, risk
 * assessments, recommendations and the complete contract analysis. The enums are
 * string enums: each member has a wire value, and constructing a member from any
 * other value is rejected.
 */
module Clauses {
  import opened Wrappers
  import opened JsonValues

  /** The sixteen kinds of contract clause. */
  datatype ClauseType =
    | Indemnification | Liability | Termination | Confidentiality
    | IntellectualProperty | Payment | Warranty | ForceMajeure
    | DisputeResolution | GoverningLaw | Assignment | Amendment
    | Notice | EntireAgreement | Severability | Other

  function ClauseTypeValue(t: ClauseType): string
  {
    match t
    case Indemnification => "indemnification"
    case Liability => "liability"
    case Termination => "termination"
    case Confidentiality => "confidentiality"
    case IntellectualProperty => "intellectual_property"
    case Payment => "payment"
    case Warranty => "warranty"
    case ForceMajeure => "force_majeure"
    case DisputeResolution => "dispute_resolution"
    case GoverningLaw => "governing_law"
    case Assignment => "assignment"
    case Amendment => "amendment"
    case Notice => "notice"
    case EntireAgreement => "entire_agreement"
    case Severability => "severability"
    case Other => "other"
  }

  /** `ClauseType(v)`: the member whose value is `v`; any other string raises ValueError. */
  function ParseClauseType(v: string): (r: Option<ClauseType>)
    ensures r.Some? ==> ClauseTypeValue(r.value) == v
    ensures forall t :: ClauseTypeValue(t) == v ==> r == Some(t)
  {
    match v
    case "indemnification" => Some(Indemnification)
    case "liability" => Some(Liability)
    case "termination" => Some(Termination)
    case "confidentiality" => Some(Confidentiality)
    case "intellectual_property" => Some(IntellectualProperty)
    case "payment" => Some(Payment)
    case "warranty" => Some(Warranty)
    case "force_majeure" => Some(ForceMajeure)
    case "dispute_resolution" => Some(DisputeResolution)
    case "governing_law" => Some(GoverningLaw)
    case "assignment" => Some(Assignment)
    case "amendment" => Some(Amendment)
    case "notice" => Some(Notice)
    case "entire_agreement" => Some(EntireAgreement)
    case "severability" => Some(Severability)
    case "other" => Some(Other)
    case _ => None
  }

  /** Every member, in declaration order. */
  const AllClauseTypes: seq<ClauseType> := [
    Indemnification, Liability, Termination, Confidentiality,
    IntellectualProperty, Payment, Warranty, ForceMajeure,
    DisputeResolution, GoverningLaw, Assignment, Amendment,
    Notice, EntireAgreement, Severability, Other]

  /** The enum has exactly sixteen members, each with its own value. */
  lemma ClauseTypesEnumerated()
    ensures |AllClauseTypes| == 16
    ensures forall t: ClauseType :: t in AllClauseTypes
    ensures forall i, j | 0 <= i < j < |AllClauseTypes| ::
      ClauseTypeValue(AllClauseTypes[i]) != ClauseTypeValue(AllClauseTypes[j])
  {
    forall t: ClauseType ensures t in AllClauseTypes {
      var k := match t
        case Indemnification => 0
        case Liability => 1
        case Termination => 2
        case Confidentiality => 3
        case IntellectualProperty => 4
        case Payment => 5
        case Warranty => 6
        case ForceMajeure => 7
        case DisputeResolution => 8
        case GoverningLaw => 9
        case Assignment => 10
        case Amendment => 11
        case Notice => 12
        case EntireAgreement => 13
        case Severability => 14
        case Other => 15;
      assert AllClauseTypes[k] == t;
    }
  }

  /** The four risk levels. The enum itself imposes no order on them. */
  datatype RiskLevel = Low | Medium | High | Critical

  function RiskLevelValue(l: RiskLevel): string
  {
    match l
    case Low => "low"
    case Medium => "medium"
    case High => "high"
    case Critical => "critical"
  }

  /** `RiskLevel(v)`: the level whose value is `v`; any other string raises ValueError. */
  function ParseRiskLevel(v: string): (r: Option<RiskLevel>)
    ensures r.Some? ==> RiskLevelValue(r.value) == v
    ensures forall l :: RiskLevelValue(l) == v ==> r == Some(l)
  {
    match v
    case "low" => Some(Low)
    case "medium" => Some(Medium)
    case "high" => Some(High)
    case "critical" => Some(Critical)
    case _ => None
  }

  /** A clause found in the contract. */
  datatype ExtractedClause = ExtractedClause(
    id: string,
    clauseType: ClauseType,
    title: string,
    text: string,
    location: string,
    metadata: Fields := map[])

  /**
   * The risk found in one clause. The confidence score is a float and is not part of
   * this record (see README).
   */
  datatype RiskAssessment = RiskAssessment(
    clauseId: string,
    riskLevel: RiskLevel,
    explanation: string,
    issues: seq<string> := [],
    affectedParty: string := "")

  /** A recommendation priority: 1 is the highest, 5 the lowest. */
  type Priority = p: int | 1 <= p <= 5 witness 1

  /** A suggested change to one clause. */
  datatype Recommendation = Recommendation(
    clauseId: string,
    priority: Priority,
    action: string,
    rationale: string,
    suggestedText: Option<string> := None,
    riskReduction: Option<RiskLevel> := None)

  /** The message of the validation error for a priority outside 1..5. */
  const PriorityError := "priority must be between 1 and 5"

  /**
   * Constructing a Recommendation: the priority field is validated, so a value outside
   * 1..5 is rejected and every other field is stored as given.
   */
  function NewRecommendation(
    clauseId: string, priority: int, action: string, rationale: string,
    suggestedText: Option<string> := None, riskReduction: Option<RiskLevel> := None)
    : (r: Result<Recommendation, string>)
    ensures r.Success? <==> 1 <= priority <= 5
    ensures r.Success? ==>
      && r.value.clauseId == clauseId && r.value.priority == priority
      && r.value.action == action && r.value.rationale == rationale
      && r.value.suggestedText == suggestedText && r.value.riskReduction == riskReduction
  {
    if 1 <= priority <= 5 then
      Success(Recommendation(clauseId, priority, action, rationale, suggestedText, riskReduction))
    else
      Failure(PriorityError)
  }

  /** The complete analysis of one contract. */
  datatype ContractAnalysis = ContractAnalysis(
    contractId: string,
    summary: string,
    overallRisk: RiskLevel,
    clauses: seq<ExtractedClause> := [],
    risks: seq<RiskAssessment> := [],
    recommendations: seq<Recommendation> := [],
    missingClauses: seq<ClauseType> := [],
    metadata: Fields := map[])

  /** `sum(1 for r in risks if r.risk_level == level)`. */
  function CountLevel(risks: seq<RiskAssessment>, level: RiskLevel): (n: nat)
    ensures n <= |risks|
    ensures n == 0 <==> forall i | 0 <= i < |risks| :: risks[i].riskLevel != level
  {
    if risks == [] then 0
    else CountLevel(risks[..|risks| - 1], level) + (if risks[|risks| - 1].riskLevel == level then 1 else 0)
  }
}
