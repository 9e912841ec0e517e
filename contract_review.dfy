/**
 * The contract-review workflow around the three nodes: the router that picks the next
 * node from the status, the edges the graph declares, and the assembly of the final
 * output from the state the graph stops in.
 */
module ContractReview {
  import opened Wrappers
  import opened JsonValues
  import opened Text
  import opened Clauses
  import opened AgentState
  import ExtractClausesNode
  import AnalyzeRisksNode
  import GenerateRecommendationsNode

  /** Where the router sends the workflow next. */
  datatype Route = Extract | Analyze | Recommend | End

  /**
   * `should_continue`: the status is read with "pending" as its default. "failed" and
   * "complete" end the run, "analyzing" and "recommending" pick their node, and every
   * other value, a missing status included, goes to extraction.
   */
  function ShouldContinue(status: Option<string>): (r: Route)
    ensures r == End <==> status == Some("failed") || status == Some("complete")
    ensures r == Analyze <==> status == Some("analyzing")
    ensures r == Recommend <==> status == Some("recommending")
    ensures status.None? || status == Some("pending") || status == Some("extracting") ==> r == Extract
  {
    var s := if status.Some? then status.value else "pending";
    if s == "failed" then End
    else if s == "extracting" then Extract
    else if s == "analyzing" then Analyze
    else if s == "recommending" then Recommend
    else if s == "complete" then End
    else Extract
  }

  /** The three nodes of the graph. */
  datatype Node = ExtractNode | AnalyzeNode | RecommendNode

  /** The routes the graph maps after each node; any other route has no edge. */
  function Edges(n: Node): set<Route>
  {
    match n
    case ExtractNode => {Analyze, End}
    case AnalyzeNode => {Recommend, End}
    case RecommendNode => {End}
  }

  /** The route taken after a node's update has been written into the state. */
  function RouteAfter<T>(u: NodeUpdate<T>): Route
  {
    ShouldContinue(Some(StatusValue(StatusOf(u))))
  }

  /** A failed update ends the run; an advancing one is routed by the status it sets. */
  lemma RouteOfUpdate<T>(u: NodeUpdate<T>)
    ensures u.Abort? ==> RouteAfter(u) == End
    ensures u.Advance? && u.next == Analyzing ==> RouteAfter(u) == Analyze
    ensures u.Advance? && u.next == Recommending ==> RouteAfter(u) == Recommend
    ensures u.Advance? && u.next == Complete ==> RouteAfter(u) == End
  {
  }

  /**
   * Every update the extraction node can return is routed along a declared edge: on
   * to analysis after a success, to the end after a failure. Like the two lemmas
   * below, it follows from the node's outcome contract and the routing table in
   * `RouteOfUpdate`; the steps in its body only spell that out.
   */
  lemma ExtractFollowsEdges(reply: LlmReply, decode: string -> Decoded, uuids: nat -> ExtractClausesNode.Uuid)
    ensures RouteAfter(ExtractClausesNode.ExtractOutcome(reply, decode, uuids)) in Edges(ExtractNode)
    ensures RouteAfter(ExtractClausesNode.ExtractOutcome(reply, decode, uuids)) == Analyze <==>
      ExtractClausesNode.ExtractOutcome(reply, decode, uuids).Advance?
  {
    var u := ExtractClausesNode.ExtractOutcome(reply, decode, uuids);
    assert u.Advance? ==> u.next == Analyzing;
    RouteOfUpdate(u);
  }

  /**
   * Every update of the risk node is routed on to recommendations or to the end; this
   * follows from `AnalyzeOutcome`'s contract and the routing table.
   */
  lemma AnalyzeFollowsEdges(clauses: seq<ExtractedClause>, reply: LlmReply, decode: string -> Decoded)
    ensures RouteAfter(AnalyzeRisksNode.AnalyzeOutcome(clauses, reply, decode)) in Edges(AnalyzeNode)
    ensures RouteAfter(AnalyzeRisksNode.AnalyzeOutcome(clauses, reply, decode)) == Recommend <==>
      AnalyzeRisksNode.AnalyzeOutcome(clauses, reply, decode).Advance?
  {
    var u := AnalyzeRisksNode.AnalyzeOutcome(clauses, reply, decode);
    assert u.Advance? ==> u.next == Recommending;
    RouteOfUpdate(u);
  }

  /**
   * Every update of the recommendation node ends the run, whichever entry conversion it
   * applies; this follows from `GenerateOutcome`'s contract and the routing table.
   */
  lemma RecommendFollowsEdges(risks: seq<RiskAssessment>, reply: LlmReply, decode: string -> Decoded,
                              convert: (Json, nat) -> Result<Recommendation, string>)
    ensures RouteAfter(GenerateRecommendationsNode.GenerateOutcome(risks, reply, decode, convert)) in Edges(RecommendNode)
  {
    var u := GenerateRecommendationsNode.GenerateOutcome(risks, reply, decode, convert);
    assert u.Advance? ==> u.next == Complete;
    RouteOfUpdate(u);
  }

  /** The order of severity contract review imposes on risk levels. */
  function Severity(l: RiskLevel): nat
  {
    match l
    case Low => 0
    case Medium => 1
    case High => 2
    case Critical => 3
  }

  predicate HasLevel(risks: seq<RiskAssessment>, l: RiskLevel)
  {
    exists i | 0 <= i < |risks| :: risks[i].riskLevel == l
  }

  /**
   * The overall risk: the most severe level among the risks, and LOW when there are
   * none.
   */
  function OverallRisk(risks: seq<RiskAssessment>): (r: RiskLevel)
    ensures risks == [] ==> r == Low
    ensures forall i | 0 <= i < |risks| :: Severity(risks[i].riskLevel) <= Severity(r)
    ensures risks != [] ==> HasLevel(risks, r)
  {
    if HasLevel(risks, Critical) then Critical
    else if HasLevel(risks, High) then High
    else if HasLevel(risks, Medium) then Medium
    else
      assert risks != [] ==> risks[0].riskLevel == Low;
      Low
  }

  function ClausesSentence(n: nat): string
  {
    "Analyzed contract with " + NatToString(n) + " clauses."
  }

  function IssuesSentence(n: nat): string
  {
    "Found " + NatToString(n) + " potential issues."
  }

  function CriticalSentence(n: nat): string
  {
    NatToString(n) + " critical risks require immediate attention."
  }

  function HighSentence(n: nat): string
  {
    NatToString(n) + " high-priority issues should be addressed."
  }

  function RecommendationsSentence(n: nat): string
  {
    "Generated " + NatToString(n) + " recommendations for improvement."
  }

  /**
   * The sentences of the summary: the clause and risk counts first, then a sentence on
   * critical risks and one on high risks, each only when there is at least one, and
   * the recommendation count last.
   */
  function SummaryParts(clauseCount: nat, risks: seq<RiskAssessment>, recommendationCount: nat)
    : (parts: seq<string>)
    ensures var c, h := CountLevel(risks, Critical), CountLevel(risks, High);
      && |parts| == 3 + (if c > 0 then 1 else 0) + (if h > 0 then 1 else 0)
      && parts[0] == ClausesSentence(clauseCount)
      && parts[1] == IssuesSentence(|risks|)
      && (c > 0 ==> parts[2] == CriticalSentence(c))
      && (h > 0 ==> parts[|parts| - 2] == HighSentence(h))
      && parts[|parts| - 1] == RecommendationsSentence(recommendationCount)
  {
    var c, h := CountLevel(risks, Critical), CountLevel(risks, High);
    [ClausesSentence(clauseCount), IssuesSentence(|risks|)]
      + (if c > 0 then [CriticalSentence(c)] else [])
      + (if h > 0 then [HighSentence(h)] else [])
      + [RecommendationsSentence(recommendationCount)]
  }

  /** The next-to-last character of a sentence, which tells the five sentences apart. */
  function Marker(s: string): char
  {
    if |s| >= 2 then s[|s| - 2] else ' '
  }

  lemma MarkerOfSuffix(a: string, b: string)
    requires |b| >= 2
    ensures Marker(a + b) == b[|b| - 2]
  {
  }

  lemma SentenceMarkers(clauseCount: nat, issues: nat, c: nat, h: nat, recommendationCount: nat)
    ensures Marker(ClausesSentence(clauseCount)) == 's'
    ensures Marker(IssuesSentence(issues)) == 's'
    ensures Marker(CriticalSentence(c)) == 'n'
    ensures Marker(HighSentence(h)) == 'd'
    ensures Marker(RecommendationsSentence(recommendationCount)) == 't'
  {
    MarkerOfSuffix("Analyzed contract with " + NatToString(clauseCount), " clauses.");
    MarkerOfSuffix("Found " + NatToString(issues), " potential issues.");
    MarkerOfSuffix(NatToString(c), " critical risks require immediate attention.");
    MarkerOfSuffix(NatToString(h), " high-priority issues should be addressed.");
    MarkerOfSuffix("Generated " + NatToString(recommendationCount), " recommendations for improvement.");
  }

  /**
   * The summary mentions critical risks exactly when there is at least one, and
   * high-priority issues exactly when there is at least one.
   */
  lemma SeveritySentencesOnlyWhenPresent(clauseCount: nat, risks: seq<RiskAssessment>, recommendationCount: nat)
    ensures var c := CountLevel(risks, Critical);
      CriticalSentence(c) in SummaryParts(clauseCount, risks, recommendationCount) <==> c > 0
    ensures var h := CountLevel(risks, High);
      HighSentence(h) in SummaryParts(clauseCount, risks, recommendationCount) <==> h > 0
  {
    var c, h := CountLevel(risks, Critical), CountLevel(risks, High);
    var parts := SummaryParts(clauseCount, risks, recommendationCount);
    SentenceMarkers(clauseCount, |risks|, c, h, recommendationCount);
    forall k | 0 <= k < |parts| && Marker(parts[k]) == 'n' ensures c > 0 && parts[k] == CriticalSentence(c) {
    }
    forall k | 0 <= k < |parts| && Marker(parts[k]) == 'd' ensures h > 0 && parts[k] == HighSentence(h) {
    }
  }

  /** `summary_parts`, built by successive appends. */
  method BuildSummaryParts(clauseCount: nat, risks: seq<RiskAssessment>, recommendationCount: nat)
    returns (parts: seq<string>)
    ensures parts == SummaryParts(clauseCount, risks, recommendationCount)
  {
    parts := [ClausesSentence(clauseCount), IssuesSentence(|risks|)];
    var criticalCount := CountLevel(risks, Critical);
    var highCount := CountLevel(risks, High);
    if criticalCount > 0 {
      parts := parts + [CriticalSentence(criticalCount)];
    }
    if highCount > 0 {
      parts := parts + [HighSentence(highCount)];
    }
    parts := parts + [RecommendationsSentence(recommendationCount)];
  }

  /** What the graph run produced: the state it stopped in, or the exception it raised. */
  datatype GraphOutcome = Finished(state: FinalState) | Raised(detail: string)

  /** `f"{error}"` for the optional error text of the state. */
  function ErrorText(error: Option<string>): string
  {
    match error
    case Some(e) => e
    case None => "None"
  }

  /**
   * `run_contract_review` once the graph has run. A raised exception and a final status
   * of "failed" both give an unsuccessful output rated HIGH with no records; otherwise
   * the records pass through unchanged, the overall risk is the most severe level found
   * and the summary joins the count sentences.
   */
  method RunContractReview(input: ContractInput, outcome: GraphOutcome) returns (out: ContractOutput)
    ensures out.taskId == input.taskId && out.analysis.contractId == input.taskId
    ensures out.success <==> outcome.Finished? && outcome.state.status != Failed
    ensures !out.success ==>
      && out.analysis.overallRisk == High
      && out.analysis.clauses == [] && out.analysis.risks == [] && out.analysis.recommendations == []
      && out.analysis.metadata == map[]
    ensures outcome.Raised? ==>
      && out.error == Some(outcome.detail)
      && out.analysis.summary == "Analysis failed due to an unexpected error: " + outcome.detail
    ensures outcome.Finished? && outcome.state.status == Failed ==>
      && out.error == outcome.state.error
      && out.analysis.summary == "Analysis failed: " + ErrorText(outcome.state.error)
    ensures out.success ==>
      var s := outcome.state;
      && out.error == None
      && out.analysis.clauses == s.clauses
      && out.analysis.risks == s.risks
      && out.analysis.recommendations == s.recommendations
      && out.analysis.missingClauses == []
      && out.analysis.metadata == input.metadata
      && out.analysis.overallRisk == OverallRisk(s.risks)
      && out.analysis.summary == Join(" ", SummaryParts(|s.clauses|, s.risks, |s.recommendations|))
  {
    if outcome.Raised? {
      var analysis := ContractAnalysis(input.taskId,
        "Analysis failed due to an unexpected error: " + outcome.detail, High);
      return ContractOutput(input.taskId, analysis, false, Some(outcome.detail));
    }
    var state := outcome.state;
    if state.status == Failed {
      var analysis := ContractAnalysis(input.taskId, "Analysis failed: " + ErrorText(state.error), High);
      return ContractOutput(input.taskId, analysis, false, state.error);
    }
    var clauses, risks, recommendations := state.clauses, state.risks, state.recommendations;
    var parts := BuildSummaryParts(|clauses|, risks, |recommendations|);
    var analysis := ContractAnalysis(input.taskId, Join(" ", parts), OverallRisk(risks),
      clauses, risks, recommendations, [], input.metadata);
    out := ContractOutput(input.taskId, analysis, true, None);
  }
}
