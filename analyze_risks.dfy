/**
 * The risk-analysis node: skipped when there are no clauses; otherwise the model's
 * reply is read as a JSON list, each entry becomes a RiskAssessment with a level
 * fallback and defaults, and the levels found are counted for the progress message.
 */
module AnalyzeRisksNode {
  import opened Wrappers
  import opened JsonValues
  import opened Text
  import opened Clauses
  import opened AgentState

  const ParseErrorPrefix := "Failed to parse risk analysis: "
  const ErrorPrefix := "Risk analysis error: "
  const NoClausesMessage := "No clauses found to analyze."

  /**
   * `RiskLevel(raw.get("risk_level", "low"))`, with LOW when the value is not one of the
   * enum's values: the level is LOW unless the entry names another level exactly.
   */
  function LevelOf(raw: Fields): (l: RiskLevel)
    ensures l != Low ==> "risk_level" in raw && raw["risk_level"] == JStr(RiskLevelValue(l))
    ensures forall m :: "risk_level" in raw && raw["risk_level"] == JStr(RiskLevelValue(m)) ==> l == m
  {
    if "risk_level" in raw && raw["risk_level"].JStr? && ParseRiskLevel(raw["risk_level"].s).Some? then
      ParseRiskLevel(raw["risk_level"].s).value
    else
      Low
  }

  /** The message of the TypeError `max` raises when the confidence is not a number. */
  const ConfidenceError := "'>' not supported between confidence and 'float'"

  /**
   * One pass of the loop. An entry that is not an object raises, and so does a
   * confidence that is present but not a number. The clause id, issues, explanation and
   * affected party must be strings (a list of strings for issues) when present, and
   * get the defaults "unknown", [], "" and "both" when missing.
   */
  function RiskFromRaw(raw: Json): (r: Result<RiskAssessment, string>)
    ensures r.Success? <==>
      && raw.JObj?
      && ("confidence" in raw.fields ==> AsInt(raw.fields["confidence"]).Some?)
      && ("clause_id" in raw.fields ==> raw.fields["clause_id"].JStr?)
      && ("issues" in raw.fields ==> raw.fields["issues"].JArr? && AllStrings(raw.fields["issues"].elems))
      && ("explanation" in raw.fields ==> raw.fields["explanation"].JStr?)
      && ("affected_party" in raw.fields ==> raw.fields["affected_party"].JStr?)
    ensures r.Success? ==>
      var a := r.value;
      && a.riskLevel == LevelOf(raw.fields)
      && ("clause_id" in raw.fields ==> raw.fields["clause_id"] == JStr(a.clauseId))
      && ("clause_id" !in raw.fields ==> a.clauseId == "unknown")
      && ("issues" in raw.fields ==> raw.fields["issues"] == JArr(seq(|a.issues|, k requires 0 <= k < |a.issues| => JStr(a.issues[k]))))
      && ("issues" !in raw.fields ==> a.issues == [])
      && ("explanation" in raw.fields ==> raw.fields["explanation"] == JStr(a.explanation))
      && ("explanation" !in raw.fields ==> a.explanation == "")
      && ("affected_party" in raw.fields ==> raw.fields["affected_party"] == JStr(a.affectedParty))
      && ("affected_party" !in raw.fields ==> a.affectedParty == "both")
  {
    if !raw.JObj? then Failure(NotAnObject)
    else
      var f := raw.fields;
      if "confidence" in f && AsInt(f["confidence"]).None? then Failure(ConfidenceError)
      else
        match (StrField(f, "clause_id", "unknown"), StrListField(f, "issues"), StrField(f, "explanation", ""), StrField(f, "affected_party", "both"))
        case (Success(id), Success(issues), Success(explanation), Success(party)) =>
          assert "issues" in f ==> f["issues"].elems == seq(|issues|, k requires 0 <= k < |issues| => JStr(issues[k]));
          Success(RiskAssessment(id, LevelOf(f), explanation, issues, party))
        case (Failure(e), _, _, _) => Failure(e)
        case (_, Failure(e), _, _) => Failure(e)
        case (_, _, Failure(e), _) => Failure(e)
        case (_, _, _, Failure(e)) => Failure(e)
  }

  /** The conversion the loop over `raw_risks` applies to each entry; the position is unused. */
  const RiskEntry: (Json, nat) -> Result<RiskAssessment, string> := (raw: Json, i: nat) => RiskFromRaw(raw)

  /** Exactly one assessment per entry, in the same order. */
  lemma OneRiskPerEntry(entries: seq<Json>)
    ensures ConvertAll(entries, RiskEntry).Success? <==>
      forall i | 0 <= i < |entries| :: RiskFromRaw(entries[i]).Success?
    ensures ConvertAll(entries, RiskEntry).Success? ==>
      && |ConvertAll(entries, RiskEntry).value| == |entries|
      && forall i | 0 <= i < |entries| :: ConvertAll(entries, RiskEntry).value[i] == RiskFromRaw(entries[i]).value
  {
    OneRecordPerEntry(entries, RiskEntry);
  }

  /** The four level counts partition the assessments. */
  lemma {:induction false} RiskCountsPartition(risks: seq<RiskAssessment>)
    ensures CountLevel(risks, Critical) + CountLevel(risks, High)
          + CountLevel(risks, Medium) + CountLevel(risks, Low) == |risks|
  {
    if risks != [] {
      RiskCountsPartition(risks[..|risks| - 1]);
    }
  }

  /** The progress message: the number of assessments and the critical, high and medium counts. */
  function AnalyzedMessage(risks: seq<RiskAssessment>): string
  {
    "Analyzed " + NatToString(|risks|) + " clauses. Found "
      + NatToString(CountLevel(risks, Critical)) + " critical, "
      + NatToString(CountLevel(risks, High)) + " high, "
      + NatToString(CountLevel(risks, Medium)) + " medium risks."
  }

  /**
   * The node's whole update. With no clauses the model is not consulted: the reply and
   * the decoder play no part in the result. Otherwise a decoding failure is reported
   * under the parse prefix and every other exception under the generic prefix; on
   * success the status moves to "recommending".
   */
  function AnalyzeOutcome(clauses: seq<ExtractedClause>, reply: LlmReply, decode: string -> Decoded)
    : (u: NodeUpdate<RiskAssessment>)
    ensures clauses == [] ==> u == Advance([], Recommending, NoClausesMessage)
    ensures clauses != [] ==>
      && (u.Advance? <==>
            ReadEntries(reply, decode).Success? && ConvertAll(ReadEntries(reply, decode).value, RiskEntry).Success?)
      && (u.Advance? ==>
            && u.items == ConvertAll(ReadEntries(reply, decode).value, RiskEntry).value
            && u.next == Recommending
            && u.message == AnalyzedMessage(u.items))
      && (ReadEntries(reply, decode).Failure? && ReadEntries(reply, decode).error.ParseFault? ==>
            u == Abort(ParseErrorPrefix + ReadEntries(reply, decode).error.detail))
      && (ReadEntries(reply, decode).Failure? && ReadEntries(reply, decode).error.OtherFault? ==>
            u == Abort(ErrorPrefix + ReadEntries(reply, decode).error.detail))
      && (ReadEntries(reply, decode).Success? && ConvertAll(ReadEntries(reply, decode).value, RiskEntry).Failure? ==>
            u == Abort(ErrorPrefix + ConvertAll(ReadEntries(reply, decode).value, RiskEntry).error))
  {
    if clauses == [] then Advance([], Recommending, NoClausesMessage)
    else
      match ReadEntries(reply, decode)
      case Failure(f) => AbortWith(f, ParseErrorPrefix, ErrorPrefix)
      case Success(entries) =>
        match ConvertAll(entries, RiskEntry)
        case Failure(e) => Abort(ErrorPrefix + e)
        case Success(risks) => Advance(risks, Recommending, AnalyzedMessage(risks))
  }

  /**
   * `analyze_risks`: returns early without clauses; otherwise reads the reply and
   * builds the assessment list by appending one assessment per entry.
   */
  method AnalyzeRisks(clauses: seq<ExtractedClause>, reply: LlmReply, decode: string -> Decoded)
    returns (u: NodeUpdate<RiskAssessment>)
    ensures u == AnalyzeOutcome(clauses, reply, decode)
  {
    if clauses == [] {
      return Advance([], Recommending, NoClausesMessage);
    }
    var read := ReadEntries(reply, decode);
    if read.Failure? {
      return AbortWith(read.error, ParseErrorPrefix, ErrorPrefix);
    }
    var entries := read.value;
    var risks: seq<RiskAssessment> := [];
    var i := 0;
    while i < |entries|
      invariant 0 <= i <= |entries|
      invariant ConvertAll(entries[..i], RiskEntry) == Success(risks)
    {
      assert entries[..i + 1][..i] == entries[..i];
      var risk := RiskFromRaw(entries[i]);
      if risk.Failure? {
        FailureIsFinal(entries, RiskEntry, i + 1);
        return Abort(ErrorPrefix + risk.error);
      }
      risks := risks + [risk.value];
      i := i + 1;
    }
    assert entries[..i] == entries;
    u := Advance(risks, Recommending, AnalyzedMessage(risks));
  }
}
