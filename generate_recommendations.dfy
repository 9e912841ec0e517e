/**
 * The recommendation node: skipped when there are no risks; otherwise the model's
 * reply is read as a JSON list, each entry becomes a Recommendation (priority clamped
 * to 1..5, risk reduction parsed, defaults for missing fields) and the list is
 * stably sorted by priority in place.
 */
module GenerateRecommendationsNode {
  import opened Wrappers
  import opened JsonValues
  import opened Text
  import opened Clauses
  import opened AgentState

  const ParseErrorPrefix := "Failed to parse recommendations: "
  const ErrorPrefix := "Recommendation error: "
  const NoRisksMessage := "No significant risks found. Contract appears acceptable."

  /** `min(max(p, 1), 5)`: the nearest priority to `p`. */
  function Clamp(p: int): (r: Priority)
    ensures 1 <= p <= 5 ==> r == p
    ensures p < 1 ==> r == 1
    ensures p > 5 ==> r == 5
  {
    if p < 1 then 1 else if p > 5 then 5 else p
  }

  /** The message of the TypeError `max` raises when the priority is not a number. */
  const PriorityTypeError := "'>' not supported between priority and 'int'"

  /**
   * `min(max(raw.get("priority", 3), 1), 5)`: 3 when missing, the clamped number
   * otherwise; a value that is not a number raises.
   */
  function PriorityOf(raw: Fields): (r: Result<Priority, string>)
    ensures r.Success? <==> ("priority" !in raw || AsInt(raw["priority"]).Some?)
    ensures "priority" !in raw ==> r == Success(3)
    ensures r.Success? && "priority" in raw ==>
      var p := AsInt(raw["priority"]).value;
      && (1 <= p <= 5 ==> r.value == p)
      && (p < 1 ==> r.value == 1)
      && (p > 5 ==> r.value == 5)
  {
    if "priority" !in raw then Success(3)
    else match AsInt(raw["priority"])
      case Some(p) => Success(Clamp(p))
      case None => Failure(PriorityTypeError)
  }

  /**
   * The risk reduction as evidently intended: the level named by a valid level string,
   * and None for a value that is missing, null, or anything else.
   */
  function RiskReduction(raw: Fields): (r: Option<RiskLevel>)
    ensures r.Some? ==> "risk_reduction" in raw && raw["risk_reduction"] == JStr(RiskLevelValue(r.value))
    ensures forall l :: "risk_reduction" in raw && raw["risk_reduction"] == JStr(RiskLevelValue(l)) ==> r == Some(l)
  {
    if "risk_reduction" in raw && raw["risk_reduction"].JStr? then ParseRiskLevel(raw["risk_reduction"].s) else None
  }

  /**
   * The risk reduction as the node computes it: only a truthy value is parsed (an
   * invalid one becoming None), and any other value is handed to the
   * `RiskLevel | None` field unchanged, where everything but null is rejected.
   */
  function RiskReductionAsWritten(raw: Fields): (r: Result<Option<RiskLevel>, string>)
    ensures r.Failure? <==> "risk_reduction" in raw && !Truthy(raw["risk_reduction"]) && !raw["risk_reduction"].JNull?
  {
    if "risk_reduction" !in raw then Success(None)
    else
      var v := raw["risk_reduction"];
      if Truthy(v) then Success(if v.JStr? then ParseRiskLevel(v.s) else None)
      else if v.JNull? then Success(None)
      else Failure(FieldError("risk_reduction"))
  }

  /**
   * The node as written agrees with the intended risk reduction on every value except
   * a falsy one that is not null ("", 0, false, [] or {}), which it rejects. It follows
   * from the two definitions case by case, so Dafny needs no proof steps.
   */
  lemma AsWrittenAgreesElsewhere(raw: Fields)
    ensures RiskReductionAsWritten(raw).Success? ==> RiskReductionAsWritten(raw) == Success(RiskReduction(raw))
  {
  }

  /** A reply whose risk reduction is the empty string: the field is rejected as written. */
  lemma EmptyRiskReductionRejected()
    ensures RiskReductionAsWritten(map["risk_reduction" := JStr("")]).Failure?
    ensures RiskReduction(map["risk_reduction" := JStr("")]) == None
  {
  }

  /**
   * Building one recommendation from an entry's fields, given the risk reduction to
   * store: the priority raises first, then the fields are validated.
   */
  function BuildRecommendation(f: Fields, reduction: Result<Option<RiskLevel>, string>): Result<Recommendation, string>
  {
    match PriorityOf(f)
    case Failure(e) => Failure(e)
    case Success(priority) =>
      match (StrField(f, "clause_id", "unknown"), StrField(f, "action", "Review this clause"),
             StrField(f, "rationale", ""), OptStrField(f, "suggested_text"), reduction)
      case (Success(id), Success(action), Success(rationale), Success(suggested), Success(rr)) =>
        Success(Recommendation(id, priority, action, rationale, suggested, rr))
      case (Failure(e), _, _, _, _) => Failure(e)
      case (_, Failure(e), _, _, _) => Failure(e)
      case (_, _, Failure(e), _, _) => Failure(e)
      case (_, _, _, Failure(e), _) => Failure(e)
      case (_, _, _, _, Failure(e)) => Failure(e)
  }


  /**
   * One pass of the loop, with the intended risk reduction. An entry that is not an
   * object raises, and so does a priority that is present but not a number; the clause
   * id, action, rationale and suggested text must be strings (the last may be null)
   * when present, and get "unknown", "Review this clause", "" and None when missing.
   */
  function RecommendationFromRaw(raw: Json): (r: Result<Recommendation, string>)
    ensures r.Success? <==>
      && raw.JObj?
      && PriorityOf(raw.fields).Success?
      && ("clause_id" in raw.fields ==> raw.fields["clause_id"].JStr?)
      && ("action" in raw.fields ==> raw.fields["action"].JStr?)
      && ("rationale" in raw.fields ==> raw.fields["rationale"].JStr?)
      && ("suggested_text" in raw.fields ==> raw.fields["suggested_text"].JStr? || raw.fields["suggested_text"].JNull?)
    ensures r.Success? ==>
      var rec := r.value;
      && rec.priority == PriorityOf(raw.fields).value
      && rec.riskReduction == RiskReduction(raw.fields)
      && ("clause_id" in raw.fields ==> raw.fields["clause_id"] == JStr(rec.clauseId))
      && ("clause_id" !in raw.fields ==> rec.clauseId == "unknown")
      && ("action" in raw.fields ==> raw.fields["action"] == JStr(rec.action))
      && ("action" !in raw.fields ==> rec.action == "Review this clause")
      && ("rationale" in raw.fields ==> raw.fields["rationale"] == JStr(rec.rationale))
      && ("rationale" !in raw.fields ==> rec.rationale == "")
      && (rec.suggestedText.Some? ==>
            "suggested_text" in raw.fields && raw.fields["suggested_text"] == JStr(rec.suggestedText.value))
      && (rec.suggestedText.None? ==> "suggested_text" !in raw.fields || raw.fields["suggested_text"].JNull?)
  {
    if !raw.JObj? then Failure(NotAnObject)
    else BuildRecommendation(raw.fields, Success(RiskReduction(raw.fields)))
  }

  /**
   * One pass of the loop as written, with the risk reduction handled as the node does.
   * Where it succeeds it builds exactly the intended recommendation, with the same
   * defaults, types and contents; it fails where the intended conversion fails and,
   * beyond that, only on a risk reduction the field rejects.
   */
  function RecommendationFromRawAsWritten(raw: Json): (r: Result<Recommendation, string>)
    ensures r.Success? ==> r == RecommendationFromRaw(raw)
    ensures r.Failure? <==>
      RecommendationFromRaw(raw).Failure? || (raw.JObj? && RiskReductionAsWritten(raw.fields).Failure?)
  {
    if !raw.JObj? then Failure(NotAnObject)
    else
      AsWrittenAgreesElsewhere(raw.fields);
      BuildRecommendation(raw.fields, RiskReductionAsWritten(raw.fields))
  }

  /** An entry with an empty-string risk reduction: rejected as written, accepted as intended. */
  lemma EmptyRiskReductionEntry()
    ensures RecommendationFromRawAsWritten(JObj(map["risk_reduction" := JStr("")])).Failure?
    ensures RecommendationFromRaw(JObj(map["risk_reduction" := JStr("")]))
         == Success(Recommendation("unknown", 3, "Review this clause", "", None, None))
  {
    EmptyRiskReductionRejected();
  }

  /** The conversion the loop over `raw_recommendations` applies to each entry, as intended. */
  const RecommendationEntry: (Json, nat) -> Result<Recommendation, string> :=
    (raw: Json, i: nat) => RecommendationFromRaw(raw)

  /** The conversion the loop applies to each entry, as written. */
  const RecommendationEntryAsWritten: (Json, nat) -> Result<Recommendation, string> :=
    (raw: Json, i: nat) => RecommendationFromRawAsWritten(raw)

  /** Exactly one recommendation per entry, in the order of the entries. */
  lemma OneRecommendationPerEntry(entries: seq<Json>)
    ensures ConvertAll(entries, RecommendationEntry).Success? <==>
      forall i | 0 <= i < |entries| :: RecommendationFromRaw(entries[i]).Success?
    ensures ConvertAll(entries, RecommendationEntry).Success? ==>
      && |ConvertAll(entries, RecommendationEntry).value| == |entries|
      && forall i | 0 <= i < |entries| ::
           ConvertAll(entries, RecommendationEntry).value[i] == RecommendationFromRaw(entries[i]).value
  {
    OneRecordPerEntry(entries, RecommendationEntry);
  }

  /**
   * The loop as written over a list of entries: where it succeeds it yields exactly the
   * intended recommendations, and it succeeds iff every entry converts as intended and
   * none carries a risk reduction the field rejects.
   */
  lemma AsWrittenEntriesAgree(entries: seq<Json>)
    ensures ConvertAll(entries, RecommendationEntryAsWritten).Success? ==>
      ConvertAll(entries, RecommendationEntryAsWritten) == ConvertAll(entries, RecommendationEntry)
    ensures ConvertAll(entries, RecommendationEntryAsWritten).Success? <==>
      forall i | 0 <= i < |entries| ::
        RecommendationFromRaw(entries[i]).Success? && !(entries[i].JObj? && RiskReductionAsWritten(entries[i].fields).Failure?)
  {
    OneRecordPerEntry(entries, RecommendationEntryAsWritten);
    OneRecordPerEntry(entries, RecommendationEntry);
    forall i | 0 <= i < |entries|
      ensures RecommendationEntryAsWritten(entries[i], i).Success? <==>
        RecommendationFromRaw(entries[i]).Success? && !(entries[i].JObj? && RiskReductionAsWritten(entries[i].fields).Failure?)
      ensures RecommendationEntryAsWritten(entries[i], i).Success? ==>
        RecommendationEntryAsWritten(entries[i], i) == RecommendationEntry(entries[i], i)
    {
    }
    if ConvertAll(entries, RecommendationEntryAsWritten).Success? {
      var w := ConvertAll(entries, RecommendationEntryAsWritten).value;
      var v := ConvertAll(entries, RecommendationEntry).value;
      assert |w| == |v|;
      assert forall i | 0 <= i < |w| :: w[i] == v[i];
      assert w == v;
    }
  }

  // ----- the stable sort by priority -----

  predicate SortedByPriority(s: seq<Recommendation>)
  {
    forall i, j | 0 <= i < j < |s| :: s[i].priority <= s[j].priority
  }

  /** The recommendations of priority `p`, in their order in `s`. */
  function WithPriority(s: seq<Recommendation>, p: int): seq<Recommendation>
  {
    if s == [] then [] else (if s[0].priority == p then [s[0]] else []) + WithPriority(s[1..], p)
  }

  /** `x` placed after every element whose priority is not greater than its own. */
  function Insert(s: seq<Recommendation>, x: Recommendation): seq<Recommendation>
  {
    if s == [] then [x]
    else if x.priority < s[0].priority then [x] + s
    else [s[0]] + Insert(s[1..], x)
  }

  /** The stable sort by priority that `list.sort(key=priority)` performs. */
  function SortByPriority(s: seq<Recommendation>): seq<Recommendation>
  {
    if s == [] then [] else Insert(SortByPriority(s[..|s| - 1]), s[|s| - 1])
  }

  lemma {:induction false} WithPriorityAppend(a: seq<Recommendation>, b: seq<Recommendation>, p: int)
    ensures WithPriority(a + b, p) == WithPriority(a, p) + WithPriority(b, p)
  {
    if a != [] {
      var head := if a[0].priority == p then [a[0]] else [];
      assert (a + b)[0] == a[0] && (a + b)[1..] == a[1..] + b;
      assert WithPriority(a + b, p) == head + WithPriority(a[1..] + b, p);
      WithPriorityAppend(a[1..], b, p);
      assert WithPriority(a, p) == head + WithPriority(a[1..], p);
    } else {
      assert a + b == b;
    }
  }

  lemma {:induction false} WithPriorityAbsent(s: seq<Recommendation>, p: int)
    requires forall k | 0 <= k < |s| :: s[k].priority != p
    ensures WithPriority(s, p) == []
  {
    if s != [] {
      WithPriorityAbsent(s[1..], p);
    }
  }

  /** A sorted list stays sorted with an element in front that is not above any of it. */
  lemma SortedCons(h: Recommendation, t: seq<Recommendation>)
    requires SortedByPriority(t)
    requires forall k | 0 <= k < |t| :: h.priority <= t[k].priority
    ensures SortedByPriority([h] + t)
  {
    var s := [h] + t;
    forall i, j | 0 <= i < j < |s| ensures s[i].priority <= s[j].priority {
      if i == 0 {
        assert s[j] == t[j - 1];
      } else {
        assert s[i] == t[i - 1] && s[j] == t[j - 1];
      }
    }
  }

  /** A bound below every element of `s` and below `x` stays below every element after insertion. */
  lemma {:induction false} InsertLowerBound(s: seq<Recommendation>, x: Recommendation, m: int)
    requires m <= x.priority
    requires forall k | 0 <= k < |s| :: m <= s[k].priority
    ensures |Insert(s, x)| == |s| + 1
    ensures forall k | 0 <= k < |Insert(s, x)| :: m <= Insert(s, x)[k].priority
  {
    if s != [] && x.priority >= s[0].priority {
      InsertLowerBound(s[1..], x, m);
    }
  }

  /** Inserting into a sorted list keeps it sorted. */
  lemma {:induction false} InsertSorted(s: seq<Recommendation>, x: Recommendation)
    requires SortedByPriority(s)
    ensures SortedByPriority(Insert(s, x))
  {
    if s == [] {
    } else if x.priority < s[0].priority {
      SortedCons(x, s);
    } else {
      InsertSorted(s[1..], x);
      InsertLowerBound(s[1..], x, s[0].priority);
      SortedCons(s[0], Insert(s[1..], x));
    }
  }

  /** Inserting adds exactly `x`. */
  lemma {:induction false} InsertMultiset(s: seq<Recommendation>, x: Recommendation)
    ensures multiset(Insert(s, x)) == multiset(s) + multiset{x}
  {
    if s != [] && x.priority >= s[0].priority {
      InsertMultiset(s[1..], x);
      assert s == [s[0]] + s[1..];
    }
  }

  lemma SortedTail(s: seq<Recommendation>)
    requires SortedByPriority(s) && s != []
    ensures SortedByPriority(s[1..])
  {
    forall i, j | 0 <= i < j < |s[1..]| ensures s[1..][i].priority <= s[1..][j].priority {
      assert s[1..][i] == s[i + 1] && s[1..][j] == s[j + 1];
    }
  }

  /** When `x` goes in front of a sorted list, nothing in the list shares its priority. */
  lemma InsertInFront(s: seq<Recommendation>, x: Recommendation, p: int)
    requires SortedByPriority(s) && s != [] && x.priority < s[0].priority
    ensures WithPriority(Insert(s, x), p) == WithPriority(s, p) + (if x.priority == p then [x] else [])
  {
    assert ([x] + s)[1..] == s;
    if x.priority == p {
      forall k | 0 <= k < |s| ensures s[k].priority != p {
        assert s[0].priority <= s[k].priority;
      }
      WithPriorityAbsent(s, p);
    }
  }

  /** Inserting into a sorted list puts `x` after every element of its own priority. */
  lemma {:induction false} InsertKeepsOrderWithinPriority(s: seq<Recommendation>, x: Recommendation, p: int)
    requires SortedByPriority(s)
    ensures WithPriority(Insert(s, x), p) == WithPriority(s, p) + (if x.priority == p then [x] else [])
  {
    if s == [] {
    } else if x.priority < s[0].priority {
      InsertInFront(s, x, p);
    } else {
      SortedTail(s);
      InsertKeepsOrderWithinPriority(s[1..], x, p);
      assert ([s[0]] + Insert(s[1..], x))[1..] == Insert(s[1..], x);
    }
  }

  /** The sort orders the recommendations by priority. */
  lemma {:induction false} SortIsSorted(s: seq<Recommendation>)
    ensures SortedByPriority(SortByPriority(s))
  {
    if s != [] {
      SortIsSorted(s[..|s| - 1]);
      InsertSorted(SortByPriority(s[..|s| - 1]), s[|s| - 1]);
    }
  }

  /** The sort is a permutation: it neither drops nor adds a recommendation. */
  lemma {:induction false} SortIsPermutation(s: seq<Recommendation>)
    ensures multiset(SortByPriority(s)) == multiset(s)
  {
    if s != [] {
      var n := |s| - 1;
      assert multiset(s) == multiset(s[..n]) + multiset{s[n]} by {
        assert s == s[..n] + [s[n]];
      }
      SortIsPermutation(s[..n]);
      InsertMultiset(SortByPriority(s[..n]), s[n]);
    }
  }

  /** The sort is stable: the recommendations of each priority keep their input order. */
  lemma {:induction false} SortIsStable(s: seq<Recommendation>, p: int)
    ensures WithPriority(SortByPriority(s), p) == WithPriority(s, p)
  {
    if s != [] {
      var n := |s| - 1;
      SortIsStable(s[..n], p);
      SortIsSorted(s[..n]);
      InsertKeepsOrderWithinPriority(SortByPriority(s[..n]), s[n], p);
      WithPriorityAppend(s[..n], [s[n]], p);
      assert s == s[..n] + [s[n]];
    }
  }

  /** Where `x` lands in a sorted list: before the first element of greater priority. */
  lemma {:induction false} InsertAt(s: seq<Recommendation>, x: Recommendation, j: nat)
    requires j <= |s|
    requires forall k | 0 <= k < j :: s[k].priority <= x.priority
    requires forall k | j <= k < |s| :: s[k].priority > x.priority
    ensures Insert(s, x) == s[..j] + [x] + s[j..]
  {
    if s == [] {
    } else if j == 0 {
      assert s[j..] == s;
    } else {
      InsertAt(s[1..], x, j - 1);
      assert s[1..][..j - 1] == s[1..j];
      assert s[1..][j - 1..] == s[j..];
      assert s[..j] == [s[0]] + s[1..j];
    }
  }

  /** In a sorted list, `x` lands after the elements up to `j` and before the rest. */
  lemma InsertIntoSorted(s: seq<Recommendation>, x: Recommendation, j: nat)
    requires SortedByPriority(s) && j <= |s|
    requires j > 0 ==> s[j - 1].priority <= x.priority
    requires forall k | j <= k < |s| :: s[k].priority > x.priority
    ensures Insert(s, x) == s[..j] + [x] + s[j..]
  {
    assert forall k | 0 <= k < j :: s[k].priority <= x.priority by {
      if j > 0 {
        assert s[j - 1].priority <= x.priority;
      }
    }
    InsertAt(s, x, j);
  }

  /**
   * One step of the insertion sort: `a[i]` moves left past the elements of greater
   * priority just before it, and lands at the returned position.
   */
  method InsertInto(a: array<Recommendation>, i: nat) returns (j: nat)
    requires i < a.Length
    modifies a
    ensures j <= i
    ensures a[..i + 1] == old(a[..j]) + [old(a[i])] + old(a[j..i])
    ensures j > 0 ==> old(a[j - 1]).priority <= old(a[i]).priority
    ensures forall k | j <= k < i :: old(a[k]).priority > old(a[i]).priority
    ensures a[i + 1..] == old(a[i + 1..])
  {
    var x := a[i];
    j := i;
    while j > 0 && a[j - 1].priority > x.priority
      invariant 0 <= j <= i
      invariant forall k | 0 <= k < j :: a[k] == old(a[k])
      invariant forall k | j < k <= i :: a[k] == old(a[k - 1])
      invariant forall k | j <= k < i :: old(a[k]).priority > x.priority
      invariant forall k | i < k < a.Length :: a[k] == old(a[k])
    {
      a[j] := a[j - 1];
      j := j - 1;
    }
    a[j] := x;
    ShiftedPrefix(old(a[..]), a[..], i, j);
  }

  /** The prefix left by the shifting loop, read as slices of the array before it. */
  lemma ShiftedPrefix(before: seq<Recommendation>, after: seq<Recommendation>, i: nat, j: nat)
    requires j <= i < |before| == |after|
    requires forall k | 0 <= k < j :: after[k] == before[k]
    requires after[j] == before[i]
    requires forall k | j < k <= i :: after[k] == before[k - 1]
    ensures after[..i + 1] == before[..j] + [before[i]] + before[j..i]
  {
  }

  /** The step extends the sorted prefix by one element of the input. */
  lemma InsertionStep(input: seq<Recommendation>, i: nat, j: nat, sorted: seq<Recommendation>)
    requires i < |input| && sorted == SortByPriority(input[..i]) && j <= i == |sorted|
    requires j > 0 ==> sorted[j - 1].priority <= input[i].priority
    requires forall k | j <= k < i :: sorted[k].priority > input[i].priority
    ensures sorted[..j] + [input[i]] + sorted[j..] == SortByPriority(input[..i + 1])
  {
    SortIsSorted(input[..i]);
    InsertIntoSorted(sorted, input[i], j);
    assert input[..i + 1][..i] == input[..i];
  }

  /** `recommendations.sort(key=lambda r: r.priority)`, in place, as an insertion sort. */
  method SortInPlace(a: array<Recommendation>)
    modifies a
    ensures a[..] == SortByPriority(old(a[..]))
  {
    ghost var input := a[..];
    var i := 0;
    while i < a.Length
      invariant 0 <= i <= a.Length
      invariant a[..i] == SortByPriority(input[..i])
      invariant a[i..] == input[i..]
    {
      ghost var sorted := a[..i];
      ghost var before := a[..];
      assert a[i] == input[i];
      var j := InsertInto(a, i);
      assert before[..j] == sorted[..j] && before[j..i] == sorted[j..];
      InsertionStep(input, i, j, sorted);
      assert a[..i + 1] == SortByPriority(input[..i + 1]);
      i := i + 1;
    }
    assert input[..i] == input;
    assert a[..] == a[..i];
  }

  /** `sum(1 for r in recommendations if r.priority == p)`. */
  function CountPriority(recs: seq<Recommendation>, p: int): (n: nat)
    ensures n <= |recs|
    ensures n == 0 <==> forall i | 0 <= i < |recs| :: recs[i].priority != p
  {
    if recs == [] then 0
    else CountPriority(recs[..|recs| - 1], p) + (if recs[|recs| - 1].priority == p then 1 else 0)
  }

  /** The progress message: the number of recommendations and how many have priority 1. */
  function GeneratedMessage(recs: seq<Recommendation>): string
  {
    "Generated " + NatToString(|recs|) + " recommendations. "
      + NatToString(CountPriority(recs, 1)) + " are critical priority."
  }

  /**
   * The node's whole update, given the conversion applied to each entry. With no risks
   * the model is not consulted. Otherwise a decoding failure is reported under the
   * parse prefix and every other exception under the generic prefix; on success the
   * converted recommendations are stably sorted by priority and the status moves to
   * "complete".
   */
  function GenerateOutcome(risks: seq<RiskAssessment>, reply: LlmReply, decode: string -> Decoded,
                           convert: (Json, nat) -> Result<Recommendation, string>)
    : (u: NodeUpdate<Recommendation>)
    ensures risks == [] ==> u == Advance([], Complete, NoRisksMessage)
    ensures risks != [] ==>
      && (u.Advance? <==>
            ReadEntries(reply, decode).Success? && ConvertAll(ReadEntries(reply, decode).value, convert).Success?)
      && (u.Advance? ==>
            && u.items == SortByPriority(ConvertAll(ReadEntries(reply, decode).value, convert).value)
            && u.next == Complete
            && u.message == GeneratedMessage(u.items))
      && (ReadEntries(reply, decode).Failure? && ReadEntries(reply, decode).error.ParseFault? ==>
            u == Abort(ParseErrorPrefix + ReadEntries(reply, decode).error.detail))
      && (ReadEntries(reply, decode).Failure? && ReadEntries(reply, decode).error.OtherFault? ==>
            u == Abort(ErrorPrefix + ReadEntries(reply, decode).error.detail))
      && (ReadEntries(reply, decode).Success? && ConvertAll(ReadEntries(reply, decode).value, convert).Failure? ==>
            u == Abort(ErrorPrefix + ConvertAll(ReadEntries(reply, decode).value, convert).error))
  {
    if risks == [] then Advance([], Complete, NoRisksMessage)
    else
      match ReadEntries(reply, decode)
      case Failure(f) => AbortWith(f, ParseErrorPrefix, ErrorPrefix)
      case Success(entries) =>
        match ConvertAll(entries, convert)
        case Failure(e) => Abort(ErrorPrefix + e)
        case Success(recs) =>
          var sorted := SortByPriority(recs);
          Advance(sorted, Complete, GeneratedMessage(sorted))
  }

  /**
   * A reply that decodes to the single entry `{"risk_reduction": ""}`: the node as
   * written fails under the generic prefix, while the intended node completes with the
   * all-default recommendation.
   */
  lemma EmptyRiskReductionAbortsNode(risks: seq<RiskAssessment>, reply: LlmReply, decode: string -> Decoded)
    requires risks != []
    requires ReadEntries(reply, decode) == Success([JObj(map["risk_reduction" := JStr("")])])
    ensures GenerateOutcome(risks, reply, decode, RecommendationEntryAsWritten)
         == Abort(ErrorPrefix + FieldError("risk_reduction"))
    ensures GenerateOutcome(risks, reply, decode, RecommendationEntry).Advance?
    ensures GenerateOutcome(risks, reply, decode, RecommendationEntry).items
         == [Recommendation("unknown", 3, "Review this clause", "", None, None)]
  {
    var entries := [JObj(map["risk_reduction" := JStr("")])];
    var rec := Recommendation("unknown", 3, "Review this clause", "", None, None);
    EmptyRiskReductionEntry();
    assert RecommendationEntryAsWritten(entries[0], 0) == Failure(FieldError("risk_reduction"));
    ConvertOne(entries[0], RecommendationEntryAsWritten);
    assert RecommendationEntry(entries[0], 0) == Success(rec);
    ConvertOne(entries[0], RecommendationEntry);
    assert SortByPriority([rec]) == [rec];
  }

  /** Wherever the node as written completes, it completes exactly as the intended node does. */
  lemma AsWrittenNodeAgrees(risks: seq<RiskAssessment>, reply: LlmReply, decode: string -> Decoded)
    ensures GenerateOutcome(risks, reply, decode, RecommendationEntryAsWritten).Advance? ==>
      GenerateOutcome(risks, reply, decode, RecommendationEntryAsWritten) == GenerateOutcome(risks, reply, decode, RecommendationEntry)
  {
    if risks != [] && ReadEntries(reply, decode).Success? {
      AsWrittenEntriesAgree(ReadEntries(reply, decode).value);
    }
  }

  /**
   * `generate_recommendations`, given the conversion applied to each entry: returns
   * early without risks; otherwise reads the reply, appends one recommendation per
   * entry and sorts the list in place.
   */
  method GenerateRecommendations(risks: seq<RiskAssessment>, reply: LlmReply, decode: string -> Decoded,
                                 convert: (Json, nat) -> Result<Recommendation, string>)
    returns (u: NodeUpdate<Recommendation>)
    ensures u == GenerateOutcome(risks, reply, decode, convert)
  {
    if risks == [] {
      return Advance([], Complete, NoRisksMessage);
    }
    var read := ReadEntries(reply, decode);
    if read.Failure? {
      return AbortWith(read.error, ParseErrorPrefix, ErrorPrefix);
    }
    var entries := read.value;
    var recs: seq<Recommendation> := [];
    var i := 0;
    while i < |entries|
      invariant 0 <= i <= |entries|
      invariant ConvertAll(entries[..i], convert) == Success(recs)
    {
      assert entries[..i + 1][..i] == entries[..i];
      var rec := convert(entries[i], i);
      if rec.Failure? {
        FailureIsFinal(entries, convert, i + 1);
        return Abort(ErrorPrefix + rec.error);
      }
      recs := recs + [rec.value];
      i := i + 1;
    }
    assert entries[..i] == entries;
    var sorted := SortList(recs);
    u := Advance(sorted, Complete, GeneratedMessage(sorted));
  }

  /** The built list, sorted in place: its contents afterwards. */
  method SortList(recs: seq<Recommendation>) returns (sorted: seq<Recommendation>)
    ensures sorted == SortByPriority(recs)
  {
    var list := new Recommendation[|recs|](k requires 0 <= k < |recs| => recs[k]);
    assert list[..] == recs;
    SortInPlace(list);
    sorted := list[..];
  }
}
