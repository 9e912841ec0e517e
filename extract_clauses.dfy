/**
 * The clause-extraction node: the model's reply is read as a JSON list and each entry
 * becomes an ExtractedClause, with a type fallback and position-based defaults.
 */
module ExtractClausesNode {
  import opened Wrappers
  import opened JsonValues
  import opened Text
  import opened Clauses
  import opened AgentState

  const ParseErrorPrefix := "Failed to parse extracted clauses: "
  const ErrorPrefix := "Clause extraction error: "

  /** The text of a random UUID, `str(uuid4())`: always 36 characters. */
  type Uuid = s: string | |s| == 36 witness "00000000-0000-0000-0000-000000000000"

  /**
   * `ClauseType(raw.get("type", "other"))`, with OTHER when the value is not one of the
   * enum's values: the type is OTHER unless the entry names another member exactly.
   */
  function TypeOf(raw: Fields): (t: ClauseType)
    ensures t != Other ==> "type" in raw && raw["type"] == JStr(ClauseTypeValue(t))
    ensures forall u :: "type" in raw && raw["type"] == JStr(ClauseTypeValue(u)) ==> t == u
  {
    if "type" in raw && raw["type"].JStr? && ParseClauseType(raw["type"].s).Some? then
      ParseClauseType(raw["type"].s).value
    else
      Other
  }

  function DefaultTitle(i: nat): string
  {
    "Clause " + NatToString(i + 1)
  }

  function DefaultLocation(i: nat): string
  {
    "Section " + NatToString(i + 1)
  }

  /**
   * One pass of the loop: the clause built from the entry at 0-based position `i`.
   * An entry that is not an object, or whose title, text or location is present but
   * not a string, raises; a missing title, text or location gets its default.
   */
  function ClauseFromRaw(raw: Json, i: nat, uuid: Uuid): (r: Result<ExtractedClause, string>)
    ensures r.Success? <==>
      && raw.JObj?
      && ("title" in raw.fields ==> raw.fields["title"].JStr?)
      && ("text" in raw.fields ==> raw.fields["text"].JStr?)
      && ("location" in raw.fields ==> raw.fields["location"].JStr?)
    ensures r.Success? ==>
      var c := r.value;
      && c.id == uuid[..8] && |c.id| == 8
      && c.clauseType == TypeOf(raw.fields)
      && ("title" in raw.fields ==> raw.fields["title"] == JStr(c.title))
      && ("title" !in raw.fields ==> c.title == DefaultTitle(i))
      && ("text" in raw.fields ==> raw.fields["text"] == JStr(c.text))
      && ("text" !in raw.fields ==> c.text == "")
      && ("location" in raw.fields ==> raw.fields["location"] == JStr(c.location))
      && ("location" !in raw.fields ==> c.location == DefaultLocation(i))
      && c.metadata == map[]
  {
    if !raw.JObj? then Failure(NotAnObject)
    else
      var f := raw.fields;
      match (StrField(f, "title", DefaultTitle(i)), StrField(f, "text", ""), StrField(f, "location", DefaultLocation(i)))
      case (Success(title), Success(text), Success(location)) =>
        Success(ExtractedClause(uuid[..8], TypeOf(f), title, text, location))
      case (Failure(e), _, _) => Failure(e)
      case (_, Failure(e), _) => Failure(e)
      case (_, _, Failure(e)) => Failure(e)
  }

  /** The conversion the loop over `enumerate(raw_clauses)` applies to each entry. */
  function ClauseAt(uuids: nat -> Uuid): (Json, nat) -> Result<ExtractedClause, string>
  {
    (raw: Json, i: nat) => ClauseFromRaw(raw, i, uuids(i))
  }

  /**
   * Exactly one clause per entry, in the same order: the loop succeeds iff every entry
   * converts, and then clause i is the one built from entry i with the i-th uuid.
   */
  lemma OneClausePerEntry(entries: seq<Json>, uuids: nat -> Uuid)
    ensures ConvertAll(entries, ClauseAt(uuids)).Success? <==>
      forall i | 0 <= i < |entries| :: ClauseFromRaw(entries[i], i, uuids(i)).Success?
    ensures ConvertAll(entries, ClauseAt(uuids)).Success? ==>
      && |ConvertAll(entries, ClauseAt(uuids)).value| == |entries|
      && forall i | 0 <= i < |entries| ::
           ConvertAll(entries, ClauseAt(uuids)).value[i] == ClauseFromRaw(entries[i], i, uuids(i)).value
  {
    OneRecordPerEntry(entries, ClauseAt(uuids));
  }

  /** The progress message of a successful extraction. */
  function ExtractedMessage(n: nat): string
  {
    "Extracted " + NatToString(n) + " clauses from the contract."
  }

  /**
   * The node's whole update. A decoding failure is reported under the parse prefix and
   * every other exception under the generic prefix; on success the status moves to
   * "analyzing" and the message counts the clauses produced.
   */
  function ExtractOutcome(reply: LlmReply, decode: string -> Decoded, uuids: nat -> Uuid)
    : (u: NodeUpdate<ExtractedClause>)
    ensures u.Advance? <==>
      ReadEntries(reply, decode).Success? && ConvertAll(ReadEntries(reply, decode).value, ClauseAt(uuids)).Success?
    ensures u.Advance? ==>
      && u.items == ConvertAll(ReadEntries(reply, decode).value, ClauseAt(uuids)).value
      && u.next == Analyzing
      && u.message == ExtractedMessage(|u.items|)
    ensures ReadEntries(reply, decode).Failure? && ReadEntries(reply, decode).error.ParseFault? ==>
      u == Abort(ParseErrorPrefix + ReadEntries(reply, decode).error.detail)
    ensures ReadEntries(reply, decode).Failure? && ReadEntries(reply, decode).error.OtherFault? ==>
      u == Abort(ErrorPrefix + ReadEntries(reply, decode).error.detail)
    ensures ReadEntries(reply, decode).Success? && ConvertAll(ReadEntries(reply, decode).value, ClauseAt(uuids)).Failure? ==>
      u == Abort(ErrorPrefix + ConvertAll(ReadEntries(reply, decode).value, ClauseAt(uuids)).error)
  {
    match ReadEntries(reply, decode)
    case Failure(f) => AbortWith(f, ParseErrorPrefix, ErrorPrefix)
    case Success(entries) =>
      match ConvertAll(entries, ClauseAt(uuids))
      case Failure(e) => Abort(ErrorPrefix + e)
      case Success(clauses) => Advance(clauses, Analyzing, ExtractedMessage(|clauses|))
  }

  /**
   * `extract_clauses`: reads the reply, then builds the clause list by appending one
   * clause per entry.
   */
  method ExtractClauses(reply: LlmReply, decode: string -> Decoded, uuids: nat -> Uuid)
    returns (u: NodeUpdate<ExtractedClause>)
    ensures u == ExtractOutcome(reply, decode, uuids)
  {
    var read := ReadEntries(reply, decode);
    if read.Failure? {
      return AbortWith(read.error, ParseErrorPrefix, ErrorPrefix);
    }
    var entries := read.value;
    var clauses: seq<ExtractedClause> := [];
    var i := 0;
    while i < |entries|
      invariant 0 <= i <= |entries|
      invariant ConvertAll(entries[..i], ClauseAt(uuids)) == Success(clauses)
    {
      assert entries[..i + 1][..i] == entries[..i];
      var clause := ClauseFromRaw(entries[i], i, uuids(i));
      if clause.Failure? {
        FailureIsFinal(entries, ClauseAt(uuids), i + 1);
        return Abort(ErrorPrefix + clause.error);
      }
      clauses := clauses + [clause.value];
      i := i + 1;
    }
    assert entries[..i] == entries;
    u := Advance(clauses, Analyzing, ExtractedMessage(|clauses|));
  }
}
