/**
 * The state the contract-review workflow passes between its nodes, the inputs the
 * nodes receive from foreign code (the model's reply and the JSON decoder), and the
 * reading of a reply that all three nodes share.
 */
module AgentState {
  import opened Wrappers
  import opened JsonValues
  import opened Text
  import opened Clauses

  /** The processing status of a review. */
  datatype Status = Pending | Extracting | Analyzing | Recommending | Complete | Failed

  function StatusValue(s: Status): string
  {
    match s
    case Pending => "pending"
    case Extracting => "extracting"
    case Analyzing => "analyzing"
    case Recommending => "recommending"
    case Complete => "complete"
    case Failed => "failed"
  }

  /** What the call to the language model produced: its reply text, or the exception it raised. */
  datatype LlmReply = Reply(content: string) | CallError(detail: string)

  /** What `json.loads` produced: a value, or the message of its JSONDecodeError. */
  datatype Decoded = Parsed(value: Json) | DecodeError(detail: string)

  /**
   * The state update a node returns: the records it produced with the next status and
   * a progress message, or status "failed" with an error text.
   */
  datatype NodeUpdate<T> =
    | Advance(items: seq<T>, next: Status, message: string)
    | Abort(error: string)

  /** The status a node's update writes into the workflow state. */
  function StatusOf<T>(u: NodeUpdate<T>): (s: Status)
    ensures s == Failed <==> u.Abort? || u.next == Failed
  {
    match u
    case Advance(_, next, _) => next
    case Abort(_) => Failed
  }

  /** Which handler caught a node's exception: the JSONDecodeError one, or the generic one. */
  datatype Fault = ParseFault(detail: string) | OtherFault(detail: string)

  /** The failure update for a fault: the handler's prefix followed by the exception text. */
  function AbortWith<T>(f: Fault, parsePrefix: string, otherPrefix: string): (u: NodeUpdate<T>)
    ensures u.Abort?
    ensures f.ParseFault? ==> u.error == parsePrefix + f.detail
    ensures f.OtherFault? ==> u.error == otherPrefix + f.detail
  {
    match f
    case ParseFault(d) => Abort(parsePrefix + d)
    case OtherFault(d) => Abort(otherPrefix + d)
  }

  /**
   * The text handed to `json.loads`: the fenced block cut out of the reply, then
   * stripped of surrounding whitespace.
   */
  function Payload(content: string): string
  {
    Strip(StripFences(content))
  }

  /** A reply that holds a fence yields a payload with no fence in it. */
  lemma PayloadHasNoFence(content: string)
    requires Contains(content, Fence)
    ensures !Contains(Payload(content), Fence)
  {
    var s := StripFences(content);
    var i, j :| 0 <= i <= j <= |s| && Strip(s) == s[i..j];
    ContainedInSlice(s, Fence, i, j);
  }

  /** A reply whose first ```json opens a block gets exactly that block's text, stripped. */
  lemma FencedReplyPayload(pre: string, p: string, rest: string)
    requires !Contains(pre, JsonFence)
    requires Fenceable(p) && (rest == [] || rest[0] != '`')
    ensures Payload(pre + JsonFence + p + Fence + rest) == Strip(p)
  {
    JsonFenceRoundTrip(pre, p, rest);
  }

  /** A reply with no ```json whose first ``` opens a block gets that block's text, stripped. */
  lemma PlainFencedReplyPayload(pre: string, p: string, rest: string)
    requires forall i | 0 <= i < |pre| :: pre[i] != '`'
    requires Fenceable(p)
    requires !Contains(pre + Fence + p + Fence + rest, JsonFence)
    ensures Payload(pre + Fence + p + Fence + rest) == Strip(p)
  {
    FenceRoundTrip(pre, p, rest);
  }

  /**
   * The part every node shares: take the reply, decode its payload and iterate the
   * decoded value. A failed call and a value that cannot be iterated as entries are
   * caught by the generic handler; only a decoding error reaches the parse handler.
   */
  function ReadEntries(reply: LlmReply, decode: string -> Decoded): (r: Result<seq<Json>, Fault>)
    ensures reply.CallError? ==> r == Failure(OtherFault(reply.detail))
    ensures (r.Failure? && r.error.ParseFault?) <==>
      (reply.Reply? && decode(Payload(reply.content)).DecodeError?)
    ensures r.Success? <==>
      (reply.Reply? && decode(Payload(reply.content)).Parsed?
       && Entries(decode(Payload(reply.content)).value).Success?)
    ensures r.Success? ==> Entries(decode(Payload(reply.content)).value) == Success(r.value)
  {
    match reply
    case CallError(d) => Failure(OtherFault(d))
    case Reply(content) =>
      match decode(Payload(content))
      case DecodeError(d) => Failure(ParseFault(d))
      case Parsed(v) =>
        match Entries(v)
        case Failure(d) => Failure(OtherFault(d))
        case Success(entries) => Success(entries)
  }

  /** The message of the AttributeError raised by `raw.get` on an entry that is not an object. */
  const NotAnObject := "entry has no attribute 'get'"

  /**
   * A `for raw in entries:` loop that appends one converted record per entry, where
   * `convert` receives the entry and its 0-based position: every entry converted in
   * order, or the error of the first entry whose conversion raises.
   */
  function ConvertAll<T>(entries: seq<Json>, convert: (Json, nat) -> Result<T, string>): Result<seq<T>, string>
  {
    if entries == [] then Success([])
    else
      var n := |entries| - 1;
      match ConvertAll(entries[..n], convert)
      case Failure(e) => Failure(e)
      case Success(items) =>
        match convert(entries[n], n)
        case Failure(e) => Failure(e)
        case Success(x) => Success(items + [x])
  }

  /** A single entry converts to a single record, or fails with that entry's error. */
  lemma ConvertOne<T>(x: Json, convert: (Json, nat) -> Result<T, string>)
    ensures convert(x, 0).Success? ==> ConvertAll([x], convert) == Success([convert(x, 0).value])
    ensures convert(x, 0).Failure? ==> ConvertAll([x], convert) == Failure(convert(x, 0).error)
  {
    assert [x][..0] == [];
    assert ConvertAll([x][..0], convert) == Success([]);
    assert [x][0] == x;
    if convert(x, 0).Success? {
      assert [] + [convert(x, 0).value] == [convert(x, 0).value];
    }
  }

  /**
   * Exactly one record per entry, in the same order: the loop succeeds iff every entry
   * converts, and then the record at position i is the one converted from entry i.
   */
  lemma {:induction false} OneRecordPerEntry<T>(entries: seq<Json>, convert: (Json, nat) -> Result<T, string>)
    ensures ConvertAll(entries, convert).Success? <==>
      forall i | 0 <= i < |entries| :: convert(entries[i], i).Success?
    ensures ConvertAll(entries, convert).Success? ==>
      && |ConvertAll(entries, convert).value| == |entries|
      && forall i | 0 <= i < |entries| :: ConvertAll(entries, convert).value[i] == convert(entries[i], i).value
  {
    if entries != [] {
      var n := |entries| - 1;
      var prefix := entries[..n];
      assert forall i | 0 <= i < n :: prefix[i] == entries[i];
      OneRecordPerEntry(prefix, convert);
    }
  }

  /** Once a prefix of the entries has raised, the whole loop ends with that error. */
  lemma {:induction false} FailureIsFinal<T>(entries: seq<Json>, convert: (Json, nat) -> Result<T, string>, k: nat)
    requires k <= |entries| && ConvertAll(entries[..k], convert).Failure?
    ensures ConvertAll(entries, convert) == ConvertAll(entries[..k], convert)
    decreases |entries| - k
  {
    if k < |entries| {
      assert entries[..k + 1][..k] == entries[..k];
      FailureIsFinal(entries, convert, k + 1);
    } else {
      assert entries[..k] == entries;
    }
  }

  /** `ContractInput`: the task id, the contract text and the caller's metadata. */
  datatype ContractInput = ContractInput(taskId: string, contractText: string, metadata: Fields := map[])

  /** `ContractOutput`: the analysis, whether it succeeded and the error text if not. */
  datatype ContractOutput = ContractOutput(
    taskId: string,
    analysis: ContractAnalysis,
    success: bool := true,
    error: Option<string> := None)

  /** The workflow state once the graph has stopped. */
  datatype FinalState = FinalState(
    status: Status,
    error: Option<string>,
    clauses: seq<ExtractedClause>,
    risks: seq<RiskAssessment>,
    recommendations: seq<Recommendation>)
}
