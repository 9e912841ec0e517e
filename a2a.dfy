/**
 * The A2A task records: task states, message parts, messages, statuses, artifacts,
 * tasks and the task snapshot sent to subscribers. Task and Artifact are classes
 * because the task manager updates them in place and hands the live objects back.
 */
module A2A {
  import opened Wrappers
  import opened JsonValues

  /** The six states of a task. */
  datatype TaskState = Submitted | Working | InputRequired | Completed | Failed | Canceled

  /** The wire value of each state. */
  function TaskStateValue(s: TaskState): string
  {
    match s
    case Submitted => "submitted"
    case Working => "working"
    case InputRequired => "input-required"
    case Completed => "completed"
    case Failed => "failed"
    case Canceled => "canceled"
  }

  /** `TaskState(v)`: the state whose value is `v`; any other string is rejected. */
  function ParseTaskState(v: string): (r: Option<TaskState>)
    ensures r.Some? ==> TaskStateValue(r.value) == v
    ensures forall s :: TaskStateValue(s) == v ==> r == Some(s)
  {
    if v == "submitted" then Some(Submitted)
    else if v == "working" then Some(Working)
    else if v == "input-required" then Some(InputRequired)
    else if v == "completed" then Some(Completed)
    else if v == "failed" then Some(Failed)
    else if v == "canceled" then Some(Canceled)
    else None
  }

  /** The two roles a message may carry. */
  datatype Role = User | Agent

  function RoleValue(r: Role): string
  {
    match r
    case User => "user"
    case Agent => "agent"
  }

  /** Validation of `Message.role`: only "user" and "agent" are accepted. */
  function ParseRole(v: string): (r: Option<Role>)
    ensures r.Some? <==> (v == "user" || v == "agent")
    ensures r.Some? ==> RoleValue(r.value) == v
  {
    if v == "user" then Some(User)
    else if v == "agent" then Some(Agent)
    else None
  }

  /** A content part: exactly one of text, file or structured data. */
  datatype Part =
    | TextPart(text: string)
    | FilePart(file: Fields)
    | DataPart(data: Fields)

  /** The fixed `type` tag each kind of part carries. */
  function PartType(p: Part): (tag: string)
    ensures tag == "text" <==> p.TextPart?
    ensures tag == "file" <==> p.FilePart?
    ensures tag == "data" <==> p.DataPart?
  {
    match p
    case TextPart(_) => "text"
    case FilePart(_) => "file"
    case DataPart(_) => "data"
  }

  datatype Message = Message(role: Role, parts: seq<Part>, metadata: Fields := map[])

  /** A status: the state, when it was set, and an optional message (None by default). */
  datatype TaskStatus = TaskStatus(state: TaskState, timestamp: nat, message: Option<Message> := None)

  /** The value of an artifact at the moment it is copied into a snapshot. */
  datatype ArtifactData = ArtifactData(
    name: string,
    description: Option<string>,
    parts: seq<Part>,
    index: int,
    metadata: Fields)

  /** The snapshot of a task: id, status, artifacts and metadata, but not the history. */
  datatype TaskResult = TaskResult(
    id: string,
    status: TaskStatus,
    artifacts: seq<ArtifactData>,
    metadata: Fields)

  /** An output of a task; the task manager writes its `index` when attaching it. */
  class Artifact {
    const name: string
    const description: Option<string>
    const parts: seq<Part>
    const metadata: Fields
    var index: int

    constructor (name: string, parts: seq<Part>, description: Option<string> := None, metadata: Fields := map[])
      ensures this.name == name && this.parts == parts && this.metadata == metadata
      ensures this.description == description && index == 0
    {
      this.name := name;
      this.parts := parts;
      this.description := description;
      this.metadata := metadata;
      index := 0;
    }

    function Data(): ArtifactData
      reads this
    {
      ArtifactData(name, description, parts, index, metadata)
    }
  }

  /** A task record; artifacts, history and metadata default to empty. */
  class Task {
    const id: string
    var status: TaskStatus
    var artifacts: seq<Artifact>
    var history: seq<Message>
    const metadata: Fields

    constructor (id: string, status: TaskStatus, history: seq<Message> := [], metadata: Fields := map[])
      ensures this.id == id && this.status == status && this.history == history
      ensures this.metadata == metadata && artifacts == []
    {
      this.id := id;
      this.status := status;
      this.history := history;
      this.metadata := metadata;
      artifacts := [];
    }
  }
}
