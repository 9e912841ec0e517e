/**
 * The task manager: an in-memory store of tasks keyed by id, the allowed state
 * transitions, artifacts, and the per-task subscriber queues that receive a
 * snapshot of the task after every change.
 */
module TaskManagement {
  import opened Wrappers
  import opened JsonValues
  import opened A2A

  /** The two errors the manager raises. */
  datatype Error =
    | TaskNotFound(taskId: string)
    | InvalidStateTransition(from: TaskState, to: TaskState)

  // ---------------------------------------------------------------------------
  // State machine
  // ---------------------------------------------------------------------------

  /** The table of allowed transitions. */
  function ValidTargets(s: TaskState): set<TaskState>
  {
    match s
    case Submitted => {Working, Canceled, Failed}
    case Working => {Completed, Failed, Canceled, InputRequired}
    case InputRequired => {Working, Canceled, Failed}
    case Completed => {}
    case Failed => {}
    case Canceled => {}
  }

  predicate CanTransition(from: TaskState, to: TaskState)
  {
    to in ValidTargets(from)
  }

  /** The states that end a subscriber's stream. */
  predicate IsTerminal(s: TaskState)
  {
    s == Completed || s == Failed || s == Canceled
  }

  /** The states that end a stream are exactly those the table lets nothing leave. */
  lemma TerminalStatesHaveNoExit(s: TaskState)
    ensures IsTerminal(s) <==> ValidTargets(s) == {}
  {
    if !IsTerminal(s) {
      assert Failed in ValidTargets(s);
    }
  }

  /**
   * A live task can always be canceled or failed, a task can never be re-entered
   * into its own state, and nothing leads back to Submitted.
   */
  lemma TransitionTableShape(s: TaskState, t: TaskState)
    ensures !IsTerminal(s) <==> CanTransition(s, Canceled) && CanTransition(s, Failed)
    ensures !CanTransition(s, s)
    ensures !CanTransition(s, Submitted)
    ensures CanTransition(s, Completed) <==> s == Working
  {
  }

  /**
   * The states of one task after each of a series of update attempts: an attempt
   * either is refused and leaves the state as it was, or follows the table.
   */
  ghost predicate IsAttemptTrace(trace: seq<TaskState>)
  {
    forall i | 0 <= i < |trace| - 1 :: IsAttemptStep(trace[i], trace[i + 1])
  }

  /** One update attempt: refused, leaving the state as it was, or allowed by the table. */
  predicate IsAttemptStep(from: TaskState, to: TaskState)
  {
    to == from || CanTransition(from, to)
  }

  /** A trace of attempts extended by the state after one more attempt is still a trace. */
  lemma AttemptTraceExtend(trace: seq<TaskState>, s: TaskState)
    requires IsAttemptTrace(trace) && trace != []
    requires IsAttemptStep(trace[|trace| - 1], s)
    ensures IsAttemptTrace(trace + [s])
  {
    var t := trace + [s];
    forall i | 0 <= i < |t| - 1 ensures IsAttemptStep(t[i], t[i + 1]) {
      if i < |trace| - 1 {
        assert t[i] == trace[i] && t[i + 1] == trace[i + 1];
      }
    }
  }

  /** Once a task is in a terminal state, no later update changes it. */
  lemma {:induction false} TerminalIsFinal(trace: seq<TaskState>, i: nat, j: nat)
    requires IsAttemptTrace(trace)
    requires i <= j < |trace| && IsTerminal(trace[i])
    ensures trace[j] == trace[i]
  {
    if j > i {
      TerminalIsFinal(trace, i, j - 1);
      assert trace[j] == trace[j - 1] || CanTransition(trace[j - 1], trace[j]);
    }
  }

  /** A task that is Submitted at some point has been Submitted all along. */
  lemma {:induction false} SubmittedOnlyAtStart(trace: seq<TaskState>, j: nat)
    requires IsAttemptTrace(trace)
    requires j < |trace| && trace[j] == Submitted
    ensures forall k | 0 <= k <= j :: trace[k] == Submitted
  {
    if j > 0 {
      assert IsAttemptStep(trace[j - 1], trace[j]);
      SubmittedOnlyAtStart(trace, j - 1);
    }
  }

  // ---------------------------------------------------------------------------
  // Snapshots and subscriber streams
  // ---------------------------------------------------------------------------

  /**
   * The snapshot of a task sent to subscribers: everything but the history. It is a
   * value: the artifacts are copied as they are at the moment of the snapshot.
   */
  function Snapshot(t: Task): (r: TaskResult)
    reads t, t.artifacts
    ensures r.id == t.id && r.status == t.status && r.metadata == t.metadata
    ensures |r.artifacts| == |t.artifacts|
    ensures forall i | 0 <= i < |t.artifacts| :: r.artifacts[i] == t.artifacts[i].Data()
  {
    TaskResult(t.id, t.status, ArtifactValues(t.artifacts), t.metadata)
  }

  function ArtifactValues(artifacts: seq<Artifact>): (r: seq<ArtifactData>)
    reads artifacts
    ensures |r| == |artifacts|
    ensures forall i | 0 <= i < |artifacts| :: r[i] == artifacts[i].Data()
  {
    if artifacts == [] then [] else [artifacts[0].Data()] + ArtifactValues(artifacts[1..])
  }

  /**
   * The artifacts of a task are indexed by their position, and so none is held twice.
   * Attaching an artifact keeps this unless the task already holds that artifact.
   */
  ghost predicate IndexedArtifacts(t: Task)
    reads t, t.artifacts
  {
    forall i | 0 <= i < |t.artifacts| :: t.artifacts[i].index == i
  }

  /** A queue of snapshots for one subscriber. */
  class SubscriberQueue {
    var items: seq<TaskResult>

    constructor ()
      ensures items == []
    {
      items := [];
    }

    method Put(r: TaskResult)
      modifies this
      ensures items == old(items) + [r]
    {
      items := items + [r];
    }

    method Get() returns (r: TaskResult)
      requires items != []
      modifies this
      ensures [r] + items == old(items)
    {
      r := items[0];
      items := items[1..];
    }
  }

  /** A registered subscription: its queue and the snapshot it yields first. */
  datatype Subscription = Subscription(taskId: string, queue: SubscriberQueue, bootstrap: TaskResult)

  /** The queued snapshots a subscriber yields: it stops after the first terminal one. */
  function UpToTerminal(queued: seq<TaskResult>): seq<TaskResult>
  {
    if queued == [] then []
    else if IsTerminal(queued[0].status.state) then [queued[0]]
    else [queued[0]] + UpToTerminal(queued[1..])
  }

  /**
   * What a subscriber yields from its queue is the shortest prefix that ends with a
   * terminal snapshot, or all of the queue when none is terminal.
   */
  lemma {:induction false} UpToTerminalIsFirstTerminalPrefix(queued: seq<TaskResult>)
    ensures UpToTerminal(queued) <= queued
    ensures forall i | 0 <= i < |UpToTerminal(queued)| - 1 :: !IsTerminal(UpToTerminal(queued)[i].status.state)
    ensures (forall i | 0 <= i < |queued| - 1 :: !IsTerminal(queued[i].status.state)) <==> UpToTerminal(queued) == queued
    ensures UpToTerminal(queued) == queued
         || (UpToTerminal(queued) != [] && IsTerminal(UpToTerminal(queued)[|UpToTerminal(queued)| - 1].status.state))
  {
    if queued != [] && !IsTerminal(queued[0].status.state) {
      UpToTerminalIsFirstTerminalPrefix(queued[1..]);
      var rest := UpToTerminal(queued[1..]);
      assert UpToTerminal(queued) == [queued[0]] + rest;
      assert queued == [queued[0]] + queued[1..];
      if forall i | 0 <= i < |queued| - 1 :: !IsTerminal(queued[i].status.state) {
        assert forall i | 0 <= i < |queued[1..]| - 1 :: !IsTerminal(queued[1..][i].status.state) by {
          forall i | 0 <= i < |queued[1..]| - 1 ensures !IsTerminal(queued[1..][i].status.state) {
            assert queued[1..][i] == queued[i + 1];
          }
        }
      }
    }
  }

  lemma UpToTerminalStep(r: TaskResult, rest: seq<TaskResult>)
    ensures UpToTerminal([r] + rest) == [r] + (if IsTerminal(r.status.state) then [] else UpToTerminal(rest))
  {
    assert ([r] + rest)[1..] == rest;
  }

  /** Everything a subscriber yields: the bootstrap snapshot, then the queued ones. */
  function Stream(bootstrap: TaskResult, queued: seq<TaskResult>): seq<TaskResult>
  {
    [bootstrap] + UpToTerminal(queued)
  }

  /** The queued part of the stream is the queue up to and including its first terminal snapshot. */
  lemma {:induction false} UpToTerminalStopsAtFirst(queued: seq<TaskResult>, k: nat)
    requires k < |queued| && IsTerminal(queued[k].status.state)
    requires forall i | 0 <= i < k :: !IsTerminal(queued[i].status.state)
    ensures UpToTerminal(queued) == queued[..k + 1]
  {
    if k > 0 {
      assert forall i | 0 <= i < k - 1 :: queued[1..][i] == queued[i + 1];
      UpToTerminalStopsAtFirst(queued[1..], k - 1);
      assert queued[1..][..k] == queued[1..k + 1];
      assert queued[..k + 1] == [queued[0]] + queued[1..k + 1];
    }
  }

  /**
   * The stream ends at the first terminal snapshot taken from the queue, whatever
   * the bootstrap snapshot is: a terminal bootstrap does not end it, so subscribing
   * to a task that is already finished waits for further updates.
   */
  lemma StreamEndsAtFirstTerminalUpdate(bootstrap: TaskResult, queued: seq<TaskResult>, k: nat)
    requires k < |queued| && IsTerminal(queued[k].status.state)
    requires forall i | 0 <= i < k :: !IsTerminal(queued[i].status.state)
    ensures Stream(bootstrap, queued) == [bootstrap] + queued[..k + 1]
  {
    UpToTerminalStopsAtFirst(queued, k);
  }

  /**
   * Reads what is waiting in the queue the way the subscription loop does: take one
   * snapshot, yield it, stop after a terminal one. When it does not stop, the queue
   * is empty and the subscriber would wait for the next update.
   */
  method ReadUpdates(q: SubscriberQueue) returns (yielded: seq<TaskResult>, ended: bool)
    modifies q
    ensures yielded == UpToTerminal(old(q.items))
    ensures old(q.items) == yielded + q.items
    ensures ended <==> yielded != [] && IsTerminal(yielded[|yielded| - 1].status.state)
    ensures !ended ==> q.items == []
  {
    yielded, ended := [], false;
    while !ended && q.items != []
      invariant ReadSoFar(old(q.items), yielded, q.items, ended)
      decreases |q.items|
    {
      ghost var items := q.items;
      var r := q.Get();
      ReadStep(old(q.items), yielded, items, r, q.items);
      yielded := yielded + [r];
      ended := IsTerminal(r.status.state);
    }
    ReadDone(old(q.items), yielded, q.items, ended);
  }

  /** A series of snapshots whose last one is terminal. */
  predicate EndsTerminal(s: seq<TaskResult>)
  {
    s != [] && IsTerminal(s[|s| - 1].status.state)
  }

  /**
   * Part way through reading the queue that held `queued`: `yielded` has been taken
   * from its front, `rest` is still waiting, and `ended` says a terminal one was read.
   */
  predicate ReadSoFar(queued: seq<TaskResult>, yielded: seq<TaskResult>, rest: seq<TaskResult>, ended: bool)
  {
    && queued == yielded + rest
    && UpToTerminal(queued) == yielded + (if ended then [] else UpToTerminal(rest))
    && (ended <==> EndsTerminal(yielded))
  }

  lemma ReadStep(queued: seq<TaskResult>, yielded: seq<TaskResult>, items: seq<TaskResult>, r: TaskResult, rest: seq<TaskResult>)
    requires ReadSoFar(queued, yielded, items, false)
    requires items == [r] + rest
    ensures ReadSoFar(queued, yielded + [r], rest, IsTerminal(r.status.state))
  {
    var e := IsTerminal(r.status.state);
    UpToTerminalStep(r, rest);
    assert UpToTerminal(items) == [r] + (if e then [] else UpToTerminal(rest));
    AppendAssoc(yielded, [r], rest);
    AppendAssoc(yielded, [r], if e then [] else UpToTerminal(rest));
    EndsTerminalAppend(yielded, r);
  }

  lemma AppendAssoc(a: seq<TaskResult>, b: seq<TaskResult>, c: seq<TaskResult>)
    ensures a + (b + c) == (a + b) + c
  {
  }

  lemma EndsTerminalAppend(s: seq<TaskResult>, r: TaskResult)
    ensures EndsTerminal(s + [r]) <==> IsTerminal(r.status.state)
  {
    assert (s + [r])[|s + [r]| - 1] == r;
  }

  lemma ReadDone(queued: seq<TaskResult>, yielded: seq<TaskResult>, rest: seq<TaskResult>, ended: bool)
    requires ReadSoFar(queued, yielded, rest, ended)
    requires ended || rest == []
    ensures yielded == UpToTerminal(queued)
    ensures ended <==> yielded != [] && IsTerminal(yielded[|yielded| - 1].status.state)
  {
  }

  // ---------------------------------------------------------------------------
  // The manager
  // ---------------------------------------------------------------------------

  predicate NoDuplicates<T(==)>(s: seq<T>)
  {
    forall i, j | 0 <= i < j < |s| :: s[i] != s[j]
  }

  /** No queue is registered twice for one task. */
  predicate QueuesDistinct(subscribers: map<string, seq<SubscriberQueue>>)
  {
    forall id | id in subscribers :: NoDuplicates(subscribers[id])
  }

  /** Python's `list.remove`: drops the first occurrence of `x`. */
  function RemoveFirst<T(==)>(s: seq<T>, x: T): seq<T>
  {
    if s == [] then []
    else if s[0] == x then s[1..]
    else [s[0]] + RemoveFirst(s[1..], x)
  }

  /** Removing the element at position `k`, which does not occur earlier, drops exactly that position. */
  lemma {:induction false} RemoveFirstAt<T>(s: seq<T>, k: nat)
    requires k < |s| && s[k] !in s[..k]
    ensures RemoveFirst(s, s[k]) == s[..k] + s[k + 1..]
  {
    if k > 0 {
      assert s[0] in s[..k];
      assert s[1..][k - 1] == s[k] && s[1..][..k - 1] == s[1..k];
      RemoveFirstAt(s[1..], k - 1);
      assert s[..k] == [s[0]] + s[1..k];
    }
  }

  /** In a list without duplicates, `list.remove` leaves a list without duplicates and without `s[k]`. */
  lemma RemoveFirstDistinct<T>(s: seq<T>, k: nat)
    requires k < |s| && NoDuplicates(s)
    ensures NoDuplicates(RemoveFirst(s, s[k]))
    ensures forall y | y in RemoveFirst(s, s[k]) :: y in s
    ensures s[k] !in RemoveFirst(s, s[k])
    ensures |RemoveFirst(s, s[k])| == |s| - 1
  {
    RemoveFirstAt(s, k);
    var r := s[..k] + s[k + 1..];
    assert forall i | 0 <= i < |r| :: r[i] == if i < k then s[i] else s[i + 1];
    forall y | y in r ensures y in s {
      var i :| 0 <= i < |r| && r[i] == y;
    }
  }

  /** Whether a task passes the listing filter: no state given, or the task is in it. */
  predicate Matches(t: Task, state: Option<TaskState>)
    reads t
  {
    state.None? || t.status.state == state.value
  }

  /** Keeps the tasks that pass the filter, in their order. */
  function Filter(ts: seq<Task>, state: Option<TaskState>): (r: seq<Task>)
    reads ts
    ensures forall t | t in r :: t in ts && Matches(t, state)
    ensures forall t | t in ts && Matches(t, state) :: t in r
  {
    if ts == [] then []
    else if Matches(ts[0], state) then [ts[0]] + Filter(ts[1..], state)
    else Filter(ts[1..], state)
  }

  lemma {:induction false} FilterShrinks(ts: seq<Task>, state: Option<TaskState>)
    ensures |Filter(ts, state)| <= |ts|
  {
    if ts != [] {
      FilterShrinks(ts[1..], state);
    }
  }

  /**
   * Filtering keeps creation order: the listing of a longer history is the listing of
   * the shorter one followed by the new task, if it passes.
   */
  lemma {:induction false} FilterAppend(ts: seq<Task>, t: Task, state: Option<TaskState>)
    ensures Filter(ts + [t], state) == Filter(ts, state) + (if Matches(t, state) then [t] else [])
  {
    if ts == [] {
      assert [t][1..] == [];
    } else {
      assert (ts + [t])[1..] == ts[1..] + [t];
      FilterAppend(ts[1..], t, state);
    }
  }

  /** Python's slice `s[:limit]`. */
  function PyPrefix<T>(s: seq<T>, limit: int): (r: seq<T>)
    ensures r <= s
    ensures limit >= 0 ==> |r| == if limit < |s| then limit else |s|
    ensures limit < 0 ==> |r| == if |s| + limit > 0 then |s| + limit else 0
  {
    if limit >= 0 then (if limit < |s| then s[..limit] else s)
    else if |s| + limit > 0 then s[..|s| + limit]
    else []
  }

  /** A list without duplicates has as many distinct elements as entries. */
  lemma {:induction false} DistinctCount<T>(s: seq<T>)
    requires NoDuplicates(s)
    ensures |set x | x in s| == |s|
  {
    if s != [] {
      var rest := s[1..];
      DistinctCount(rest);
      assert (set x | x in s) == {s[0]} + (set x | x in rest);
      assert s[0] !in rest;
    }
  }

  class TaskManager {
    /** The stored tasks by id. */
    var tasks: map<string, Task>
    /** The ids in the order the tasks were created (the iteration order of the store). */
    var order: seq<string>
    /** The registered queues of each task. */
    var subscribers: map<string, seq<SubscriberQueue>>

    /** Every task is stored under its own id; the order and the queues cover exactly the stored ids. */
    ghost predicate Valid()
      reads this
    {
      && (forall id | id in tasks :: tasks[id].id == id)
      && tasks.Keys == subscribers.Keys
      && NoDuplicates(order)
      && (forall i | 0 <= i < |order| :: order[i] in tasks)
      && (forall id | id in tasks :: id in order)
      && QueuesDistinct(subscribers)
    }

    /** The task object stored under `id`, if any: what an update of `id` may change. */
    function TaskObj(id: string): set<Task>
      reads this
    {
      if id in tasks then {tasks[id]} else {}
    }

    /** The queues registered for `id`. */
    function QueuesOf(id: string): seq<SubscriberQueue>
      reads this
    {
      if id in subscribers then subscribers[id] else []
    }

    /** The artifacts of the task stored under `id`. */
    function ArtifactsOf(id: string): seq<Artifact>
      reads this, TaskObj(id)
    {
      if id in tasks then tasks[id].artifacts else []
    }

    constructor ()
      ensures Valid()
      ensures tasks == map[] && order == [] && subscribers == map[]
    {
      tasks := map[];
      order := [];
      subscribers := map[];
    }

    /**
     * Creates a task, or appends the message to the history of the task that
     * already has this id. `newId` stands for the generated id used when no id is given.
     */
    method CreateTask(message: Message, taskId: Option<string>, metadata: Option<Fields>, newId: string, now: nat)
      returns (t: Task)
      requires Valid()
      modifies this, TaskObj(if taskId.Some? then taskId.value else newId)
      ensures Valid()
      ensures var id := if taskId.Some? then taskId.value else newId;
        && id in tasks && tasks[id] == t && t.id == id
        && (id in old(tasks) ==>
              && t == old(tasks[id])
              && tasks == old(tasks) && order == old(order) && subscribers == old(subscribers)
              && t.history == old(t.history) + [message]
              && t.status == old(t.status) && t.artifacts == old(t.artifacts))
        && (id !in old(tasks) ==>
              && fresh(t)
              && tasks == old(tasks)[id := t] && order == old(order) + [id]
              && subscribers == old(subscribers)[id := []]
              && t.status == TaskStatus(Submitted, now) && t.history == [message] && t.artifacts == []
              && t.metadata == (if metadata.Some? then metadata.value else map[]))
    {
      var id := if taskId.Some? then taskId.value else newId;
      if id in tasks {
        t := tasks[id];
        t.history := t.history + [message];
        return;
      }
      t := new Task(id, TaskStatus(Submitted, now), [message], if metadata.Some? then metadata.value else map[]);
      tasks := tasks[id := t];
      order := order + [id];
      subscribers := subscribers[id := []];
    }

    /** Looks a task up by id. */
    function GetTask(id: string): (r: Result<Task, Error>)
      reads this
      ensures r.Failure? <==> id !in tasks
      ensures r.Failure? ==> r.error == TaskNotFound(id)
      ensures r.Success? ==> r.value == tasks[id]
    {
      if id !in tasks then Failure(TaskNotFound(id)) else Success(tasks[id])
    }

    /** The stored tasks in creation order. */
    function TasksInOrder(): seq<Task>
      requires Valid()
      reads this
    {
      TasksOf(order)
    }

    function TasksOf(ids: seq<string>): (ts: seq<Task>)
      requires forall i | 0 <= i < |ids| :: ids[i] in tasks
      reads this
      ensures |ts| == |ids|
      ensures forall t | t in ts :: t in tasks.Values
    {
      if ids == [] then [] else [tasks[ids[0]]] + TasksOf(ids[1..])
    }

    lemma {:induction false} TasksOfAt(ids: seq<string>, k: nat)
      requires forall i | 0 <= i < |ids| :: ids[i] in tasks
      requires k < |ids|
      ensures |TasksOf(ids)| == |ids| && TasksOf(ids)[k] == tasks[ids[k]]
    {
      if k > 0 {
        TasksOfAt(ids[1..], k - 1);
      } else if |ids| > 1 {
        TasksOfAt(ids[1..], 0);
      }
    }

    /**
     * Lists the stored tasks in creation order, keeping those in `state` when a state
     * is given, cut by Python's slice `[:limit]` (a negative limit drops that many
     * from the end).
     */
    function ListTasks(state: Option<TaskState>, limit: int): (r: seq<Task>)
      requires Valid()
      reads this, tasks.Values
      ensures forall t | t in r :: t in tasks.Values && Matches(t, state)
      ensures limit >= 0 ==> |r| <= limit
    {
      PyPrefix(Filter(TasksInOrder(), state), limit)
    }

    /** With a limit no smaller than the number of tasks, every stored task in the state is listed. */
    lemma ListingIsComplete(state: Option<TaskState>, limit: int)
      requires Valid() && limit >= |tasks|
      ensures forall id | id in tasks && Matches(tasks[id], state) :: tasks[id] in ListTasks(state, limit)
    {
      DistinctCount(order);
      assert (set x | x in order) == tasks.Keys;
      FilterShrinks(TasksInOrder(), state);
      if order != [] {
        TasksOfAt(order, 0);
      }
      forall id | id in tasks && Matches(tasks[id], state)
        ensures tasks[id] in ListTasks(state, limit)
      {
        var k :| 0 <= k < |order| && order[k] == id;
        TasksOfAt(order, k);
      }
    }

    /** Puts the current snapshot of task `id` on every queue registered for it. */
    method NotifySubscribers(id: string)
      requires Valid() && id in tasks
      modifies QueuesOf(id)
      ensures forall q | q in QueuesOf(id) :: q.items == old(q.items) + [Snapshot(tasks[id])]
    {
      var result := Snapshot(tasks[id]);
      var qs := subscribers[id];
      var i := 0;
      while i < |qs|
        invariant 0 <= i <= |qs|
        invariant forall k | 0 <= k < i :: qs[k].items == old(qs[k].items) + [result]
        invariant forall k | i <= k < |qs| :: qs[k].items == old(qs[k].items)
      {
        qs[i].Put(result);
        i := i + 1;
      }
    }

    /**
     * What an update of task `id` to `state` does: nothing but the error when the
     * task is missing or the table forbids the move; otherwise a new status, the
     * message (if any) appended to the history, and one snapshot on every queue.
     */
    twostate predicate StatusUpdated(id: string, state: TaskState, message: Option<Message>, now: nat, new r: Result<Task, Error>)
      reads this, TaskObj(id), ArtifactsOf(id), QueuesOf(id)
    {
      && tasks == old(tasks) && order == old(order) && subscribers == old(subscribers)
      && (id !in old(tasks) ==> r == Failure(TaskNotFound(id)))
      && (id in old(tasks) ==>
            var t, from := tasks[id], old(tasks[id].status.state);
            && t.artifacts == old(t.artifacts)
            && (!CanTransition(from, state) ==>
                  && r == Failure(InvalidStateTransition(from, state))
                  && t.status == old(t.status) && t.history == old(t.history)
                  && (forall q | q in QueuesOf(id) :: q.items == old(q.items)))
            && (CanTransition(from, state) ==>
                  && r == Success(t)
                  && t.status == TaskStatus(state, now, message)
                  && t.history == old(t.history) + OptionToSeq(message)
                  && (forall q | q in QueuesOf(id) :: q.items == old(q.items) + [Snapshot(t)])))
    }

    method UpdateStatus(id: string, state: TaskState, message: Option<Message>, now: nat) returns (r: Result<Task, Error>)
      requires Valid()
      modifies TaskObj(id), QueuesOf(id)
      ensures Valid() && StatusUpdated(id, state, message, now, r)
      ensures id in tasks ==> IsAttemptStep(old(tasks[id].status.state), tasks[id].status.state)
    {
      if id !in tasks {
        return Failure(TaskNotFound(id));
      }
      var t := tasks[id];
      var from := t.status.state;
      if !CanTransition(from, state) {
        return Failure(InvalidStateTransition(from, state));
      }
      t.status := TaskStatus(state, now, message);
      if message.Some? {
        t.history := t.history + [message.value];
      }
      NotifySubscribers(id);
      r := Success(t);
    }

    method CancelTask(id: string, now: nat) returns (r: Result<Task, Error>)
      requires Valid()
      modifies TaskObj(id), QueuesOf(id)
      ensures Valid() && StatusUpdated(id, Canceled, Some(CancelMessage), now, r)
    {
      r := UpdateStatus(id, Canceled, Some(CancelMessage), now);
    }

    method FailTask(id: string, error: string, now: nat) returns (r: Result<Task, Error>)
      requires Valid()
      modifies TaskObj(id), QueuesOf(id)
      ensures Valid() && StatusUpdated(id, Failed, Some(FailureMessage(error)), now, r)
    {
      r := UpdateStatus(id, Failed, Some(FailureMessage(error)), now);
    }

    method CompleteTask(id: string, message: Option<Message>, now: nat) returns (r: Result<Task, Error>)
      requires Valid()
      modifies TaskObj(id), QueuesOf(id)
      ensures Valid() && StatusUpdated(id, Completed, message, now, r)
    {
      r := UpdateStatus(id, Completed, message, now);
    }

    /** Attaches an artifact: its index becomes the task's artifact count, then it is appended. */
    method AddArtifact(id: string, artifact: Artifact) returns (r: Result<Task, Error>)
      requires Valid()
      modifies artifact, TaskObj(id), QueuesOf(id)
      ensures Valid()
      ensures tasks == old(tasks) && order == old(order) && subscribers == old(subscribers)
      ensures id !in old(tasks) ==> r == Failure(TaskNotFound(id)) && artifact.index == old(artifact.index)
      ensures id in old(tasks) ==>
        var t := tasks[id];
        && r == Success(t)
        && artifact.index == |old(t.artifacts)|
        && t.artifacts == old(t.artifacts) + [artifact]
        && t.status == old(t.status) && t.history == old(t.history)
        && (forall q | q in QueuesOf(id) :: q.items == old(q.items) + [Snapshot(t)])
      ensures id in old(tasks) && old(IndexedArtifacts(tasks[id])) && artifact !in old(tasks[id].artifacts) ==>
        IndexedArtifacts(tasks[id])
    {
      if id !in tasks {
        return Failure(TaskNotFound(id));
      }
      var t := tasks[id];
      artifact.index := |t.artifacts|;
      t.artifacts := t.artifacts + [artifact];
      NotifySubscribers(id);
      r := Success(t);
    }

    /**
     * Registers a fresh queue for task `id`; the subscription's first item is the
     * snapshot of the task at that moment.
     */
    method Subscribe(id: string) returns (r: Result<Subscription, Error>)
      requires Valid()
      modifies this
      ensures Valid() && tasks == old(tasks) && order == old(order)
      ensures id !in old(tasks) ==> r == Failure(TaskNotFound(id)) && subscribers == old(subscribers)
      ensures id in old(tasks) ==>
        && r.Success? && r.value.taskId == id
        && fresh(r.value.queue) && r.value.queue.items == []
        && subscribers == old(subscribers)[id := old(subscribers[id]) + [r.value.queue]]
        && r.value.bootstrap == Snapshot(tasks[id])
    {
      if id !in tasks {
        return Failure(TaskNotFound(id));
      }
      var q := new SubscriberQueue();
      subscribers := subscribers[id := subscribers[id] + [q]];
      r := Success(Subscription(id, q, Snapshot(tasks[id])));
    }

    /** The clean-up when a subscription ends: its queue is removed. */
    method Unsubscribe(sub: Subscription)
      requires Valid()
      requires sub.taskId in subscribers && sub.queue in subscribers[sub.taskId]
      modifies this
      ensures Valid() && tasks == old(tasks) && order == old(order)
      ensures subscribers == old(subscribers)[sub.taskId := RemoveFirst(old(subscribers[sub.taskId]), sub.queue)]
      ensures sub.queue !in subscribers[sub.taskId]
    {
      var queues := subscribers[sub.taskId];
      ghost var k :| 0 <= k < |queues| && queues[k] == sub.queue;
      RemoveFirstDistinct(queues, k);
      subscribers := subscribers[sub.taskId := RemoveFirst(queues, sub.queue)];
    }
  }

  /** The status message of a cancellation. */
  const CancelMessage := Message(Agent, [TextPart("Task was canceled by request.")])

  /** The status message of a failure. */
  function FailureMessage(error: string): Message
  {
    Message(Agent, [TextPart("Task failed: " + error)])
  }
}
