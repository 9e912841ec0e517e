# Sae task lifecycle and contract-review pipeline, in Dafny

This project models two parts of Sae, an A2A agent that reviews contracts.

**The task manager.** This is the in-memory store of A2A tasks that the HTTP layer and the background pipeline share.
- It creates tasks, or appends to an existing task's history when the id is already taken.
- It moves a task between states under a fixed transition table and attaches artifacts.
- It lists tasks with a state filter and a limit.
- It keeps per-task subscriber queues. After every committed change, each queue gets a snapshot of the task. A subscriber first receives a bootstrap snapshot, then reads queued snapshots until a terminal one.

The manager is a class with `modifies` clauses, as are the tasks and artifacts it updates in place. Its structural invariant `Valid()` says:
- every task is stored under its own id;
- creation order, the task map and the subscriber map cover the same ids;
- no queue is registered twice.

**The deterministic part of the contract-review workflow.** This is what surrounds the three language-model calls.
- Each node cuts the JSON payload out of the model's reply, decodes it, and converts each entry into a clause, a risk assessment or a recommendation. Entries get type and level fallbacks, defaults for missing fields, pydantic's field checks, and priority clamping.
- The recommendation list is stably sorted by priority. The model sorts an array in place and proves the result equal to a reference stable sort. That sort is proved sorted, a permutation, and stable within each priority.
- The router (`should_continue`) picks the next node from the status. The edges the graph declares are checked against every update the nodes can return.
- `run_contract_review` assembles the final output: the overall risk is the most severe level found, and the summary is built from count sentences.

The three node bodies are methods with loops, each proved equal to a function. The function's contract states the node's observable behaviour:
- which exception handler a failure reaches, with its message prefix;
- one record per entry, in order;
- the next status;
- the progress message.

Behaviours of the code a reader might not expect, which the model keeps:
- A subscriber whose bootstrap snapshot is already terminal keeps waiting for queued updates (`StreamEndsAtFirstTerminalUpdate`).
- Unsubscribing removes the queue with `list.remove`, which is not idempotent.
- No dead queue is ever pruned on a failed delivery.
- Re-attaching an artifact object the task already holds rewrites its index, so the `artifacts[i].index == i` invariant holds only while each artifact is attached once (`AddArtifact`).

## Model

| member | source | states |
|---|---|---|
| A2A.ParseTaskState | src/sae/models/a2a.py:63-71 | `TaskState(v)` accepts exactly the six wire values and returns the state whose value is `v` |
| A2A.ParseRole | src/sae/models/a2a.py:101 | a message role is accepted iff it is "user" or "agent", and parsing returns the role with that value |
| A2A.PartType | src/sae/models/a2a.py:74-95 | each kind of part carries its own fixed `type` tag, and the tag identifies the kind |
| A2A.Artifact.constructor | src/sae/models/a2a.py:114-121 | a new artifact stores its name, parts, description and metadata, with index 0 by default |
| A2A.Task.constructor | src/sae/models/a2a.py:124-131 | a new task stores its id, status, history and metadata and starts with no artifacts |
| TaskManagement.TerminalStatesHaveNoExit | src/sae/services/task_manager.py:41-53 | the states that end a subscription (completed, failed, canceled) are exactly those the table lets nothing leave |
| TaskManagement.TransitionTableShape | src/sae/services/task_manager.py:41-53 | a live task can always be canceled or failed; no state leads to itself or back to submitted; only working leads to completed |
| TaskManagement.TerminalIsFinal | src/sae/services/task_manager.py:144-160 | over any series of update attempts, each refused or following the table, a task in a terminal state stays in it |
| TaskManagement.AttemptTraceExtend | src/sae/services/task_manager.py:144-160 | a series of update attempts extended by one more attempt, refused or following the table, is still such a series |
| TaskManagement.SubmittedOnlyAtStart | src/sae/services/task_manager.py:144-160 | over any series of update attempts, a task that is submitted at some point was submitted at every earlier point |
| TaskManagement.Snapshot | src/sae/services/task_manager.py:311-318 | the snapshot carries the task's id, status, metadata and the current value of each artifact, in order, and not the history |
| TaskManagement.SubscriberQueue.constructor | src/sae/services/task_manager.py:274 | a new queue is empty |
| TaskManagement.SubscriberQueue.Put | src/sae/services/task_manager.py:309 | putting appends the snapshot at the back of the queue |
| TaskManagement.SubscriberQueue.Get | src/sae/services/task_manager.py:286 | getting removes and returns the front of a non-empty queue |
| TaskManagement.UpToTerminalIsFirstTerminalPrefix | src/sae/services/task_manager.py:285-294 | what a subscriber yields from its queue is a prefix of it, with no terminal snapshot before its last item; it is the whole queue iff no terminal snapshot comes before the last one, and otherwise it ends with a terminal snapshot |
| TaskManagement.StreamEndsAtFirstTerminalUpdate | src/sae/services/task_manager.py:279-294 | the stream is the bootstrap snapshot followed by the queue up to and including its first terminal snapshot, whatever state the bootstrap snapshot is in |
| TaskManagement.ReadUpdates | src/sae/services/task_manager.py:285-294 | the subscription loop takes exactly the stream's queued part from the queue and leaves the rest; it reports the stream ended iff the last snapshot it yielded is terminal, and when it has not ended the queue is empty |
| TaskManagement.RemoveFirstDistinct | src/sae/services/task_manager.py:295-298 | in a queue list without duplicates, `list.remove` removes exactly that queue, keeps the others and leaves no duplicates |
| TaskManagement.Filter | src/sae/services/task_manager.py:336-337 | the filtered tasks are exactly the tasks in the given state, or all tasks when no state is given |
| TaskManagement.FilterShrinks | src/sae/services/task_manager.py:336-337 | filtering never lengthens the list |
| TaskManagement.FilterAppend | src/sae/services/task_manager.py:334-337 | filtering keeps creation order: the listing of a longer history is the earlier listing followed by the new task if it passes |
| TaskManagement.PyPrefix | src/sae/services/task_manager.py:339 | the slice `[:limit]` is a prefix of length `min(limit, n)` for a non-negative limit, and drops `-limit` items from the end for a negative one |
| TaskManagement.TaskManager.constructor | src/sae/services/task_manager.py:59-63 | a new manager holds no tasks and no subscribers and is valid |
| TaskManagement.TaskManager.CreateTask | src/sae/services/task_manager.py:81-105 | an existing id gets the message appended to its history and nothing else changes; a new id gets a fresh submitted task with the message as its history, the given metadata or an empty one, and an empty queue list; the id is generated when none is given |
| TaskManagement.TaskManager.GetTask | src/sae/services/task_manager.py:119-121 | a lookup fails with TaskNotFound iff the id is not stored, and otherwise returns the stored task |
| TaskManagement.TaskManager.ListTasks | src/sae/services/task_manager.py:334-339 | every listed task is stored and passes the filter, and a non-negative limit bounds the count |
| TaskManagement.TaskManager.ListingIsComplete | src/sae/services/task_manager.py:334-339 | with a limit no smaller than the number of tasks, every stored task in the requested state is listed |
| TaskManagement.TaskManager.NotifySubscribers | src/sae/services/task_manager.py:300-309 | every queue registered for the task gets the task's current snapshot appended |
| TaskManagement.TaskManager.UpdateStatus | src/sae/services/task_manager.py:143-175 | a missing task fails with TaskNotFound; a move the table forbids fails with InvalidStateTransition and changes nothing; an allowed move sets the new status, appends the message if any, and puts one snapshot on every queue; either way the task's state after the call is one update attempt away from its state before, so the calls on a task form the series `TerminalIsFinal` and `SubmittedOnlyAtStart` are about |
| TaskManagement.TaskManager.CancelTask | src/sae/services/task_manager.py:209-225 | cancelling is an update to canceled with the fixed cancellation message |
| TaskManagement.TaskManager.FailTask | src/sae/services/task_manager.py:227-244 | failing is an update to failed with the message "Task failed: " followed by the reason |
| TaskManagement.TaskManager.CompleteTask | src/sae/services/task_manager.py:246-260 | completing is an update to completed with the optional message |
| TaskManagement.TaskManager.AddArtifact | src/sae/services/task_manager.py:191-207 | a missing task fails with TaskNotFound; otherwise the artifact's index becomes the previous artifact count, it is appended, status and history are unchanged, every queue gets a snapshot, and positional indexing is kept when the artifact was not already attached |
| TaskManagement.TaskManager.Subscribe | src/sae/services/task_manager.py:271-282 | a missing task fails with TaskNotFound; otherwise a fresh empty queue is appended to the task's queues and the bootstrap snapshot is the task's snapshot at that moment |
| TaskManagement.TaskManager.Unsubscribe | src/sae/services/task_manager.py:295-298 | the subscription's queue is removed with `list.remove`, so it is no longer registered, and nothing else changes |
| Clauses.ParseClauseType | src/sae/models/clauses.py:9-27 | `ClauseType(v)` accepts exactly the sixteen wire values and returns the type whose value is `v` |
| Clauses.ClauseTypesEnumerated | src/sae/models/clauses.py:9-27 | there are exactly sixteen clause types, each listed once, with pairwise distinct values |
| Clauses.ParseRiskLevel | src/sae/models/clauses.py:30-36 | `RiskLevel(v)` accepts exactly the four wire values and returns the level whose value is `v` |
| Clauses.NewRecommendation | src/sae/models/clauses.py:71-85 | a recommendation is accepted iff its priority is within 1..5, and then every field is stored as given |
| Clauses.CountLevel | src/sae/agents/contract_review.py:163-164 | the count of assessments at a level is at most their number, and is zero iff no assessment has that level |
| JsonValues.Get | src/sae/agents/nodes/generate_recommendations.py:141 | `raw.get(key)` returns the stored value iff the key is present, and None otherwise |
| JsonValues.StrField | src/sae/agents/nodes/extract_clauses.py:120-122 | a pydantic `str` field fed from `raw.get(key, default)` accepts a missing key, which gives the default, or a JSON string, which is kept; any other value is rejected |
| JsonValues.OptStrField | src/sae/agents/nodes/generate_recommendations.py:153 | a `str \| None` field accepts a missing key or null, which give None, or a JSON string, which is kept; any other value is rejected |
| JsonValues.StrListField | src/sae/agents/nodes/analyze_risks.py:137 | a `list[str]` field fed from `raw.get(key, [])` accepts a missing key, which gives [], or an array of strings; any other value is rejected |
| JsonValues.AsInt | src/sae/agents/nodes/analyze_risks.py:136 | `min`/`max` against a number succeed exactly on ints and bools (a bool counts as 0 or 1) |
| JsonValues.Entries | src/sae/agents/nodes/extract_clauses.py:110 | iterating the decoded value and calling `.get` on each item leaves a list of entries iff the value is an array, an empty object or an empty string; an array gives its items |
| Text.Find | src/sae/agents/nodes/extract_clauses.py:101 | the result is -1 iff the pattern does not occur, and otherwise is its first occurrence |
| Text.StripFences | src/sae/agents/nodes/extract_clauses.py:101-104 | a reply holding a fence yields a piece with no fence in it; a reply without one is kept whole |
| Text.JsonFenceRoundTrip | src/sae/agents/nodes/extract_clauses.py:101-102 | a reply whose first "```json" opens a block that holds a fence-free payload and is then closed yields exactly that payload, whatever text comes before the block and whatever follows it (unless that starts with a backtick) |
| Text.FenceRoundTrip | src/sae/agents/nodes/extract_clauses.py:101-104 | a reply with no "```json", whose first "```" follows backtick-free text and opens a block holding a fence-free payload, yields exactly that payload |
| Text.Strip | src/sae/agents/nodes/extract_clauses.py:106 | `str.strip()` returns a slice of its input with only whitespace cut on either side, and the slice neither starts nor ends with whitespace |
| Text.NatToString | src/sae/agents/nodes/extract_clauses.py:136 | the decimal rendering of a count consists of digits, denotes the count, and has no leading zero |
| AgentState.StatusOf | src/sae/agents/nodes/extract_clauses.py:132-151 | a node's update sets status "failed" iff it is a failure update or names "failed" as the next status |
| AgentState.AbortWith | src/sae/agents/nodes/extract_clauses.py:140-151 | a decoding error is reported under the parse prefix and any other exception under the generic prefix, each followed by the exception text |
| AgentState.PayloadHasNoFence | src/sae/agents/nodes/extract_clauses.py:101-106 | the text handed to `json.loads` from a fenced reply holds no fence |
| AgentState.FencedReplyPayload | src/sae/agents/nodes/extract_clauses.py:101-106 | the text decoded from a reply whose first "```json" opens a block is that block's payload, stripped, whatever comes before the block |
| AgentState.PlainFencedReplyPayload | src/sae/agents/nodes/extract_clauses.py:101-106 | the text decoded from a reply with no "```json", whose first "```" opens a block after backtick-free text, is that block's payload, stripped |
| AgentState.ReadEntries | src/sae/agents/nodes/extract_clauses.py:96-110 | a failed model call and a value that cannot be iterated into entries reach the generic handler; only a decoding error reaches the parse handler; on success the entries are those of the decoded payload |
| AgentState.OneRecordPerEntry | src/sae/agents/nodes/extract_clauses.py:109-124 | the conversion loop succeeds iff every entry converts, and then yields exactly one record per entry, in the entries' order |
| AgentState.FailureIsFinal | src/sae/agents/nodes/extract_clauses.py:109-124 | once an entry's conversion raises, the whole loop ends with that error |
| ExtractClausesNode.TypeOf | src/sae/agents/nodes/extract_clauses.py:111-115 | the clause type is "other" unless the entry's "type" is exactly the value of another type, which is then used |
| ExtractClausesNode.ClauseFromRaw | src/sae/agents/nodes/extract_clauses.py:117-123 | an entry converts iff it is an object whose title, text and location are strings where present; the clause id is the first 8 characters of a fresh UUID; missing fields default to "Clause i+1", "" and "Section i+1"; metadata is empty |
| ExtractClausesNode.OneClausePerEntry | src/sae/agents/nodes/extract_clauses.py:109-124 | extraction yields one clause per entry, in order, built from that entry, its position and its own UUID, iff every entry converts |
| ExtractClausesNode.ExtractOutcome | src/sae/agents/nodes/extract_clauses.py:84-151 | the node advances to "analyzing" with the converted clauses and the count message iff the reply decodes into entries that all convert; otherwise it fails under the parse or generic prefix as the fault dictates |
| ExtractClausesNode.ExtractClauses | src/sae/agents/nodes/extract_clauses.py:84-151 | the node's loop produces exactly the update described by `ExtractOutcome` |
| AnalyzeRisksNode.LevelOf | src/sae/agents/nodes/analyze_risks.py:127-131 | the risk level is "low" unless the entry's "risk_level" is exactly the value of another level, which is then used |
| AnalyzeRisksNode.RiskFromRaw | src/sae/agents/nodes/analyze_risks.py:133-140 | an entry converts iff it is an object whose confidence is a number and whose clause id, issues, explanation and affected party have string types where present; missing fields default to "unknown", [], "" and "both" |
| AnalyzeRisksNode.OneRiskPerEntry | src/sae/agents/nodes/analyze_risks.py:125-141 | the node yields one assessment per entry, in order, iff every entry converts |
| AnalyzeRisksNode.RiskCountsPartition | src/sae/agents/nodes/analyze_risks.py:144-149 | the critical, high, medium and low counts add up to the number of assessments |
| AnalyzeRisksNode.AnalyzeOutcome | src/sae/agents/nodes/analyze_risks.py:80-178 | with no clauses the node advances to "recommending" with no risks, whatever the reply; otherwise it advances with the converted assessments and the count message iff the reply decodes into entries that all convert, and else fails under the matching prefix |
| AnalyzeRisksNode.AnalyzeRisks | src/sae/agents/nodes/analyze_risks.py:80-178 | the node's loop produces exactly the update described by `AnalyzeOutcome` |
| GenerateRecommendationsNode.Clamp | src/sae/agents/nodes/generate_recommendations.py:150 | `min(max(p, 1), 5)` is `p` within 1..5, 1 below and 5 above |
| GenerateRecommendationsNode.PriorityOf | src/sae/agents/nodes/generate_recommendations.py:150 | the priority is 3 when missing and the clamped number otherwise; a non-number raises |
| GenerateRecommendationsNode.RiskReduction | src/sae/agents/nodes/generate_recommendations.py:141-146 | the intended risk reduction is the level named by a valid level string, and None for anything else |
| GenerateRecommendationsNode.RiskReductionAsWritten | src/sae/agents/nodes/generate_recommendations.py:141-155 | the risk reduction as the node computes it is rejected iff the value is present, falsy and not null |
| GenerateRecommendationsNode.AsWrittenAgreesElsewhere | src/sae/agents/nodes/generate_recommendations.py:141-155 | wherever the node as written accepts the risk reduction, it agrees with the intended one |
| GenerateRecommendationsNode.EmptyRiskReductionRejected | src/sae/agents/nodes/generate_recommendations.py:141-155 | an empty-string risk reduction is rejected as written and is None as intended |
| GenerateRecommendationsNode.RecommendationFromRaw | src/sae/agents/nodes/generate_recommendations.py:148-155 | an entry converts iff it is an object with a numeric or missing priority whose clause id, action and rationale are strings where present and whose suggested text is a string or null; missing fields get "unknown", "Review this clause", "" and None |
| GenerateRecommendationsNode.RecommendationFromRawAsWritten | src/sae/agents/nodes/generate_recommendations.py:139-156 | one pass of the loop as the node runs it: where it succeeds it builds exactly the intended recommendation (same defaults, types and contents); it fails iff the intended conversion fails or the risk reduction is present, falsy and not null |
| GenerateRecommendationsNode.AsWrittenEntriesAgree | src/sae/agents/nodes/generate_recommendations.py:139-156 | the loop as written, applying `RecommendationEntryAsWritten` to each entry, succeeds iff every entry converts as intended and none has a rejected risk reduction, and then yields exactly the intended recommendations |
| GenerateRecommendationsNode.EmptyRiskReductionEntry | src/sae/agents/nodes/generate_recommendations.py:141-155 | the entry `{"risk_reduction": ""}` fails as written and, as intended, gives the all-default recommendation |
| GenerateRecommendationsNode.OneRecommendationPerEntry | src/sae/agents/nodes/generate_recommendations.py:139-156 | the node yields one recommendation per entry, in order, iff every entry converts |
| GenerateRecommendationsNode.SortIsSorted | src/sae/agents/nodes/generate_recommendations.py:159 | the sorted list is in non-decreasing priority |
| GenerateRecommendationsNode.SortIsPermutation | src/sae/agents/nodes/generate_recommendations.py:159 | the sorted list holds exactly the recommendations it was given |
| GenerateRecommendationsNode.SortIsStable | src/sae/agents/nodes/generate_recommendations.py:159 | recommendations of equal priority keep their relative order |
| GenerateRecommendationsNode.InsertInto | src/sae/agents/nodes/generate_recommendations.py:159 | one insertion step moves an element left past the greater-priority elements before it and leaves the rest of the array alone |
| GenerateRecommendationsNode.SortInPlace | src/sae/agents/nodes/generate_recommendations.py:159 | sorting the array in place leaves exactly the reference stable sort of its previous contents |
| GenerateRecommendationsNode.SortList | src/sae/agents/nodes/generate_recommendations.py:159 | the built list, sorted, equals the reference stable sort |
| GenerateRecommendationsNode.CountPriority | src/sae/agents/nodes/generate_recommendations.py:174 | the count of recommendations at a priority is at most their number, and is zero iff none has that priority |
| GenerateRecommendationsNode.GenerateOutcome | src/sae/agents/nodes/generate_recommendations.py:78-190 | for a given entry conversion: with no risks the node completes with no recommendations, whatever the reply; otherwise it completes with the stably sorted converted recommendations iff the reply decodes into entries that all convert, and else fails under the matching prefix |
| GenerateRecommendationsNode.EmptyRiskReductionAbortsNode | src/sae/agents/nodes/generate_recommendations.py:139-190 | with risks present and a reply decoding to the single entry `{"risk_reduction": ""}`, the node with the conversion as written fails with "Recommendation error" and the risk-reduction field error, and the node with the intended conversion completes with the all-default recommendation |
| GenerateRecommendationsNode.AsWrittenNodeAgrees | src/sae/agents/nodes/generate_recommendations.py:78-190 | wherever the node as written completes, its update is exactly the intended node's update |
| GenerateRecommendationsNode.GenerateRecommendations | src/sae/agents/nodes/generate_recommendations.py:78-190 | for a given entry conversion, the node's loop and in-place sort produce exactly the update described by `GenerateOutcome` |
| ContractReview.ShouldContinue | src/sae/agents/contract_review.py:21-43 | the route ends iff the status is "failed" or "complete"; it goes to analysis iff "analyzing" and to recommendations iff "recommending"; a missing status, "pending" or "extracting" goes to extraction |
| ContractReview.ExtractFollowsEdges | src/sae/agents/contract_review.py:64-71 | every update of the extraction node is routed along an edge the graph declares, and on to analysis iff it succeeded |
| ContractReview.AnalyzeFollowsEdges | src/sae/agents/contract_review.py:73-80 | every update of the risk node is routed along an edge the graph declares, and on to recommendations iff it succeeded |
| ContractReview.RecommendFollowsEdges | src/sae/agents/contract_review.py:82-88 | every update of the recommendation node ends the run, whichever entry conversion it applies |
| ContractReview.OverallRisk | src/sae/agents/contract_review.py:148-155 | the overall risk is at least as severe as every assessment, is the level of one of them, and is low when there are none |
| ContractReview.SummaryParts | src/sae/agents/contract_review.py:158-171 | the summary opens with the clause and issue counts, has a critical sentence and then a high-priority sentence only when those counts are positive, and closes with the recommendation count |
| ContractReview.SeveritySentencesOnlyWhenPresent | src/sae/agents/contract_review.py:163-169 | the summary mentions critical risks iff there is one, and high-priority issues iff there is one |
| ContractReview.BuildSummaryParts | src/sae/agents/contract_review.py:158-171 | the appends build exactly the sentence list `SummaryParts` describes |
| ContractReview.RunContractReview | src/sae/agents/contract_review.py:125-210 | the output succeeds iff the graph finished with a status other than "failed"; a failure is rated high with no records and reports the state's error or the exception; a success passes the records and metadata through, with the most severe level as overall risk and the summary sentences joined by spaces |

## Left out

- Concurrency: the `asyncio.Lock` and the interleaving of coroutines are not modelled. Every operation runs atomically, so the existence check that `subscribe` makes outside the lock cannot race.
- The blocking `queue.get()` is not modelled. `ReadUpdates` reads only what is already queued and reports whether the stream has ended. `SubscriberQueue.Get` requires a non-empty queue, where the source would wait.
- The `get_task_manager` module-level singleton is not modelled.
- `uuid4()` and `datetime.utcnow()` are parameters: `newId` and `now` in the task manager, and `uuids` in clause extraction.
- TaskManagement.TaskManager.AddArtifact: `artifacts[i].index == i` is proved per task, and only when the artifact is not already attached there. It is not a manager-wide invariant, because the source does not prevent attaching one artifact object to two tasks.
- Snapshots copy artifact values. The live artifact objects that `_task_to_result` shares with the snapshot are not tracked after the copy.
- The `metadata` dict is shared by the caller and the new task in `create_task`. That aliasing is not modelled; metadata is a value.
- TaskManagement.TaskManager.Unsubscribe requires the queue to be registered. A repeated removal would raise ValueError in the source, and the subscription's own clean-up is its only caller.
- TaskManagement.TaskManager.ListTasks bounds and filters the listing. Completeness is stated separately, in `ListingIsComplete`, for a limit at least the number of tasks.
- The language model and `json.loads` are parameters. The model's reply is an `LlmReply`, and the decoder is a function from the payload text to a value or a decoding error.
- Prompt construction is not modelled: the system prompts, the clause text block, and the `clause_map` and `risk_context` formatting in the recommendation node. It only feeds the language model.
- The compiled LangGraph and its invocation are not modelled. `RunContractReview` takes the final state, or the exception, as a `GraphOutcome`. The routing lemmas check each node's update against the declared edges.
- AnalyzeRisksNode.RiskFromRaw: the float confidence and its clamp to 0..1 are not stored. Only the TypeError raised for a non-numeric confidence is kept. 
- JsonValues / GenerateRecommendationsNode.PriorityOf: JSON numbers with a fractional part are not represented, so a fractional priority such as 2.5, which the `int` field rejects, cannot be expressed.
- Exception messages are not the source's text: the TypeError and AttributeError texts, pydantic's validation texts and `json.loads` errors. The model keeps only which handler catches each one and the prefix it adds.
- `list.sort` is modelled as an insertion sort over an array. It is proved equal to the unique stable sort by priority, which is the result `list.sort` produces.
- Logging is not modelled, including the `priority_1` count that is only logged.
- The rest of the repository is not part of this model: the JSON-RPC and streaming endpoints, the document parser, the agent card, configuration and dependency wiring.
- `missing_clauses` is always empty in the source, and the model keeps it empty.

## Findings

| source | as written | input that shows it | evidently intended | confidence | as-written member | corrected member |
|---|---|---|---|---|---|---|
| src/sae/agents/nodes/generate_recommendations.py:141-155 | only a truthy `risk_reduction` is parsed; a falsy value other than null is passed unchanged to the `RiskLevel \| None` field, which rejects it, so the whole node fails with "Recommendation error" | an entry `{"risk_reduction": ""}` (likewise 0, false, [] or {}) | a missing, empty or unrecognised risk reduction becomes None and the recommendation is kept | not executed | GenerateRecommendationsNode.RiskReductionAsWritten, GenerateRecommendationsNode.EmptyRiskReductionEntry, GenerateRecommendationsNode.EmptyRiskReductionAbortsNode | GenerateRecommendationsNode.RiskReduction, GenerateRecommendationsNode.RecommendationFromRaw |

`GenerateOutcome` and `GenerateRecommendations` take the entry conversion as a parameter. `RecommendationEntryAsWritten` is the conversion as written and `RecommendationEntry` the intended one; `EmptyRiskReductionAbortsNode` runs both on the input above.
