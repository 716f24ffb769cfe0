# Verified model of the RockoAgents runtime

RockoAgents lets a user put AI agents together into companies and pipelines. This
project models nine of its parts in Dafny and proves what they are for:

- **Streaming to Anthropic clients** (`StreamConverter`, `StreamClient`, `StreamInput`,
  `StreamTrace`, `StreamRefinement`, `StreamSurvivors`, `Messages`, `AnthropicTypes`).
  Response chunks become message events. An independent client accumulates the events
  into an answer. Two exact conditions on the chunks are proved: when the event sequence
  is well formed, and when the client gets the answer the non-streaming conversion gives.
  For all other well-formed streams it is proved what the client gets. The blocks sent
  back by a client give the answer back.
- **Routing and scheduling** (`Graphs`, `Routing`, `Scheduler`, `PipelineRun`,
  `PipelineTraces`, `RoutedPipeline`). The bridge accepts a routing by depth-first search, the runtime
  layers the steps and executes them behind approval gates. Each is proved on its own,
  and then all together: from an accepted routing to the order of the calls, with the
  exact condition under which the pipeline follows the routing at all.
- **Rate limiting** (`SlidingWindow`), the **compacting message queue** (`MessageQueue`,
  `QueueOutcomes`) and the **transcript** with its bounded rendering (`Transcript`,
  `TranscriptContents`, `TranscriptRender`).
- **Task worker** (`TaskWorker`), **company registry** with tombstones
  (`CompanyRegistry`), **CLI output** framing (`CliOutput`), **session pool**
  (`SessionPool`) and **session store** (`SessionStore`).

Objects that the program updates in place are classes. Each method is proved against a
function on values, and the properties are lemmas about that function, over every
input, run or reachable state. `Wrappers`, `Strings` and `Sequences` hold what the
modules share.

## Where the code does not do what is said of it

- Thinking text that arrives for the first time while a text block is open makes the
  event stream malformed, because the text block is not closed (`anthropic.go:766-780`).
  `StreamTrace.OutputWellFormedIff` gives the exact condition and
  `StreamTrace.ThinkingAfterTextBreaks` an input.
- An accepted routing is stored in the agents' `outputs_to`, but the runtime prefers an
  agent's `connections`, even empty ones (`core.js:700`), and agents built from a project
  have neither (`core.js:412-429`). `RoutedPipeline.WithinRoutingIff` and
  `RoutedPipeline.SameAsRoutingIff` say exactly when the pipeline follows the routing;
  `RoutedPipeline.StaleConnectionWins` and `RoutedPipeline.BuiltAgentsHaveNoEdges` show
  that it need not.
- Both limiters promise at most N grants "in any interval" of length W
  (`limiter.py:21-22`, `rate_limit.py:122-123`). That holds of half-open intervals. A
  closed one holds more exactly when a request comes a window after the grant N places
  back: `SlidingWindow.RequestCrowdsIff` and `SlidingWindow.ClosedWindowsOverflowIff`,
  with an input in `SlidingWindow.ClosedWindowOverflow`.
- A line of CLI output that is JSON but not an object ends the run with an exception,
  because the reading loop asks the value for its type (`cli/session.py:135`, `153`).
  `CliOutput.YieldsLines` says which lines still arrive, `CliOutput.OtherJsonLosesNext`
  gives an input.
- A segment's tail limit of three or less lengthens the text instead of bounding it
  (`transcript.py:54`, `76`, `127`): `TranscriptRender.TailClipFitsIff`.
- Registering a live real session id again loses the session that had it
  (`cli/manager.py:92-95`): `SessionPool.RegisterKeepsInvIff`, with a run from the empty
  pool in `SessionPool.SecondRegistrationLoses`.
- A second load can change a company record (`bridge.py:1833-1839`): exactly when the
  record carries `updated_at` and later recovery records carry only `created_at` and
  differ from it (`CompanyRegistry.SecondLoadChangesIff`, with an input in
  `CompanyRegistry.UndatedRecordsFlip`). A third load changes nothing more
  (`CompanyRegistry.ThirdLoadChangesNothing`).
- Removing a tree can leave node mappings to it (`messaging/session.py:227-270`):
  `SessionStore.RemovalLeavesNoMappingIff`, with a run from the empty store in
  `SessionStore.StaleMapping`.
- A queue worker cancelled while it runs a job never settles that job's futures
  (`limiter.py:193-194`). `QueueOutcomes.DoneIff` says exactly which futures are ever
  done, `QueueOutcomes.CancelledJobStrands` gives an input.

## Model

| member | source | states |
|---|---|---|
| StreamConverter.Converter.constructor | external_nodes/ollama/anthropic/anthropic.go:719-727 | A new converter is at the start of a message, with nothing open or sent. |
| StreamConverter.Converter.Process | external_nodes/ollama/anthropic/anthropic.go:736-955 | One chunk changes the converter and sends events exactly as handling the chunk's thinking, text, tool calls and end, in this order, item by item. |
| StreamConverter.RunConcat | external_nodes/ollama/anthropic/anthropic.go:736-955 | Handling items in two parts sends what handling them at once sends, so a stream's output does not depend on where one call ends. |
| StreamClient.AcceptedIffWellFormed | external_nodes/ollama/anthropic/anthropic.go:220-278 | The accumulating client finishes exactly on message_start, blocks numbered 0, 1, 2, ... that do not overlap (start, deltas of their own kind, stop), message_delta, message_stop. |
| StreamTrace.ConvertStream | external_nodes/ollama/anthropic/anthropic.go:736-955 | Feeding a stream's chunks to one converter sends the concatenation that the theorems below speak of. |
| StreamTrace.OutputWellFormedIff | external_nodes/ollama/anthropic/anthropic.go:766-952 | For every stream ending in its one done chunk, the events are well formed if and only if no chunk brings the first thinking while text is open, that is, after a chunk with text and no new tool call since. |
| StreamTrace.ThinkingAfterTextBreaks | external_nodes/ollama/anthropic/anthropic.go:766-780 | Text followed by thinking is an input whose events are not well formed. |
| StreamTrace.StartAnnouncesInput | external_nodes/ollama/anthropic/anthropic.go:739-764 | The first event is a message_start with the converter's id and model and the first chunk's token count, or the request's estimate when that count is 0. |
| StreamTrace.StepInStep | external_nodes/ollama/anthropic/anthropic.go:766-925 | Each item keeps the client's open block equal to the one the converter believes open and its block count equal to the content index, or else, for interrupting thinking, the client gives up. |
| StreamRefinement.StreamingAgreesIff | external_nodes/ollama/anthropic/anthropic.go:643-683 | For every stream, the client's final blocks, stop reason and usage equal ToMessagesResponse of the aggregated response if and only if the chunks bring thinking before text and text before tool calls, tool ids are distinct and all arguments can be encoded. |
| StreamRefinement.OneChunkStreams | external_nodes/ollama/anthropic/anthropic.go:766-952 | An answer in one done chunk reaches the client as its non-streaming conversion, thinking before text before calls, if and only if its tool calls have distinct ids and can be encoded. |
| Messages.GatherResponse | external_nodes/ollama/server/routes.go:2594-2640 | The server's loop returns the last chunk with the concatenated thinking and text of all chunks, and their tool calls when the request offers tools. |
| StreamRefinement.StreamedAnswerComesBack | external_nodes/ollama/anthropic/anthropic.go:395-539 | Streamed, accumulated and sent back, an ordered deliverable answer is one assistant message with the original thinking, text and tool calls. |
| StreamSurvivors.StreamSurvives | external_nodes/ollama/anthropic/anthropic.go:766-952 | Of every well-formed stream, in whatever order, the client gets all the text, the thinking up to and including the first chunk that ends it, and just the encodable tool calls whose id no earlier one has, in order, with the matching stop reason and the last usage. |
| AnthropicTypes.StopReasonsApart | external_nodes/ollama/anthropic/anthropic.go:686-702 | Each stop_reason and exactly the done_reasons and tool use that lead to it. |
| Messages.ConvertMessage | external_nodes/ollama/anthropic/anthropic.go:395-539 | Conversion fails on the first faulty block with that block's error, and otherwise gives the role's message, if it has any content, followed by the tool results. |
| Messages.ResultsInOrder | external_nodes/ollama/anthropic/anthropic.go:458-482 | Each tool result or search result becomes one tool message with its call's id and its text and nothing else, in order. |
| Messages.ImagesInOrder | external_nodes/ollama/anthropic/anthropic.go:421-439 | The decoded images of the blocks go into the role's message, all of them and in order. |
| Messages.PartsInOrder | external_nodes/ollama/anthropic/anthropic.go:395-539 | Texts and tool calls of earlier blocks stand before those of later ones, and the last thinking wins. |
| Messages.OneBlock | external_nodes/ollama/anthropic/anthropic.go:415-499 | What one text, tool use, server tool use or thinking block says. |
| Messages.RoundTrip | external_nodes/ollama/anthropic/anthropic.go:395-539 | The blocks of any response sent back are accepted if and only if every tool call has an id and a name, and give the original thinking, text and tool calls in one message, or none for an empty response. |
| Graphs.RankedIsAcyclic | bridge/bridge.py:851-865 | A finishing order that falls along every edge shows that a graph has no cycle. |
| Graphs.RepeatMeansCycle | bridge/bridge.py:853-855 | A walk that meets a vertex twice contains a cycle. |
| Routing.CycleSearch.Visit | bridge/bridge.py:852-862 | The search restores what it was visiting; entering a vertex being visited reports exactly the walk there, entering a visited one nothing; reports since are closed by edges from vertices visited since; and, while nothing is reported, every successor of a visited vertex was visited before it. |
| Routing.CycleSearch.VisitAll | bridge/bridge.py:851-865 | The search from all vertices reports nothing if and only if the graph is acyclic, and no two reports are closed by the same edge when no edge is listed twice. |
| Routing.ValidateRoutingEdges | bridge/bridge.py:827-890 | A routing has no errors if and only if every endpoint is known, no edge is a self-loop and the edges are acyclic; the errors of the edges come first, then the cycles, each a real walk into itself and, for distinct edges, none reported twice. |
| Routing.EdgeErrorsInOrder | bridge/bridge.py:834-847 | There is one error for each bad edge, in order: an unknown source before an unknown target before a self-loop, naming the id at fault. |
| Routing.CleanEdges | bridge/bridge.py:813-825 | The clean edges are the trimmed ones with both ends, each once, in order of first occurrence. |
| Routing.CleanedMeaning | bridge/bridge.py:813-825 | No clean edge occurs twice, and an edge is clean exactly when some raw edge trims to it and both its ends are non-empty. |
| Routing.CleanedInOrder | bridge/bridge.py:813-825 | Clean edges stand in the order of their first occurrence. |
| Routing.Project.ApplyRoutingEdges | bridge/bridge.py:892-911 | A rejected routing leaves all agents as they were; an accepted one gives every agent exactly its targets, in order. |
| Routing.TargetsInOrder | bridge/bridge.py:892-911 | An agent's targets are those of the edges from it, in the edges' order. |
| Routing.Project.CurrentRoutingGraph | bridge/bridge.py:765-779 | Reading back lists every agent's outputs, agent by agent. |
| Routing.CurrentInOrder | bridge/bridge.py:765-779 | Reading back goes agent by agent, and through each agent's outputs in order. |
| Routing.ReadBackCount | bridge/bridge.py:765-779 | Every edge is read back once for each agent that carries its source's id. |
| Routing.ReadBack | bridge/bridge.py:892-911 | An accepted routing reads back as the same edges and is still valid, and as a permutation of them if and only if no source id is shared by two agents. |
| Scheduler.InitialFrontier | js/core.js:723-731 | The first frontier is the steps with no incoming edge, each once, in the order of the steps. |
| Scheduler.NextFrontier | js/core.js:738-750 | The next frontier is the unvisited outputs of the last level all of whose predecessors are visited, each once, in the order in which that level first names them. |
| Scheduler.BuildLevels | js/core.js:720-756 | Every step has one place; a layer's number is the longest walk to its members; layered steps are exactly those not behind a cycle; the first layer stands in the order of the steps, each other one in the order in which the layer before first names its members; what is left over follows one step to a level, in the order of the steps. |
| Scheduler.VisitedLevel | js/core.js:733-751 | A visited step's level is the length of the longest walk to it, and no cycle leads to it. |
| Scheduler.UnvisitedBehindCycle | js/core.js:752-756 | A step never visited lies on or behind a cycle. |
| Scheduler.SourcesComeEarlier | js/core.js:738-750 | Every edge into a layered step comes from a step in a strictly earlier layer. |
| Scheduler.LeavesNothingIff | js/core.js:752-756 | The leftover pass adds nothing if and only if there is no cycle. |
| Scheduler.AllBehindRunAsListed | js/core.js:752-756 | When every step lies on or behind a cycle, the steps run in the order they are listed in. |
| RoutedPipeline.AgentStepsInOrder | js/core.js:689-701 | The enabled agents with a pipeline step give the steps, in order, each with its id, its step, its connections or else outputs, and a gate for the CEO. |
| RoutedPipeline.WithinRoutingIff | js/core.js:689-706 | The pipeline's edges stay within the applied routing if and only if no agent's connections and no executor's outputs lead, among the steps, where the routing does not. |
| RoutedPipeline.SameAsRoutingIff | js/core.js:689-706 | They are the routing's edges between the steps if and only if, besides, those connections and outputs drop none. |
| RoutedPipeline.StaleConnectionWins | js/core.js:700 | An accepted routing and one stale connection give a cyclic pipeline that runs against the routing. |
| RoutedPipeline.BuiltAgentsHaveNoEdges | js/core.js:412-429 | Agents built from a project have no edges, whatever routing was applied to it. |
| RoutedPipeline.AcceptedRoutingRunsInOrder | js/core.js:720-756 | An accepted routing, applied to the agents and run as a pipeline with no connection astray, leaves nothing over, and every source stands in an earlier level than its target. |
| RoutedPipeline.RoutedCallsWait | js/core.js:764-777 | With nothing astray and nothing dropped, in every run of that pipeline a step is called only after each step routed to it has finished, and a gated one only after approval. |
| PipelineRun.Runtime.Deliver | js/core.js:629-679 | Each tick, decision or reply moves the run as specified, and the bounded history gains the run exactly when it ends other than by an exception. |
| PipelineRun.NextKeepsInv | js/core.js:629-679 | Every input in every phase keeps the gating, order, rejection and archive invariant. |
| PipelineRun.RunGuarantees | js/core.js:764-777 | Over every sequence of inputs: a gated step is called only after it was asked about and not rejected; steps run one at a time in order; after a rejection nothing is called; a run is archived once if it returned and not otherwise; a complete run finished every step. |
| PipelineRun.EndedStays | js/core.js:768-770 | After a run has ended nothing changes it, so no call follows. |
| PipelineRun.DependentWaits | js/core.js:765-772 | A step is not called before each earlier step has finished. |
| PipelineTraces.TraceForm | js/core.js:629-679 | Over every sequence of inputs the trace is the courses of the finished steps in order (started, asked and decided if gated, called if it has a call, finished), then as much of the current step as its phase has reached, and Archived at the end unless an exception ended the run. |
| PipelineTraces.EveryCallIsMade | js/core.js:648-678 | In every run a step that has a call finishes only after it was called; only steps with a call are called and only gated ones asked about. |
| PipelineTraces.AnswerDecides | js/core.js:649-676 | The answer to a call ends the run as it stands if it is an exception, ends it halted and archived if it is a failure and errors halt, and otherwise finishes the step. |
| PipelineTraces.EndsIff | js/core.js:764-777 | Over every run, with the answers read off the inputs: it ends halted if and only if errors halt and a failure answered a call, with an exception if and only if one answered a call, and rejected if and only if the operator rejected a step asked about. |
| PipelineTraces.NothingFollows | js/core.js:765-770 | When errors halt, a failure that answers a call is followed by nothing except Archived, and an exception by nothing. |
| PipelineTraces.OnlyTheAwaitedMoves | js/core.js:377-394 | An open call waits for its answer and an open question for its decision; nothing else moves the run. |
| PipelineTraces.ServedRunCompletes | js/core.js:764-777 | A run in which every question is approved and every call answered without an exception, or a failure that halts, completes with the full course of every step. |
| SlidingWindow.Limiter.Create | external_nodes/free_proxy/messaging/limiter.py:29-38 | A limiter exists exactly for a positive limit and a positive window. |
| SlidingWindow.Limiter.TryAcquire | external_nodes/free_proxy/messaging/limiter.py:40-60 | An attempt is granted if and only if fewer than N grants lie in (now-W, now]; a refusal's wait is positive and ends exactly when the N-th newest grant leaves the window. |
| SlidingWindow.GrantsAreSpaced | external_nodes/free_proxy/messaging/limiter.py:24-25 | In every run on a clock that never goes back, grant i+N comes at least W after grant i. |
| SlidingWindow.AtMostLimitPerWindow | external_nodes/free_proxy/providers/rate_limit.py:118-145 | At most N grants lie in any half-open window of length W. |
| SlidingWindow.RequestCrowdsIff | external_nodes/free_proxy/messaging/limiter.py:49-54 | On a history with no overfull closed window, a request makes one if and only if it comes exactly a window after the grant N places back. |
| SlidingWindow.ClosedWindowsOverflowIff | external_nodes/free_proxy/providers/rate_limit.py:122-123 | Over every run, counting grants, some closed window of length W holds more than N if and only if some request came at that moment. |
| SlidingWindow.ClosedWindowOverflow | external_nodes/free_proxy/messaging/limiter.py:21-22 | With N = 1 and requests at 0 and W, two grants lie in [0, W]. |
| SlidingWindow.RetrySucceedsIff | external_nodes/free_proxy/providers/rate_limit.py:138-145 | After a refusal, with no grant in between, a retry succeeds exactly from the moment the computed wait is over. |
| MessageQueue.Queue.EnqueueMulti | external_nodes/free_proxy/messaging/limiter.py:244-260 | A waiting key gets the new function and the joined futures; a new key is added once, at the end or the front. |
| MessageQueue.Queue.TakeNext | external_nodes/free_proxy/messaging/limiter.py:128-142 | The worker takes the front key out of deque and map. |
| MessageQueue.Queue.FinishJob | external_nodes/free_proxy/messaging/limiter.py:154-164 | All of the job's futures not yet done get its outcome; a cancelled worker stops without settling. |
| MessageQueue.LogTellsActions | external_nodes/free_proxy/messaging/limiter.py:244-260 | The history's enqueues are exactly those that callers made, in order. |
| MessageQueue.PendingIff | external_nodes/free_proxy/messaging/limiter.py:244-260 | A key is pending exactly when some enqueue of it has not been followed by a take. |
| MessageQueue.PendingSinceFirst | external_nodes/free_proxy/messaging/limiter.py:244-260 | A pending key waits since its first enqueue after its last take. |
| MessageQueue.PendingWithLatest | external_nodes/free_proxy/messaging/limiter.py:246-251 | A pending key waits with the function of its last enqueue. |
| MessageQueue.RunFaithful | external_nodes/free_proxy/messaging/limiter.py:128-164 | After any actions the deque is duplicate-free and holds exactly the map's keys, which are the pending ones with their latest function and all futures. |
| MessageQueue.TakingFaithful | external_nodes/free_proxy/messaging/limiter.py:141-142 | The job taken is the front key with the latest function enqueued for it and all its merged futures. |
| MessageQueue.TakesLongestWaiting | external_nodes/free_proxy/messaging/limiter.py:141-142 | When no caller jumps the queue, the key taken is the one enqueued first. |
| MessageQueue.FrontIsTakenNext | external_nodes/free_proxy/messaging/limiter.py:256-259 | A new key enqueued at the front is taken next, with its own function and futures; one that waits already keeps its place. |
| QueueOutcomes.RunConserves | external_nodes/free_proxy/messaging/limiter.py:128-164 | After any actions, the futures enqueued are, with multiplicity, those waiting, in flight and settled. |
| QueueOutcomes.EachFutureInOnePlace | external_nodes/free_proxy/messaging/limiter.py:128-164 | A future enqueued once is in exactly one of these places, once. |
| QueueOutcomes.FinishingResolves | external_nodes/free_proxy/messaging/limiter.py:156-164 | Finishing a job settles all its futures, keeps results callers already have, and touches no other future. |
| QueueOutcomes.SettledAreDone | external_nodes/free_proxy/messaging/limiter.py:156-164 | Every future handed back is done. |
| QueueOutcomes.DoneIff | external_nodes/free_proxy/messaging/limiter.py:154-194 | Over every run, a future is done if and only if a caller cancelled it or a job that has it was taken and the end of that job was not a cancellation. |
| QueueOutcomes.CancelledWorkerStrands | external_nodes/free_proxy/messaging/limiter.py:193-194 | After a cancellation inside a job, its futures stay in flight, and only a caller's own cancellation makes any future done. |
| QueueOutcomes.CancelledJobStrands | external_nodes/free_proxy/messaging/limiter.py:193-194 | An enqueue, a take and a cancellation leave a future that is not done whatever follows. |
| Transcript.Buffer.Apply | external_nodes/free_proxy/messaging/transcript.py:339-520 | One event changes the buffer exactly as specified and keeps the invariant; the branch without a parent segment cannot be reached. |
| Transcript.Buffer.SubagentPop | external_nodes/free_proxy/messaging/transcript.py:267-327 | A pop cuts both stacks just below the topmost id that matches by prefix; without an id it removes only a synthetic top. |
| Transcript.NextKeepsInv | external_nodes/free_proxy/messaging/transcript.py:339-520 | Every event keeps both stacks equally long, with subagent segments in stack order; segments are only added and keep their kind; while a subagent is open no thinking or text is created or changed. |
| Transcript.AfterKeepsInv | external_nodes/free_proxy/messaging/transcript.py:339-520 | The invariant holds after every event sequence. |
| TranscriptContents.SegmentsHold | external_nodes/free_proxy/messaging/transcript.py:364-394 | Over every event sequence, a thinking or text segment's text is that of the deltas that reached it, in order of arrival, and a subagent shows how many calls were made in it, with which tools, and the last one. |
| TranscriptContents.SegmentsAreAnnounced | external_nodes/free_proxy/messaging/transcript.py:339-520 | Over every event sequence, the segments are, in order, those the events announced, with their ids, names, headings, contents and messages. |
| TranscriptContents.NamesAreLatest | external_nodes/free_proxy/messaging/transcript.py:486-488 | A tool result shows the name that the last tool call with its id gave. |
| TranscriptContents.BlockIsOneSegment | external_nodes/free_proxy/messaging/transcript.py:354-394 | On any transcript, a block started outside a subagent and any deltas at its index are one new segment with the deltas' texts in order. |
| TranscriptContents.StopEndsBlock | external_nodes/free_proxy/messaging/transcript.py:364-400 | After its stop, a block's index begins a new segment. |
| TranscriptContents.StopClosesOne | external_nodes/free_proxy/messaging/transcript.py:446-457 | A stop closes one block at its index: a tool's, else thinking, else text. |
| TranscriptContents.StartStopsFirst | external_nodes/free_proxy/messaging/transcript.py:354-386 | Thinking or text started at an index first stops one block there. |
| TranscriptContents.ToolStartOpens | external_nodes/free_proxy/messaging/transcript.py:402-433 | A tool call started at an index first stops one block there, and unless it is a Task stays open at the index. |
| TranscriptContents.ToolStopCloses | external_nodes/free_proxy/messaging/transcript.py:439-449 | A tool's stop closes it at its index, and a block stop there does the same. |
| TranscriptContents.TaskIsPushed | external_nodes/free_proxy/messaging/transcript.py:252-258 | A Task call puts its trimmed id on the stack, or without one the number of its depth. |
| Transcript.CallsAreConserved | external_nodes/free_proxy/messaging/transcript.py:403-494 | After every event sequence the tool calls shown, in segments and subagent counters, are as many as tool events came. |
| Transcript.ResultCutsAtTopmost | external_nodes/free_proxy/messaging/transcript.py:286-312 | A tool result cuts both stacks just below the topmost matching id. |
| TranscriptContents.UnmatchedResult | external_nodes/free_proxy/messaging/transcript.py:484-507 | A result that matches nothing on the stack closes a synthetic top exactly when it has no id, or one that contains "task" and that no other tool used, and otherwise nothing. |
| Transcript.TaskAndResultCancel | external_nodes/free_proxy/messaging/transcript.py:252-327 | A Task call and a result with the same id, present or missing, leave the stacks as they were. |
| TranscriptRender.Render | external_nodes/free_proxy/messaging/transcript.py:522-577 | The output is everything if it fits; else the longest strict suffix of segments that fits after the marker; else the newest segment clipped to fill the limit exactly, budget allowing; else marker and status, or the bare status. It never exceeds the limit unless it is the bare status. |
| TranscriptRender.RenderedInOrder | external_nodes/free_proxy/messaging/transcript.py:525-532 | The segments that render to something are shown, all of them and in order. |
| TranscriptRender.JoinedParts | external_nodes/free_proxy/messaging/transcript.py:537-541 | Parts that follow each other are separated by one newline. |
| TranscriptRender.Layout | external_nodes/free_proxy/messaging/transcript.py:534-541 | Two parts and a status are shown as the parts line by line, a blank line and the status. |
| TranscriptRender.StripKeeps | external_nodes/free_proxy/messaging/transcript.py:574 | Only the newlines at the start are taken off a status that stands alone. |
| TranscriptRender.TailClipFitsIff | external_nodes/free_proxy/messaging/transcript.py:53-54 | A segment's tail clip respects its maximum if and only if nothing is clipped or the maximum is above three. |
| TaskWorker.Worker.CreateTask | bridge/task_worker.py:98-128 | A new task is queued last, with no attempts and its own or the default retries. |
| TaskWorker.Worker.Recover | bridge/task_worker.py:50-59 | After a restart exactly the running tasks are queued again. |
| TaskWorker.Worker.RetryTask | bridge/task_worker.py:155-165 | Only failed and blocked tasks go back to the queue, keeping their attempts. |
| TaskWorker.Worker.CancelTask | bridge/task_worker.py:146-153 | Any task not complete or cancelled is cancelled, and no other is touched. |
| TaskWorker.Worker.NextQueued | bridge/task_worker.py:133-137 | The next task is the queued one created first, ties in insertion order. |
| TaskWorker.Worker.RunTask | bridge/task_worker.py:167-242 | One execution changes one task and puts its record at the head of the run log, which keeps 200. |
| TaskWorker.Worker.Drain | bridge/task_worker.py:255-266 | Left alone, the loop executes the task next in line, one after the other, until the queue is empty. Tasks, run log, finishing order and number of executions are those of that course; every task ends as it would alone, and the executions are within the total budget. |
| TaskWorker.LogKeepsNewest | bridge/task_worker.py:88-90 | After any course the run log has the newest 200 records: the executions, last first, then what was there before. |
| TaskWorker.ExecutionsInCreationOrder | bridge/task_worker.py:133-137 | In such a course executions come in creation order: a task is run until it leaves the queue before any task created after it. |
| TaskWorker.FinalMeaning | bridge/task_worker.py:222-232 | A queued task runs until its first attempt that does not fail, at most max(1, max_retries+1-attempts) times; that attempt decides its status, and failed means that all of them failed. |
| TaskWorker.FreshRunsAtMost | bridge/task_worker.py:222-232 | A fresh task runs at most max_retries+1 times. |
| TaskWorker.RetryGrantsOneRun | bridge/task_worker.py:155-165 | A task that used up its retries and is put back by hand runs exactly once more. |
| CompanyRegistry.Registry.Load | bridge/bridge.py:1808-1873 | Loading gives, id by id, the recovered or adopted record and nothing for deleted ids; the main file is rewritten with the result or left alone when nothing was recovered. |
| CompanyRegistry.MergeStampIff | bridge/bridge.py:1833-1839 | Merging a newer record keeps its timestamp except when only the older one carries updated_at. |
| CompanyRegistry.LoadedIsNewest | bridge/bridge.py:1808-1843 | When all records carry updated_at, the loaded one carries the maximum over the main file and all recovery files. |
| CompanyRegistry.RecoveredIsOverlaid | bridge/bridge.py:1822-1839 | Whatever the files hold, a recovered record holds under each key what the last file that counts says, and otherwise what the main file says; a file counts if its record is the first or newer than what there was. |
| CompanyRegistry.RecoveredFromOnly | bridge/bridge.py:1829-1831 | A record that one recovery file alone has is loaded as it is. |
| CompanyRegistry.AdoptedFromFirst | bridge/bridge.py:1861-1866 | An id without a record in main and recovery files is loaded as exactly the record of the first state file that has one. |
| CompanyRegistry.KnownIsNotAdopted | bridge/bridge.py:1864 | State files do not touch a record that main or recovery files have. |
| CompanyRegistry.SecondLoadChangesIff | bridge/bridge.py:1808-1873 | With the same files around, loading what a load returned changes a record if and only if it carries updated_at and overlaying the recovery records that carry only a later created_at changes it. |
| CompanyRegistry.SecondLoadChangesNothing | bridge/bridge.py:1808-1873 | When all records carry updated_at, a second load changes nothing. |
| CompanyRegistry.ThirdLoadChangesNothing | bridge/bridge.py:1808-1873 | A third load returns what the second one returned. |
| CompanyRegistry.LoadedIff | bridge/bridge.py:1792-1873 | A load returns exactly the ids that are not marked and have a record in the main file or in a file around. |
| CompanyRegistry.SavedIsLoaded | bridge/bridge.py:1792-1873 | A saved record is what the next load returns when no recovery file has a newer one. |
| CompanyRegistry.UndatedRecordsFlip | bridge/bridge.py:1833-1839 | A main record and two recovery files for which a second load differs. |
| CompanyRegistry.CreateMeaning | bridge/bridge.py:1921-1948 | A created record is stamped, keeps the creation date and the fields the loaded one had unless the request has them, and leaves no other company active if it is active; a marked id is not created. |
| CompanyRegistry.UpdateMeaning | bridge/bridge.py:1956-1964 | A patch wins field by field over one loaded record, except for its creation date, and stamps it; nothing else changes. |
| CompanyRegistry.ActivateMeaning | bridge/bridge.py:1966-1973 | Activation leaves exactly one active company and changes nothing else. |
| CompanyRegistry.Registry.Delete | bridge/bridge.py:1975-1982 | Deleting a loaded company removes and marks it; an unknown one changes no mark. |
| CompanyRegistry.Registry.DeleteCompat | bridge/bridge.py:1984-1998 | The older endpoint marks any non-empty id. |
| CompanyRegistry.Registry.DeleteData | bridge/bridge.py:2000-2015 | The data endpoint marks first, so what it loads no longer has the id. |
| CompanyRegistry.Registry.SyncDeleted | bridge/bridge.py:532-553 | The frontend's deleted ids join the marks, and newly marked ids leave the main file. |
| CompanyRegistry.ImportMeaning | bridge/bridge.py:1745-1762 | Each imported id gets its last imported record, all others keep what was loaded, and marked ids stay away. |
| CompanyRegistry.MarksAccumulate | bridge/bridge.py:532-553 | After any requests the marks are the first ones and those the requests made, no fewer and no others. |
| CompanyRegistry.DeletedForGood | bridge/bridge.py:1792-2015 | Over every sequence of requests, with any files around, what one request marks is in nothing a later one loads, whatever is created, imported or recovered in between. |
| CompanyRegistry.Serve | bridge/bridge.py:1792-2015 | The registry answers any sequence of requests with the loads, and ends in the state, that these theorems speak of. |
| CliOutput.PiecesSplit | external_nodes/free_proxy/cli/session.py:138-146 | The pieces of a stream hold no newline and joined by newlines give the stream back. |
| CliOutput.ReadOutput | external_nodes/free_proxy/cli/session.py:120-157 | However the output is cut into chunks, the run is that of handling the pieces of the whole output, the unterminated last one included. |
| CliOutput.YieldsLines | external_nodes/free_proxy/cli/session.py:147-157 | The caller gets the non-blank lines in order, JSON objects as they are and other text as raw, up to the first JSON value that is not an object, and all of them if and only if there is none; the first session id revealed is announced just before its line, unless a session_info line came earlier, and nothing else is announced. |
| CliOutput.TextsInOrder | external_nodes/free_proxy/cli/session.py:147-149 | The lines handled are those of the pieces that are not blank, all of them and in order. |
| CliOutput.OtherJsonLosesNext | external_nodes/free_proxy/cli/session.py:135 | A JSON line that is no object, followed by another line: nothing is yielded. |
| CliOutput.AtMostOneSessionInfo | external_nodes/free_proxy/cli/session.py:197-213 | A run yields at most one synthetic session_info event. |
| SessionPool.Manager.GetOrCreateSession | external_nodes/free_proxy/cli/manager.py:53-82 | The session under an id or its real id, else a new pending one. |
| SessionPool.Manager.RegisterRealSessionId | external_nodes/free_proxy/cli/manager.py:84-98 | A pending session moves under its real id; an unknown temporary id changes nothing. |
| SessionPool.Manager.RemoveSession | external_nodes/free_proxy/cli/manager.py:100-116 | A pending or live session is stopped and removed with the temporary ids that led to it. |
| SessionPool.Manager.StopAllSessions | external_nodes/free_proxy/cli/manager.py:118-133 | Everything in the pool is stopped and the pool is empty. |
| SessionPool.AskingMeans | external_nodes/free_proxy/cli/manager.py:62-82 | Asking with a live, waiting or registered id returns that very session and changes nothing; any other id, or none, brings one new session that waits under the id asked for, or the fresh one. |
| SessionPool.RemovingMeans | external_nodes/free_proxy/cli/manager.py:100-116 | Removing stops the session waiting under the id, else the live one, drops the temporary ids that led to it, and stops no other. |
| SessionPool.GetOrCreateKeepsInv | external_nodes/free_proxy/cli/manager.py:53-82 | With an unused fresh id, looking up or creating leaves each running session in exactly one slot and returns a running one. |
| SessionPool.RegisterKeepsInvIff | external_nodes/free_proxy/cli/manager.py:84-98 | Registering keeps every running session in exactly one slot if and only if the real id is not live already. |
| SessionPool.RemoveKeepsInv | external_nodes/free_proxy/cli/manager.py:100-116 | Removing keeps each other running session in exactly one slot and no temporary id leading nowhere. |
| SessionPool.SecondRegistrationLoses | external_nodes/free_proxy/cli/manager.py:92-95 | From the empty pool, two sessions registered under one real id: the first runs on, in no slot. |
| SessionPool.RunKeepsInv | external_nodes/free_proxy/cli/manager.py:53-133 | Over every proper run, temporary ids lead to live sessions and are not pending, and each running session is in exactly one slot. |
| SessionPool.EmptyInv | external_nodes/free_proxy/cli/manager.py:46-48 | That holds of the pool at the start. |
| SessionPool.RegisteredStays | external_nodes/free_proxy/cli/manager.py:63-70 | From its registration on, a temporary id leads to the session that waited under it until that is removed. |
| SessionPool.StopAllStopsAll | external_nodes/free_proxy/cli/manager.py:118-133 | Stopping all stops every session ever created that was not stopped before. |
| SessionStore.SessionStore.RecordMessageId | external_nodes/free_proxy/messaging/session.py:159-197 | A new message id is logged and indexed once, under the cap. |
| SessionStore.RecordedKeepsInv | external_nodes/free_proxy/messaging/session.py:159-197 | Index and log agree and have no duplicates; a known id changes nothing; a new one comes last behind the newest others, as many as the cap leaves room for; other chats are untouched. |
| SessionStore.RunKeepsInv | external_nodes/free_proxy/messaging/session.py:47-270 | From whatever file a store was loaded, after any operations index and logs agree without duplicates, and logs that fit the cap always do. |
| SessionStore.RestartChangesNothing | external_nodes/free_proxy/messaging/session.py:98-104 | Saving and loading at any point of a run changes nothing. |
| SessionStore.LoadGivesInv | external_nodes/free_proxy/messaging/session.py:57-89 | Whatever the file holds, the loaded index and logs agree. |
| SessionStore.CleanedMeaning | external_nodes/free_proxy/messaging/session.py:57-89 | Of a log in the file just the entries with an id are loaded, each id at its first occurrence, in order. |
| SessionStore.LoadRestores | external_nodes/free_proxy/messaging/session.py:98-104 | Loading a snapshot restores trees, node mapping, logs and index. |
| SessionStore.SessionStore.SaveTree | external_nodes/free_proxy/messaging/session.py:227-243 | The tree is stored under its root and all its nodes, and no others, are mapped to the root. |
| SessionStore.SessionStore.RemoveTree | external_nodes/free_proxy/messaging/session.py:263-270 | The tree and the mappings of its nodes, and no others, are removed. |
| SessionStore.SaveThenRemove | external_nodes/free_proxy/messaging/session.py:227-270 | Saving a new tree of unmapped nodes and removing it changes nothing. |
| SessionStore.RemovalLeavesNoMappingIff | external_nodes/free_proxy/messaging/session.py:263-270 | No mapping to a removed tree is left if and only if every node mapped to it was one of its nodes. |
| SessionStore.StaleMapping | external_nodes/free_proxy/messaging/session.py:227-270 | From the empty store: a tree saved, saved again smaller, and removed leaves a mapping to it. |
| SessionStore.SessionStore.ClearAll | external_nodes/free_proxy/messaging/session.py:210-223 | Clearing empties trees, mapping, logs and index. |
| Strings.TrimKeeps | bridge/bridge.py:816-817 | Trimming takes off white space at both ends and nothing else. |
| Strings.LowerMeaning | external_nodes/ollama/anthropic/anthropic.go:397 | A role is lower-cased letter by letter, and nothing else changes. |
| Strings.ContainsIff | external_nodes/free_proxy/messaging/transcript.py:494 | A part occurs in a text exactly when it begins somewhere. |

## Left out

- HTTP routes, subprocesses, files, network calls and model calls: their results are parameters or arbitrary inputs.
- JSON text: tool arguments are a JSON text that can or cannot be produced, records are structured values, a CLI line's parse is a parameter.
- Time: clock readings are reals that never go back, creation and update times are ordered numbers, and 0 stands for an empty timestamp.
- Text: decoding and trimming CLI lines is a parameter; `Strings` trims and lower-cases ASCII only.
- Messages.ConvertMessage: tool result contents are given as the text they flatten to, and images as the result of decoding them; `formatWebSearchToolResultContent` is not modelled.
- Messages.GatherResponse: log probabilities and the channel's error values are not modelled.
- StreamRefinement.StreamingAgreesIff: compares with the response gathered for a request that offers tools.
- `FromMessagesRequest`, token estimation and web search in anthropic.go.
- Routing.ValidateRoutingEdges: the advisory warnings (isolated agents, no start node, a CEO without inputs) and Python's recursion limit are not modelled.
- Routing.CleanEdges: the many accepted payload shapes are not modelled, only the cleaning of the edges they yield; the reason text of an edge is dropped.
- RoutedPipeline.AcceptedRoutingRunsInOrder: how agents come to the runtime (browser state, the agent editor, project manifests) is not modelled; the runtime's agents of a project are taken to be the bridge's after applying the routing, or built from them.
- Scheduler.BuildLevels: assumes that step keys are distinct, as the object keyed by them needs; names inherited by JavaScript objects (such as `constructor`) are not treated specially. The linear mode, a library sort by `pipeline_order`, is not modelled.
- PipelineRun.Runtime.Deliver: step outputs, context merging, labels and timing are not modelled, nor two runs in flight at once, which would share one context.
- SlidingWindow.Limiter.TryAcquire: models one attempt under the lock, for both limiters; sleeping between attempts is the caller's next clock reading. The reactive block, the concurrency semaphore and the retry loop of `rate_limit.py` are not modelled.
- MessageQueue.Queue.TakeNext: the pause after a flood error and the rate limit delay a job but do not choose it, and are not modelled; neither are shutdown and the transient retries of `fire_and_forget`.
- Transcript.Buffer.Apply: segment objects are referred to by position; the `closed` flag of tool calls, which nothing reads, is not modelled; a heading is given, not extracted from the tool input.
- TranscriptRender.Render: how one segment renders is a parameter.
- TaskWorker.Worker.RunTask: the task's texts, permission lookups and saving are not modelled; a run by hand, cancelling or editing while a task runs is not interleaved.
- CompanyRegistry.Registry.Load: assumes that the main file holds records only and that the list of deleted ids is readable. Ownership repair in the listing endpoint is not modelled.
- CliOutput.ReadOutput: assumes that an empty line decodes to nothing; where in an event a session id stands, stderr and exit codes are not modelled.
- SessionStore.RunKeepsInv: registering and unmapping single nodes and syncing trees are one action that sets trees and mapping in any way; they have no methods.
- SessionStore.SessionStore.RecordMessageId: the debounced timer, threads and failed writes are not modelled.
- `bridge/scheduler.py`, `bridge/orchestrator.py`, `bridge/runtime_manager.py`, `bridge/execution_engine.py`, the handlers and all user interface code: dispatch and presentation that would add only easy members.
