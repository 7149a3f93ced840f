# The machinery of a long agent run, modelled and proved

AgentGo keeps an agent running for hours: it compacts the conversation so that it
keeps fitting the model's context, runs a task segment by segment until it is done or
hopeless, keeps a plan of dependent steps, pulls JSON out of model replies, and keeps
registries of background tasks, subscribers and hooks that many goroutines share. This
project is a Dafny model of that machinery with proofs of what it promises.

How the files follow the repository:

| files | models |
|---|---|
| `Messages.dfy`, `Text.dfy` | the message type, call/result pairing and tool rounds; Go strings as bytes |
| `Clip.dfy`, `Fold.dfy`, `Anchor.dfy`, `Threshold.dfy` | the pieces of compaction: clipping and trimming tool results, where to fold and the fold, the token anchor, the threshold |
| `Compaction.dfy`, `CompactionFacts.dfy`, `CompactionWitness.dfy` | a compaction round as the code runs it, what it guarantees, and one thing it does not |
| `RunHistory.dfy`, `HistoryWindow.dfy` | every history a run can reach, and the window of it that is sent |
| `LongRun.dfy` | the supervisor of a segmented run |
| `PlanGraph.dfy`, `Scratchpad.dfy` | validation of a plan's dependency graph, and the plan store |
| `JsonGrammar.dfy`, `JsonExtract.dfy`, `JsonReply.dfy` | every way to print a JSON value (sections 4 to 7 of RFC 8259), the brace scanner, and extraction from a reply |
| `Pager.dfy` | the file pager |
| `TraceForest.dfy`, `TraceFlow.dfy` | building the span forest from trace lines, and printing one trace |
| `Background.dfy`, `Subscriptions.dfy`, `Hooks.dfy` | the shared registries |
| `StableSort.dfy`, `Seqs.dfy`, `Options.dfy` | what Go's stable sort promises, and two small definitions |

Code that updates state in the source is a class or a method with loops here, and its
contract ties the new state to a function of the old one; the lemmas are about those
functions. A registry shared by goroutines is modelled by its sections under the lock:
each is one step, and the theorems hold for every sequence of steps. The model call, a
segment's run, the tokenizer, `json.Valid`, hook handlers, clocks and the plan store's
reads and writes are parameters, so the theorems hold whatever these answer.

## What the proofs turned up

Each of these is a property one would expect and the code does not have; the lemma
named shows the failing input or the exact condition.

- The first time the summariser fails with something trimmed and nothing clipped, the
  untrimmed history is returned although the anchor was already moved for the trimmed
  one. What that history then measures depends on the anchor: too little by what the trim
  would have removed if the anchor still covers it
  (`CompactionWitness.TrimOnlyFailureUnderreports`), the estimate plus the overhead if the
  anchored message was itself trimmed, which can be more
  (`CompactionWitness.TrimOnlyFailureLosesTheAnchor`, reached by an ordinary run), and the
  same as before if no anchor covered it. `CompactionFacts.ReturnsUnchangedIff`,
  `UnchangedHistorySize`, `SizeLeftAloneIff` and `AnchorLeftAloneIff` say when and by how much.
- `stableHistoryWindow` is documented to send at least the last 18 messages. A round with
  more results than that can leave fewer, even none (`HistoryWindow.WindowKeepsRecent`,
  `HistoryWindow.WindowCanBeEmpty`).
- `MaxDuration` does not stop a segment from starting on the limit itself: a retry wait is
  clipped to the time left and the limit is not looked at again
  (`LongRun.StartsWithinDuration`, `LongRun.StartsOnTheLimit`).
- A stray `{` before an object, or a code fence after it, defeats extraction
  (`JsonReply.PlainReply`, `JsonReply.FencedReply`, both directions; `StrayBraceDefeats`,
  `LaterFenceDefeats`, `BraceInFenceDefeats`).
- An explicit page limit near 2^63 overflows when it is added to the offset: the page is
  empty and points back at itself (`Pager.AdvancesIff`, `Pager.OverflowingLimitsStall`, `Pager.LargestLimitStalls`).
- The ceiling on background tasks is checked in one lock section and filled in another, so
  it holds on every run only if no two callers start at once (`Background.CeilingHoldsIff`).
- A background task that outlives 64 tasks started after it is forgotten in the very call
  that records its end, and its result cannot be collected (`Background.CollectableIff`,
  `Background.EndsUncollected`).
- A send to a subscriber can meet a channel that is already closed: exactly when the
  channel has left the subscriber map and no terminal emitter holds it
  (`Subscriptions.SendMeetsClosedIff`, `Subscriptions.NothingLostIff`). It happens to plain
  emits and to the backlog of a new subscriber (`Subscriptions.PlainSendsCanBeLost`), never
  to a terminal emit or an ended task's backlog (`Subscriptions.OnlyPlainSendsAreLost`).
- A stored plan whose first read fails is gone for the life of the process: the key counts
  as loaded, so the plan reads as empty, a step that names a stored one is refused, and the
  next accepted step overwrites what was stored (`Scratchpad.FailedReadLosesThePlan`). A
  failed first read is the only way an operation misses the plan there is
  (`Scratchpad.Manager.FindsPlanIff`).
- Printing a trace does not end when its first span names a parent of another trace that
  is itself a child of that span (`TraceFlow.CrossTraceLoop`). It ends exactly when every
  circle of parent links lies wholly inside or wholly outside the trace
  (`TraceFlow.PrintEndsIff`, `TraceFlow.WalkEndsIff`).
- In a history without a goal the first summary becomes the protected head and is never
  folded again (`Fold.FoldKeepsHead`, `Fold.SummaryBecomesHead`).

## Model

| member | source | states |
|---|---|---|
| Clip.ToolRoundBoundary | pkg/agent/compaction_clip.go:101-117 | the backward loop finds the boundary in front of the newest rounds to keep |
| Clip.BoundaryCutsNewestRounds | pkg/agent/compaction_clip.go:98-117 | behind the boundary stand exactly the rounds to keep, and it stands on the message that opens the oldest of them |
| Clip.BuildCallTable | pkg/agent/compaction_clip.go:62-78 | the table the clip loop fills has exactly the non-empty ids some call carries, each with the last such call in message and call order |
| Clip.CallTableHolds | pkg/agent/compaction_clip.go:62-78 | the same of the table the clipped history is defined by |
| Clip.ClipOldToolResults | pkg/agent/compaction_clip.go:62-96 | the loop over a copied slice replaces exactly the clippable results by stubs and counts them; zero means the history is unchanged |
| Clip.ClipMarks | pkg/agent/compaction_clip.go:62-96 | a message changes if and only if it is a clippable tool result after the head and before the boundary |
| Clip.ClippedMeaning | pkg/agent/compaction_clip.go:62-96 | a tool result of 800 bytes or more without parts, not yet clipped, between head and boundary gets the marker and a stub of the last call before the boundary that carries its id; every other message stays as it is |
| Clip.TrimHeadTail | pkg/agent/compaction_clip.go:162-175 | a text of at most twice the kept size stays; of a longer one everything from the last rune start at or before that size to the first rune start at or after the same distance from the end is replaced by a line with the notice of how much went |
| Clip.TrimmedMeaning | pkg/agent/compaction_clip.go:131-157 | a longer tool result without parts, not clipped, between head and the newest rounds keeps 2000 bytes or a little less at either end around the notice, and every other message stays as it is |
| Clip.TrimOversizedToolResults | pkg/agent/compaction_clip.go:131-157 | the loop trims exactly the oversized results outside the head and the newest round and counts them |
| Clip.ReducedTouchesOnlyOldResults | pkg/agent/compaction_clip.go:62-175 | clip then trim keeps length, roles, ids and calls; it touches only unclipped text results after the head, never in the newest round when a round is kept, and behind the keep boundary only oversized ones |
| Clip.ReducedIdempotent | pkg/agent/compaction_clip.go:62-175 | a second clip and trim changes nothing |
| Clip.ReducedChanges | pkg/agent/compaction_round.go:157-168 | the two counters are zero exactly when nothing was rewritten |
| Fold.LeadingSystemCount | pkg/agent/compaction.go:247-254 | counts the leading system messages |
| Fold.PickTailStart | pkg/agent/compaction.go:275-296 | the loop walks back to a message a tail may begin with, and no further than needed |
| Fold.CompactionBounds | pkg/agent/compaction.go:197-204 | computes the head and tail bounds of a fold |
| Fold.BoundsMeaning | pkg/agent/compaction.go:197-296 | the head is the leading system messages and a user message behind them; the tail is the newest 6, or as many as configured, moved back over tool results and system messages and no further |
| Fold.FoldKeepsHead | pkg/agent/compaction.go:207-268 | a fold leaves the protected head byte for byte; the head is found again at the same place exactly when there was a goal |
| Fold.SummaryBecomesHead | pkg/agent/compaction.go:256-268 | a history of three messages without a goal whose summary becomes the protected head |
| Fold.FoldKeepsPairing | pkg/agent/compaction.go:207-296 | a fold keeps every result with its call and drops only whole rounds, the oldest |
| Threshold.RisesWithWindow | pkg/agent/compaction.go:72-95 | a larger context window never compacts earlier |
| Threshold.LeavesTheReserve | pkg/agent/compaction.go:53-95 | the threshold is at most 80% of the usable window, leaves the output reserve free, and is at least 64000 exactly where 80% reaches that |
| Threshold.ReserveMeaning | pkg/agent/compaction.go:53-70 | the reserve is the largest answer, up to a quarter of the window |
| Threshold.ThresholdByWindow | pkg/agent/compaction.go:72-95 | half of a usable window of 128000 or more, 64000 from 80000 on, 80% below |
| Anchor.ShiftIsExact | pkg/agent/compaction_anchor.go:126-152 | a shifted anchor is dropped or covers the rewritten history, and then the measured context falls by exactly the estimate of what was removed |
| Anchor.ReportMeasuresExtension | pkg/agent/compaction_anchor.go:43-88 | after a report only what was appended is estimated |
| Anchor.EstimateSplit | pkg/pool/tokens.go:141-181 | the estimate of a history is the sum over its parts |
| Anchor.SampleTokens | pkg/pool/tokens.go:141-181 | two messages measured by a tokenizer that counts characters, with every weight visible |
| Compaction.Runtime.ShiftAnchorForClip | pkg/agent/compaction_anchor.go:126-152 | the field updates carry the anchor as the specification does |
| Compaction.Runtime.NoteReportedUsage | pkg/agent/compaction_anchor.go:115-120 | a usage report sets the anchor to the history it counted |
| Compaction.Runtime.ReduceHistory | pkg/agent/compaction_round.go:155-168 | clips, trims and then shifts the anchor once for both, and nothing else |
| Compaction.Runtime.AskSummariser | pkg/agent/compaction_round.go:195-225 | the failure, call and cooldown counters after asking, or not asking, the summariser |
| Compaction.Runtime.FinishCompaction | pkg/agent/compaction_round.go:245-279 | arms the backoff when too little was freed and clears it otherwise |
| Compaction.Runtime.RunCompactionRound | pkg/agent/compaction_round.go:113-241 | the whole round, with every tracker field on every path, equals its definition, about which the next lemmas speak |
| CompactionFacts.FoldSays | pkg/agent/compaction_round.go:182-241 | a round that folds returns the reduced head, one user message whose whole content is what the summariser, or else the fallback, said, and the reduced tail |
| CompactionFacts.RoundModes | pkg/agent/compaction_round.go:155-241 | which way a round goes: a summary, a fallback, or nothing, exactly when size, middle, cooldown, reply and earlier failures say so |
| CompactionFacts.RoundCounts | pkg/agent/compaction_round.go:195-241 | a written summary sets the failure count to zero; a failed one adds one and rests the summariser for five rounds; a fold drops the anchor |
| CompactionFacts.ProgressClears | pkg/agent/compaction_round.go:245-279 | of the rounds that compact, one that freed a tenth or more of what was measured lifts the backoff, and any other arms it at a tenth of the threshold above what is left |
| CompactionFacts.DueIff | pkg/agent/compaction_round.go:89-108 | a round is due if and only if compaction is on, there is a history, the backoff is passed, and the threshold is reached or returns diminish |
| CompactionFacts.ReduceSteps | pkg/agent/compaction_round.go:155-168 | reducing is clipping and then trimming above 12000 bytes, and the anchor moves exactly when either changed something |
| CompactionFacts.RoundKeepsHistory | pkg/agent/compaction_round.go:113-241 | on every path pairing survives, the rounds left are the newest with their very calls and result ids, and the goal stays what and where it was |
| CompactionFacts.RoundLength | pkg/agent/compaction_round.go:113-241 | the history gets shorter exactly when the round folds |
| CompactionFacts.StillShrinks | pkg/agent/compaction_round.go:155-240 | with a middle worth folding, from the second failure on every round returns a shorter history or a clipped one under the threshold |
| CompactionFacts.ClipMeasuresExactly | pkg/agent/compaction_round.go:155-180 | a round that ends by clipping reports exactly the estimated drop, unless the anchor was lost |
| CompactionFacts.ReturnsUnchangedIff | pkg/agent/compaction_round.go:169-221 | a round returns the history it was given if and only if nothing was clipped and either nothing was trimmed and nothing can be folded, or the summariser fails for the first time on a middle worth folding that trimming did not get under the threshold |
| CompactionFacts.UnchangedHistorySize | pkg/agent/compaction_round.go:163-221 | what such a history measures in every case: as before when nothing was trimmed or no anchor covered it; less by what was removed before the anchor's count when the anchor still covers it; the estimate plus the overhead when the anchor is lost |
| CompactionFacts.SizeLeftAloneIff | pkg/agent/compaction_round.go:163-221 | the measured size stays if and only if nothing was trimmed, no anchor covered the history, the anchor still covers it and nothing was removed before its count, or it is lost and had reported what estimate and overhead say |
| CompactionFacts.AnchorLeftAloneIff | pkg/agent/compaction_anchor.go:126-152 | the anchor stays if and only if nothing was trimmed, there was none, or it covers the history, nothing was removed before its count and its last message was not trimmed |
| CompactionWitness.TrimOnlyFailureUnderreports | pkg/agent/compaction_round.go:150-240 | a history of 20000 tokens measures 12000 after a round that returned it unchanged |
| CompactionWitness.TrimOnlyFailureLosesTheAnchor | pkg/agent/compaction_round.go:150-240 | a run of two tool rounds with a usage report between them, whose next round returns the history unchanged and makes it measure 15065 instead of 13024 tokens |
| CompactionFacts.BackoffHolds | pkg/agent/compaction_round.go:89-108 | after a compaction that freed too little, or a round that could neither reduce nor fold, none is due until the context has grown a tenth of the threshold |
| CompactionFacts.FailingSummariserIsRarelyCalled | pkg/agent/compaction_round.go:195-225 | over any stretch without a summary the summariser is called at most 2 + (last round - first round) / 5 times |
| RunHistory.AppendToolRound | pkg/agent/loop_context.go:318-360 | appends a call message and, in order, a tool message with the text and call id of each result |
| RunHistory.EveryReachableHistoryPairs | pkg/agent/compaction_round.go:113-241 | over any interleaving of text, tool rounds, usage reports and compactions, every result stands right behind its call's message and the rounds kept are the newest |
| Messages.PairedMeaning | pkg/agent/compaction.go:256-296 | pairing by place: before each result, with only results between, stands the assistant message that made its call |
| RunHistory.NoAnsweredCallLosesItsResult | pkg/agent/compaction.go:207-296 | every message with calls in a reachable history is followed by results with exactly the ids its round was answered with when it came in, whether or not the round was complete |
| RunHistory.GoalIsProtected | pkg/agent/compaction.go:256-268 | system messages and goal are byte-identical at the same place after any number of steps |
| HistoryWindow.StableHistoryWindow | pkg/agent/loop_context.go:254-264 | the loop returns the history from the window's start |
| HistoryWindow.WindowMeaning | pkg/agent/loop_context.go:246-264 | up to 18 messages all are sent; then from the last multiple of 40 that leaves 18, moved forward over tool results and no further |
| HistoryWindow.WindowPairs | pkg/agent/loop_context.go:246-264 | the window starts on no tool result and pairs by itself |
| HistoryWindow.WindowExtends | pkg/agent/loop_context.go:246-264 | within one step of 40 messages a longer history only extends the window |
| HistoryWindow.SkippedBelongToOneRound | pkg/agent/loop_context.go:254-264 | what is cut past the step is results of one round whose call stands before it |
| HistoryWindow.WindowKeepsRecent | pkg/agent/loop_context.go:246-264 | the window holds the last 18 messages if and only if some message between the step and there is no tool result |
| HistoryWindow.WindowCanBeEmpty | pkg/agent/loop_context.go:254-264 | a well-paired history of 58 messages of which nothing is sent |
| LongRun.SegmentRetryDelay | pkg/agent/long_run.go:228-240 | the loop, doubling in wrapping int64 arithmetic, computes base * 2^(failures - 1) capped, as unbounded arithmetic does, for any base and count |
| LongRun.RetryDelayDoubles | pkg/agent/long_run.go:228-240 | the wait starts at the base and doubles with each failure up to 30 minutes |
| LongRun.AddUsage | pkg/agent/long_run.go:538-551 | adds each field into a total that is fresh on the first report; the segment's own record is never written |
| LongRun.IdleStep | pkg/agent/long_run.go:434-448 | the unproductive counter counts non-failing segments since the last productive one, skipping failures |
| LongRun.Judge | pkg/agent/long_run.go:407-449 | the verdict after a segment and both counters equal their definitions over the whole history of segments, which the lemmas on fields spell out |
| LongRun.Prepare | pkg/agent/long_run.go:306-341 | the stop decided before a segment, if any, and the wait before it, both as functions of the segments so far |
| LongRun.RunSegments | pkg/agent/long_run.go:258-462 | the run stops at the first segment that meets a stop's definition and with that stop; records, hand-overs, text and total are those of the segments run |
| LongRun.StopByFields | pkg/agent/long_run.go:258-462 | for every stop exactly when it ends a run, on the fields of the last segment, and for a stop decided before a segment on what comes before it: a blocked stop, for one, if and only if the segment was not cancelled, had no error and a result that was blocked, neither out of tokens nor of rounds, and no mere rejection of an answer given with the plan open |
| LongRun.VerdictByFields | pkg/agent/long_run.go:407-449 | the same of the verdict after one segment, where failed means an error, no result, or neither success nor blocked |
| LongRun.GateByFields | pkg/agent/long_run.go:306-341 | the stop before a segment, its token budget and the wait, on the fields of the turn |
| LongRun.CountersByFields | pkg/agent/long_run.go:407-448 | what each segment does to the two counters, on the fields of its result |
| LongRun.RecordsByFields | pkg/agent/long_run.go:345-400 | what is recorded of each segment and what it was started with |
| LongRun.ToolsByFields | pkg/agent/long_run.go:345-389 | the tools known before a segment are exactly those named by an earlier result |
| LongRun.TotalByFields | pkg/agent/long_run.go:538-551 | the total adds up field by field, and segments that report nothing add nothing |
| LongRun.DefaultLimits | pkg/agent/long_run.go:204-224 | what each limit is when it is not given |
| LongRun.FinishedMeansDone | pkg/agent/long_run.go:476-502 | "finished" implies success, neither out of rounds nor out of tokens, and no open plan step unless allowed |
| LongRun.FailingMeansInARow | pkg/agent/long_run.go:410-416 | the failure stop fires the first time exactly that many segments in a row have failed |
| LongRun.TokensWithinCap | pkg/agent/long_run.go:319-366 | in a run that stopped for any reason each segment was handed exactly what was left, and if all kept to it the task never exceeds its cap |
| LongRun.StartsWithinDuration | pkg/agent/long_run.go:315-341 | a segment starts before the duration limit if and only if no wait precedes it or the full wait is shorter than the time left |
| LongRun.StartsOnTheLimit | pkg/agent/long_run.go:327-341 | a failed segment, a base wait of 30 and 5 of 10 left: the next segment starts at 10 |
| PlanGraph.Walk.Visit | pkg/agent/plan_dag.go:125-173 | the depth-first visit: no cycle below means a work order of everything below |
| PlanGraph.PlanCycle | pkg/agent/plan_dag.go:125-173 | returns a real cycle in work order, or none and then an order to work in exists |
| PlanGraph.DagHasNoCycle | pkg/agent/plan_dag.go:125-173 | a plan with a work order has no cycle |
| PlanGraph.RefusedIsNoDag | pkg/agent/plan_dag.go:78-122 | a refusal always names steps that keep the plan from being a DAG |
| PlanGraph.ValidatePlanGraph | pkg/agent/plan_dag.go:78-122 | accepts if and only if ids are unique, references known and the graph acyclic |
| PlanGraph.WaitsMeaning | pkg/agent/plan_dag.go:62-70 | a step waits for the last step that carries an id it comes after, and for no other |
| PlanGraph.DagMeaning | pkg/agent/plan_dag.go:76-122 | in an accepted plan no id stands twice, every name is some step's id, and no steps come after one another in a ring |
| Scratchpad.OpenPredecessors | pkg/agent/plan_dag.go:176-189 | lists exactly the unfinished steps waited for, in ascending order; empty exactly when nothing blocks |
| Scratchpad.ReadySteps | pkg/agent/plan_dag.go:194-205 | lists exactly the open steps that nothing blocks |
| Scratchpad.ReadyMeaning | pkg/agent/plan_dag.go:176-205 | a step is ready if and only if it is open and every step it comes after is done; in a stored plan that holds for every done step |
| Scratchpad.SomethingIsReady | pkg/agent/plan_dag.go:194-205 | any plan with an unfinished step has a ready one |
| Scratchpad.AnyReadyOrderFinishes | pkg/agent/plan_dag.go:194-229 | checking ready steps in any order never gets stuck and finishes in exactly as many checks as there are open steps |
| Scratchpad.Manager.constructor | pkg/agent/builtin_tools_scratchpad.go:66-72 | a manager over a store of sound plans keeps them sound |
| Scratchpad.Manager.EnsureLoaded | pkg/agent/plan_store.go:109-120 | a key is read from the store at most once, and what the cache holds after it; its plan is what it was if and only if it is not the one read of a stored plan and that read fails; other keys' plans stay |
| Scratchpad.Manager.FindsPlanIff | pkg/agent/plan_store.go:71-120 | an operation finds the plan there is if and only if its read succeeds, the key was touched before, there is no store, or nothing is stored; otherwise it finds an empty one |
| Scratchpad.Manager.SetItems | pkg/agent/builtin_tools_scratchpad.go:74-91 | a flat checklist is always accepted, for this key only: one open step for each text, in order, without note, id or predecessors |
| Scratchpad.Manager.SetSteps | pkg/agent/builtin_tools_scratchpad.go:93-114 | accepted exactly for a DAG, and then every step keeps its text, id and predecessors, is open and has no note; a refusal names steps at fault and changes nothing at all |
| Scratchpad.Manager.AddStep | pkg/agent/builtin_tools_scratchpad.go:121-136 | accepted exactly when what it finds and the step together are a DAG; a refusal names what is at fault, writes nothing and leaves the plan as it was, and an acceptance puts the step behind it, if and only if the first read of a stored plan did not fail; the stored steps survive exactly then, or when nothing is written, or when the step is all that was stored |
| Scratchpad.Manager.Check | pkg/agent/builtin_tools_scratchpad.go:138-157 | marks a step exactly when it exists and waits for no open one, so the done set stays closed; the step keeps text, id and predecessors, and its note unless one is given, and no other step changes; a refusal writes nothing and leaves the plan as it was if and only if the first read of a stored plan did not fail |
| Scratchpad.Manager.Note | pkg/agent/builtin_tools_scratchpad.go:159-178 | changes one step's note and nothing else; a refusal writes nothing and leaves the plan as it was if and only if the first read of a stored plan did not fail |
| Scratchpad.Manager.Get | pkg/agent/builtin_tools_scratchpad.go:180-187 | returns the key's plan if and only if it is not the first read of a stored plan and that read fails |
| Scratchpad.FailedReadLosesThePlan | pkg/agent/plan_store.go:71-120 | one stored step, a failed first read: a step after it is refused, the plan reads as empty from then on, and the next accepted step replaces it in the store |
| JsonExtract.ValueRuns | pkg/agent/json_lenient.go:34-60 | whatever a printed value contains, the brace scanner is in the same state after it |
| JsonExtract.ObjectCloses | pkg/agent/json_lenient.go:34-60 | a scan that starts at a printed object ends at its last brace, whatever follows |
| JsonExtract.CloseMeaning | pkg/agent/json_lenient.go:34-61 | the scanner stops at the first place where, outside string literals, as many braces have closed as opened, and nowhere if there is none |
| JsonReply.StripJSONCodeFences | pkg/agent/json_lenient.go:65-82 | the slice left after the fence, its tag line and the closing fence are cut |
| JsonReply.StripMeaning | pkg/agent/json_lenient.go:65-82 | what stays of a reply: all of it, trimmed, without a fence; else what stands between the first fence, with its line unless JSON could start there, and the next fence or the end, trimmed |
| JsonReply.ScanObject | pkg/agent/json_lenient.go:30-62 | the one-pass loop finds the closing brace the scanner automaton defines |
| JsonReply.ExtractJSONObject | pkg/agent/json_lenient.go:24-62 | what is returned is accepted by json.Valid and runs from the first brace of the stripped reply to the first place that balances it; nothing is returned exactly when there is no such text or json.Valid rejects it |
| JsonReply.ExtractedMeaning | pkg/agent/json_lenient.go:24-62 | the same of the definition: an accepted candidate, or none, and there is never more than one candidate |
| JsonReply.PlainReply | pkg/agent/json_lenient.go:24-82 | without a fence before it an object is extracted if and only if no brace precedes it and no fence stands anywhere |
| JsonReply.FencedReply | pkg/agent/json_lenient.go:24-82 | behind the first fence an object is extracted if and only if no brace stands in between and no fence inside it |
| JsonReply.StrayBraceDefeats | pkg/agent/json_lenient.go:30-62 | an object behind a stray brace is not found |
| JsonReply.LaterFenceDefeats | pkg/agent/json_lenient.go:65-82 | an object in front of a code fence is not found |
| JsonReply.BraceInFenceDefeats | pkg/agent/json_lenient.go:65-82 | nor is one behind a stray brace inside the fence |
| JsonReply.PlainReplyExtracts | pkg/agent/json_lenient.go:24-62 | extraction inverts every printing of every object with prose around it |
| JsonReply.FencedReplyExtracts | pkg/agent/json_lenient.go:65-82 | and inside a fence with any tag, whatever precedes the fence |
| Pager.SplitLosesNothing | pkg/agent/builtin_tools_sandbox.go:113-118 | the lines joined by newlines are the content |
| Pager.LinesMeaning | pkg/agent/builtin_tools_sandbox.go:113-118 | a final newline starts no line; otherwise the lines joined are the content |
| Pager.WithLineNumbers | pkg/agent/builtin_tools_sandbox.go:112-164 | text, counts, bounds and next offset of a page, for any offset and limit |
| Pager.Render | pkg/agent/builtin_tools_sandbox.go:129-149 | the loop's buffer is the rendering of the page's lines, and it stops exactly at the budget |
| Pager.RenderedMeaning | pkg/agent/builtin_tools_sandbox.go:134-145 | a shown line is its number from 1 in a column of six, a tab and its text, of which at most 2000 bytes of whole runes with a note of how many are shown |
| Pager.ShowsEachLine | pkg/agent/builtin_tools_sandbox.go:129-149 | each line of a page stands in it, in its place |
| Pager.StopMeaning | pkg/agent/builtin_tools_sandbox.go:123-149 | an explicit limit is kept to the line; a default page has up to 2000 lines and ends sooner only before a line that would pass 24000 bytes |
| Pager.TrailerMeaning | pkg/agent/builtin_tools_sandbox.go:155-161 | the trailer names the first and last line shown, the total and the next offset |
| Text.DecimalMeaning | pkg/agent/builtin_tools_sandbox.go:140-144 | numbers are printed as the digits that spell them, with no zero in front |
| Pager.AdvancesIff | pkg/agent/builtin_tools_sandbox.go:123-146 | a page advances if and only if offset plus limit does not overflow |
| Pager.LargestLimitStalls | pkg/agent/builtin_tools_sandbox.go:123-129 | the second of two lines asked for with the largest limit: the page is empty and does not advance |
| Pager.NothingSkipped | pkg/agent/builtin_tools_sandbox.go:152-161 | following next offsets with any limits shows consecutive lines, each once |
| Pager.WholeFileRead | pkg/agent/builtin_tools_sandbox.go:112-164 | and shows the whole file within as many pages as it has lines |
| Pager.OverflowingLimitsStall | pkg/agent/builtin_tools_sandbox.go:126-129 | with limits that overflow at its offset a reader gets nothing, however often it asks |
| Pager.DefaultPageFits | pkg/agent/builtin_tools_sandbox.go:85-149 | a default page's body stays within 24000 bytes |
| TraceForest.NodeOfItsLines | cmd/agentgo-trace/main.go:317-386 | what a node takes from which of its lines |
| TraceForest.NodeMeaning | cmd/agentgo-trace/main.go:317-386 | on the lines themselves: which are counted and for which node, and that it takes span and first time from the first of them, its start from the last that starts it, parent and trace from the first that give one |
| TraceForest.PlainIdsKeyTheForest | cmd/agentgo-trace/main.go:319-326 | with ids that are no legacy keys, what is found as a parent is the span it names |
| TraceForest.Flows.constructor | cmd/agentgo-trace/main.go:317-406 | the three loops leave every node with exactly its children, each once, in time order |
| TraceForest.KidsInTime | cmd/agentgo-trace/main.go:294-299 | children stand by the time of their start, or of their first line while none is known |
| TraceFlow.Walk | cmd/agentgo-trace/main.go:804-815 | the recursive walk ends, and prints a span followed by its children's parts |
| TraceFlow.WalkEndsIff | cmd/agentgo-trace/main.go:804-815 | a walk's depth is bounded if and only if it starts off every parent cycle |
| TraceFlow.PrintEndsIff | cmd/agentgo-trace/main.go:747-833 | printing a trace starts on no cycle, and so ends, if and only if every circle of parent links lies wholly inside or wholly outside the trace |
| TraceFlow.PrintsWhatIsBelow | cmd/agentgo-trace/main.go:804-815 | a walk prints exactly what lies below its start, each span once |
| TraceFlow.PrintsDownwards | cmd/agentgo-trace/main.go:804-815 | wherever it has come to, the walk prints a span before everything below it |
| TraceFlow.PrintsSiblingsInOrder | cmd/agentgo-trace/main.go:804-815 | and everything below a child before everything below a later child, which fixes the order of the print |
| TraceFlow.PrintsStartsInOrder | cmd/agentgo-trace/main.go:816-833 | and everything below one start before everything below a later one |
| TraceFlow.PrintFlow | cmd/agentgo-trace/main.go:747-833 | starts at exactly the roots and the spans with a missing parent, each once; roots first, then by the missing parent's id, in time order within each group |
| TraceFlow.InTheTrace | cmd/agentgo-trace/main.go:747-758 | a span is printed for an id that is its whole trace id, or at least 8 characters its trace id begins with |
| TraceFlow.StartMeaning | cmd/agentgo-trace/main.go:762-774 | a walk starts at a span of the trace that names no parent, or none that is a span of the trace |
| TraceFlow.StartsInOrder | cmd/agentgo-trace/main.go:762-833 | starts stand by their parents' ids, and those with one parent by time |
| TraceFlow.UpToMeaning | cmd/agentgo-trace/main.go:697-704 | ids are ordered by their first difference, a beginning before what it begins |
| TraceFlow.StartsAreTops | cmd/agentgo-trace/main.go:762-774 | within one trace no walk starts on a cycle, so printing always ends |
| TraceFlow.PrintsTheFlow | cmd/agentgo-trace/main.go:747-833 | prints exactly the member spans whose parents lead up to a root or a missing parent, each once |
| TraceFlow.LeftOutIff | cmd/agentgo-trace/main.go:762-833 | what is not printed is exactly what hangs below a cycle |
| TraceFlow.CrossTraceLoop | cmd/agentgo-trace/main.go:396-400 | two lines of two traces whose walk has no end |
| Background.Registry.HasRoom | pkg/agent/background.go:171-183 | the first lock section counts the tasks whose status is running and compares with the maximum |
| Background.Registry.Insert | pkg/agent/background.go:230-233 | the second adds a running task at the end of the order |
| Background.Registry.Finish | pkg/agent/background.go:253-283 | a task that is still remembered has the status, text and error its ending gives; no other task changes, and the book stays sound |
| Background.EndMeaning | pkg/agent/background.go:253-283 | an error, and a run without a result, is a failure; a cancelled run is cancelled even if blocked; then blocked, else completed, with the text of the result |
| Background.Registry.PruneLocked | pkg/agent/background.go:288-310 | the loop with a falling drop count removes exactly the oldest finished tasks past the limit |
| Background.SweepTakesTheOldest | pkg/agent/background.go:299-309 | pruning takes a prefix of the finished tasks in start order and no running one |
| Background.ForgetsOnlyTheOldest | pkg/agent/background.go:285-310 | no running task is forgotten; the newest finished ones stay unchanged |
| Background.CollectableIff | pkg/agent/background.go:253-310 | an ended task is remembered if and only if fewer than the keep limit of the tasks started after it have ended |
| Background.EndsUncollected | pkg/agent/background.go:253-310 | from an idle registry, for every keep limit: a run after which the end of the still running first task leaves no trace of it |
| Background.EveryRunIsBounded | pkg/agent/background.go:171-233 | on every interleaving the order lists exactly the remembered tasks in start order, finished ones within the limit, and at most max - 1 + k tasks run or are about to |
| Background.CeilingHoldsIff | pkg/agent/background.go:171-233 | at most max tasks run on every interleaving if and only if at most one caller starts at a time |
| Subscriptions.Manager.SubscribeTask | pkg/agent/async_tasks.go:163-186 | an unknown task changes nothing; otherwise the new channel owes as many sends as the task has recorded events, and is added to the subscribers, or, when the task has ended, left for the subscriber to close |
| Subscriptions.Manager.CancelSubscription | pkg/agent/async_tasks.go:195-211 | a registered channel leaves its task's set and is closed, once, an emptied entry goes, and any other call closes nothing |
| Subscriptions.Manager.CollectSubscribers | pkg/agent/async_tasks_helpers.go:132-141 | collects every subscriber of a task exactly once |
| Subscriptions.Manager.RecordEvent | pkg/agent/async_tasks_helpers.go:123-130 | a known task remembers one event more, up to 200; an unknown one none |
| Subscriptions.Manager.EmitLocked | pkg/agent/async_tasks_helpers.go:50-85 | collects every subscriber once for its emitter, and only a terminal event takes them out of the map |
| Subscriptions.Manager.SendOne | pkg/agent/async_tasks_helpers.go:143-154 | one send of the loop over the collected channels |
| Subscriptions.Manager.CloseOne | pkg/agent/async_tasks_helpers.go:143-154 | one close of that loop |
| Subscriptions.StepConserves | pkg/agent/async_tasks_helpers.go:43-85 | no step makes or loses the right to close a channel |
| Subscriptions.ClosedAtMostOnce | pkg/agent/async_tasks.go:163-212 | on every interleaving no channel is closed twice, and one nobody can still close has been closed |
| Subscriptions.ClosedIff | pkg/agent/async_tasks.go:163-212 | in every reachable state a channel is closed if and only if it was made, has left the map, no terminal emitter holds it and it is no ended task's subscriber's own |
| Subscriptions.SendMeetsClosedIff | pkg/agent/async_tasks_helpers.go:143-154 | in every reachable state the next send of an emitter or of a backlog meets a closed channel if and only if nobody may close that channel any more |
| Subscriptions.NothingLostIff | pkg/agent/async_tasks_helpers.go:143-154 | a run loses no send if and only if each is made while its channel is registered, held by a terminal emitter, or an ended task's subscriber's own |
| Subscriptions.OnlyPlainSendsAreLost | pkg/agent/async_tasks_helpers.go:143-154 | terminal sends and an ended task's backlog never meet a closed channel |
| Subscriptions.PlainSendsCanBeLost | pkg/agent/async_tasks.go:188-211 | two runs in which a send meets a closed channel: a plain emit after an unsubscribe, a backlog after a terminal emit |
| StableSort.OnlyOneStableSort | pkg/agent/hooks.go:376-382 | order and stability fix the result of a stable sort |
| Hooks.Registry.Register | pkg/agent/hooks.go:149-176 | after appending and sorting, every list is the registered hooks of its event, stably sorted |
| Hooks.Registry.Unregister | pkg/agent/hooks.go:279-302 | true exactly when the id is registered; that hook is gone and every list stays sorted |
| Hooks.TakesOutOne | pkg/agent/hooks.go:284-299 | exactly one hook leaves and the others keep their order |
| Hooks.Registry.SetEnabled | pkg/agent/hooks.go:348-364 | flips one hook's flag and no other's |
| Hooks.RunsInOrder | pkg/agent/hooks.go:376-382 | each list holds exactly the hooks of its event, each once, by rising priority number, and of two hooks the one registered first runs first unless its number is higher |
| Hooks.FoldMeaning | pkg/agent/hooks.go:229-276 | one more hook in line: nothing after an error, nothing when it is disabled or its matcher says no, else what it replies to the data as it stands |
| StableSort.SortKeepsBefore | pkg/agent/hooks.go:376-382 | of two elements the first stays first unless it ranks above the other |
| Hooks.Registry.EmitWithResult | pkg/agent/hooks.go:229-276 | the fold over the enabled matching hooks, global ones first, data threaded |
| Hooks.FirstErrorStops | pkg/agent/hooks.go:229-276 | nothing after the first error has any effect |

## Left out

- Model calls, providers, HTTP, SQLite, MCP, skills, memory and RAG: calls into code outside the modelled files.
- The wording of summaries, fallback summaries and stubs: parameters; only the marker a stub starts with and a bound on a notice's length are assumed.
- `summarizeForCompaction`'s growing budget and `resolveCompactionThreshold`: the summariser's reply and the threshold are parameters of a round.
- Image parts of tool results (pkg/agent/loop_context.go:349): a user message between two results breaks the contiguity that pairing across a fold needs.
- Threshold.LeavesTheReserve: shares are exact rationals, because rounding of float64 is not the point; the 10% backoff share is likewise exact.
- Estimates, counters and durations are unbounded integers, except in the retry delay and the pager, where 64-bit overflow is the point.
- LongRun.StartsWithinDuration: elapsed time is a parameter of each turn; sleeping, jitter and wall clocks are not modelled.
- Scratchpad.Manager.SetItems: that callers share the returned slice with the store is not modelled; lists are values.
- Plan views, labels and payloads (pkg/agent/plan_dag.go:209-283): presentation.
- JsonReply.ExtractJSONObject: a reply is a sequence of code points, where the code scans bytes (the characters it looks for are all ASCII); `json.Valid` is a parameter.
- TraceFlow.PrintFlow: labels, tree branches, the missing-parent lines and the totals are not modelled.
- Spans' kinds, hosts, durations and attached lines (cmd/agentgo-trace/main.go:327-386): they do not shape the forest.
- Background.EveryRunIsBounded: the goroutine that runs a task, its context and waiting for it at close are not modelled.
- Status changes of async tasks: they are free steps here, because the code does not make an ended status final.
- Subscriptions.Manager.SendOne: what a channel holds is not modelled, so a send that goes through and one that times out after 250 ms are the same step; a send that waits while its channel is closed is one made after the close.
- Hooks.Registry.EmitWithResult: handlers and matchers are functions of event and data, the time stamp is part of the data, and a handler that changes the registry is not modelled.
- `Emit`, `List`, `Get` and `Clear` of the hook registry: they add only easy members.
