# Verified models of the agent, capture and routing cores

Dafny 4.11 models of the parts of the repository whose correctness depends on
whole runs rather than on single functions, with the properties they keep.
`dafny verify dfyconfig.toml` checks everything.

| file | models | main result |
|---|---|---|
| `Protocol.dfy` | `apps/agent/src/protocol.rs` | a message list is *closed* (a left-to-right scanner accepts it) exactly when every call of every completed reply is answered in place, in order, and no result is an orphan |
| `Session.dfy` | `apps/agent/src/session.rs` | the append-only log replays to the fields in memory after every operation, and to the summary plus a prefix when cut inside an archive |
| `Recovery.dfy`, `Archive.dfy` | `apps/agent/src/recovery.rs`, `apps/agent/src/archive.rs` | an archive plan is the largest legal choice within its budget, keeps the context closed, and the served prompt is found again |
| `State.dfy` | `apps/agent/src/state.rs`, `apps/agent/src/lib.rs` | admission, steering queues and the end of a run under one lock: nothing accepted is lost, duplicated or reordered |
| `Loop.dfy`, `Outcomes.dfy`, `Agent.dfy` | `apps/agent/src/agent.rs` | one pass of the loop as a function, what it leaves behind read off the conversation, and the loop proved to compute it; whole runs, for every script of replies, cancellations and other clients' commands |
| `Dangling.dfy` | `apps/agent/src/agent.rs` | which scripts can leave a call without a result, and one that does |
| `Conversation.dfy` | `apps/agent/src/lib.rs`, `apps/agent/src/session.rs` | commands, runs, compactions and reopenings of one file in any order: every request is paired |
| `Transform.dfy`, `Arrival.dfy` | `apps/agent/src/provider/transform.rs` | what reaches the provider is acceptable for every context and says what was said in it, and is the context itself for a paired one |
| `Held.dfy`, `Guard.dfy` | `apps/capture/src/guard.rs` | the input guard loop: strokes alternate and everything is released on every way out |
| `Lease.dfy` | `apps/capture/src/guard.rs` | the two-process lease protocol with a clock and message delay |
| `Capture.dfy`, `Input.dfy` | `apps/capture/src/state.rs` | leases, closes and unconfirmed releases over all interleavings; input packets of a lease reach the guard in order and once |
| `Preview.dfy`, `Engine.dfy` | `apps/capture/src/preview.rs`, `apps/capture/src/engine.rs` | challenges and the bounded reply cache; the keyframe gate |
| `H264.dfy` | `apps/capture/src/h264.rs` | parsing an SPS inverts the encoder of ITU-T H.264 |
| `Queue.dfy` | `testing/framework/queue.ts` | Graham's bound for longest-processing-time scheduling, and that it is reached |
| `Routing.dfy` | `apps/daemon/src/agent_routing.rs` | retrying with failed routes excluded lists every route once, in order |

Code that changes state step by step is a class or a method with loops, proved
against functions on values, and those functions have laws of their own, stated
over the messages, times and numbers themselves; code made of expressions is
functions and lemmas; protocols are transition systems whose theorems range over
every list of steps.  What the environment decides (provider replies, other clients, clocks, the
outcome of native calls) is an input, and nothing is assumed about it unless the
row says so.

## What the proofs found

- A run that starts from a paired context makes only paired requests, whatever
  the replies are: a failed reply is never replayed to a provider, so its calls
  owe nothing.  That start is needed: when its first pass makes a request, that
  request is paired exactly when the context it found was
  (`AgentLoop.FirstRequestDecides`).
- **After** a run the context is paired unless the run ended on a second context
  overflow, after side effects, with a reply that carries calls;
  `AgentLoop.DanglingOnly` is an if-and-only-if, and
  `AgentDangling.SecondOverflowDangles` a run that ends like that.  Such a reply
  was cut off by the token limit, carries calls and reports zero output, so a
  script without one always leaves a paired context, and a conversation without
  one makes only paired requests (`AgentConversation.Converse`); with one, the
  next run may not (`AgentConversation.ZeroOutputBreaksNextRun`).  A process that
  dies between a reply and its results also leaves an unpaired file.
- The provider layer repairs both: for every context, what it sends has a result
  for each call and no orphan; what is missing is made up as an error.  A paired
  context loses a result in two cases, each with its exact condition: a reply
  that uses one id for two calls loses the second result
  (`Transform.ClosedIsKept`), and a call whose id an earlier reply of another
  model used, and which had to be renamed for that one, loses its result
  (`Transform.RenamingKeepsClosed`, `Transform.SharedIdLosesResult`).
- A run that fails cleanly restores `usage_floor` exactly when the floor was not
  beyond the end of the context.  A log cut inside an archive replays to such a
  floor, and `AgentLoop.CutArchiveLosesFloor` shows one that is lowered.
- `ArchiveBudget` is meant to keep a summary and its tail under the threshold
  that triggers the next archive; for windows below 3413 tokens the lower clamp
  of the projection defeats that (`Recovery.BudgetsFit`).
- The last turn of a run is left open by exactly one exit, the cancellation of a
  threshold archive.
- A renewal that was answered in time and delivered after the authority died is
  accepted: "at most one more" cannot be improved to none
  (`LeaseProtocol.OneRenewalSlipsThrough`).
- The SPS size is the true one exactly when neither of its two subtractions
  leaves 32 bits, with the wrap-around of a release build; a debug build stops
  at the first overflow instead.
- The factor 4/3 - 1/(3m) is reached by the durations 3 3 2 2 2 on two workers.

## Model

| member | source | states |
|---|---|---|
| Protocol.ClosedIsPaired | apps/agent/src/agent.rs:714-850 | a list the scanner accepts has each call answered right after its reply, in order, and no orphan result |
| Protocol.PairedIsClosed | apps/agent/src/agent.rs:714-850 | and the scanner accepts every such list |
| Protocol.EachCallAnswered | apps/agent/src/agent.rs:714-850 | in a paired list the k-th message after a reply that did not fail is the result of its k-th call, by id and name |
| Protocol.CallsInOrder | apps/agent/src/agent.rs:271-271 | the calls of a reply are its tool-call blocks, one for each, in order |
| Protocol.ClosedSplit | apps/agent/src/recovery.rs:272-290 | a closed list may be cut before anything that is not a tool result |
| Protocol.ExchangeCloses | apps/agent/src/agent.rs:292-316 | a reply followed by one result per call closes the exchange |
| Protocol.UserSettlesNothing | apps/agent/src/agent.rs:400-425 | a user message neither closes nor breaks a list |
| SessionLog.Session.Open | apps/agent/src/session.rs:206-280 | loading a log computes exactly its replay |
| SessionLog.Session.AppendMessage | apps/agent/src/session.rs:83-90 | one message more in memory and one entry more in the log, which still replays to memory |
| SessionLog.Session.RollbackFailedTurn | apps/agent/src/session.rs:91-101 | the messages are cut, the floor lowered to the cut, and the log says so; nothing happens when there is nothing to cut |
| SessionLog.Session.ReplaceWithArchive | apps/agent/src/session.rs:122-144 | summary plus kept messages, floor at their end, and a log that replays to that |
| SessionLog.Session.ReplaceWithCompaction | apps/agent/src/session.rs:146-160 | the summary alone, with the floor after it |
| SessionLog.Session.SetName | apps/agent/src/session.rs:78-82 | only the name changes, in memory and on replay |
| SessionLog.Session.AppendEntry | apps/agent/src/session.rs:162-177 | entries form one parentId chain and the leaf is the last of them |
| SessionLog.CutArchiveReplays | apps/agent/src/session.rs:122-144 | however much of an archive reached the log, it replays to the summary and a prefix of the kept messages |
| SessionLog.FreshFromFloor | apps/agent/src/session.rs:234-265 | every message from the floor on was first written after the latest archive or compaction |
| SessionLog.CutLogOwing | apps/agent/src/session.rs:206-280 | which also holds of a log cut anywhere |
| Recovery.LastReport | apps/agent/src/recovery.rs:197-226 | the latest usable report at or after the floor, if there is one |
| Recovery.NothingCounts | apps/agent/src/recovery.rs:197-233 | an empty context counts the overhead alone |
| Recovery.MessageCounts | apps/agent/src/recovery.rs:197-233 | a message without a usable report of its own, or before the floor, raises the count by exactly its estimate, whatever was reported before |
| Recovery.ReportCounts | apps/agent/src/recovery.rs:197-233 | a usable report at or after the floor makes the count its reported total, or the sum of its parts |
| Recovery.ThresholdIsExact | apps/agent/src/recovery.rs:235-239 | over the threshold means more than four fifths of the window, exactly, for windows below 2^57 tokens; never without a window |
| Recovery.RetryableMeans | apps/agent/src/recovery.rs:159-181 | only errors are retried, never an overflow or an authentication failure, and which statuses decide |
| Recovery.DelaysDouble | apps/agent/src/recovery.rs:183-189 | the wait doubles with each attempt, twenty times at most and up to 64 bits |
| Recovery.DelayIsLengthened | apps/agent/src/recovery.rs:183-189 | a requested wait is granted up to a minute and never shortens the own one |
| Recovery.AnswersKeepQuestions | apps/agent/src/recovery.rs:272-290 | a legal cut never separates a person's answer from the question it answers |
| Recovery.SuffixCosts | apps/agent/src/recovery.rs:305-308 | the table of running sums equals direct summation |
| Recovery.PlanArchive | apps/agent/src/recovery.rs:296-322 | the loops compute the plan function |
| Recovery.PlanIsProper | apps/agent/src/recovery.rs:292-322 | a plan is a strictly ascending proper subset that holds the pinned block |
| Recovery.PlanCost | apps/agent/src/recovery.rs:309-321 | it costs at most the tail budget, or exactly what the pinned block costs |
| Recovery.PlanIsLargest | apps/agent/src/recovery.rs:309-321 | no legal choice of either form within the budget keeps a message the plan drops |
| Recovery.PlanGrows | apps/agent/src/recovery.rs:292-322 | a larger budget keeps every message a smaller one keeps |
| Recovery.PlanGivesUp | apps/agent/src/recovery.rs:298-301 | there is no plan exactly when nothing could be archived |
| Recovery.BudgetsFit | apps/agent/src/recovery.rs:241-263 | the budgets of an archive stay under the threshold exactly for windows of 3413 tokens and more |
| Recovery.BudgetsAre | apps/agent/src/recovery.rs:248-259 | both budgets are their share of the window between fixed limits, rounded down |
| Archives.LegalCutMeans | apps/agent/src/recovery.rs:272-290 | which places of a closed context may be cut, in terms of calls and results |
| Recovery.NoCutInPin | apps/agent/src/recovery.rs:301-304 | nothing inside the pinned block is a legal cut |
| Archives.PlanKeepsClosed | apps/agent/src/recovery.rs:266-322 | summary plus kept messages are closed when the context was |
| Archives.PinnedSurvives | apps/agent/src/archive.rs:252-262 | the served prompt sits at its new index |
| Archives.ReportIsFresh | apps/agent/src/recovery.rs:190-233 | the token count never rests on a report from a context that no longer exists |
| AgentState.State.Handle | apps/agent/src/lib.rs:176-412 | a command is queued, starts a run or is refused as promised, and changes no message |
| AgentState.State.Admit | apps/agent/src/lib.rs:183-271 | queued exactly while streaming, not compacting, with a queue named |
| AgentState.State.TakeQueued | apps/agent/src/agent.rs:372-380 | first in first out, follow-ups only when stopping with no steering left; a stopping run that finds nothing ends in the same section |
| AgentState.State.DrainAndStop | apps/agent/src/state.rs:89-95 | everything still queued, steering first, as the run ends |
| AgentState.State.RunCompaction | apps/agent/src/lib.rs:414-534 | nothing is admitted until the summary is in place |
| AgentState.AdmitBalances | apps/agent/src/lib.rs:230-271 | admissions keep each queue's ledger: accepted is taken plus waiting, in order |
| AgentState.TakeBalances | apps/agent/src/state.rs:77-88 | and so does taking the first of a queue |
| AgentState.SteeringFirst | apps/agent/src/state.rs:77-88 | steering goes before follow-ups, which only a stopping run takes; each queue is first in, first out |
| AgentSteps.FinishReply | apps/agent/src/agent.rs:677-700 | a second empty answer in a row becomes an error; usage and calls are those of the stream, and a length stop stays one otherwise |
| AgentSteps.ResultsFor | apps/agent/src/agent.rs:744-850 | one result per call, in order, with its id and name |
| AgentLoop.Run.StreamAssistant | apps/agent/src/agent.rs:508-712 | the request carries the whole context and the prompt's index, and is counted |
| AgentLoop.Run.Archive | apps/agent/src/archive.rs:194-263 | replaced, cancelled or nothing to do, exactly as plan and cancellation decide, and the prompt keeps its place |
| AgentOutcomes.ArchiveLeaves | apps/agent/src/archive.rs:194-263 | the summary, then kept messages in ascending order, the prompt among them at the index returned; nothing is admitted meanwhile |
| AgentSteps.FailedReplies | apps/agent/src/agent.rs:173-239 | a failed reply ends the run exactly when retries are off as it is judged, used up, or the failure is not transient; a clean run is then rolled back to its prompt |
| AgentSteps.RetriesRepeat | apps/agent/src/agent.rs:173-218 | a retry makes the very same request again |
| AgentOutcomes.RetriedExactly | apps/agent/src/agent.rs:173-182 | an error is replayed exactly when retries are on and left and the failure is transient, by status and text |
| AgentOutcomes.FirstReplyIsRecoverable | apps/agent/src/agent.rs:44-57 | every run has all its retries and its one recovery, whatever earlier runs used up |
| AgentSteps.RequestsExtend | apps/agent/src/agent.rs:59-361 | unless an overflow was archived away, what a pass sent is the beginning of the next context |
| AgentLoop.Run.RecoverOverflow | apps/agent/src/agent.rs:125-171 | one recovery per run; each outcome, the context and the frames it leaves |
| AgentOutcomes.OverflowsExactly | apps/agent/src/agent.rs:125-131 | which replies are put down to an overflow |
| AgentOutcomes.OverflowsRecoverOnce | apps/agent/src/agent.rs:125-171 | the first overflow is answered by an archive of what was sent; the second fails the run and takes a clean one back |
| AgentLoop.Run.Backoff | apps/agent/src/agent.rs:173-218 | the failed reply leaves the context, the attempt is counted, and these are the frames |
| AgentLoop.Run.Continue | apps/agent/src/agent.rs:241-256 | an empty answer stays and is continued once |
| AgentOutcomes.ContinuesExactly | apps/agent/src/agent.rs:241-256 | a kept reply is asked to go on exactly when it ended by itself or at the limit with nothing but thinking and blanks |
| AgentLoop.Run.GiveUp | apps/agent/src/agent.rs:471-484 | rolled back to before the prompt exactly when the run has no side effects |
| AgentLoop.Run.Answer | apps/agent/src/agent.rs:271-290 | a complete answer ends the run exactly when nothing is queued at the last look; otherwise the head of the queues follows it |
| AgentOutcomes.QueuesFollowAnswer | apps/agent/src/agent.rs:271-290 | the run ends exactly when both queues are empty at the last look; otherwise the first steering message, or else the first follow-up, follows the answer |
| AgentLoop.Run.ServeCalls | apps/agent/src/agent.rs:292-361 | the calls' results, media and steering join as the pass function has them, whose content the laws of `AgentOutcomes` state |
| AgentOutcomes.ServedInOrder | apps/agent/src/agent.rs:292-316 | the context before, then one result for each call, then whatever else joins; from then on nothing is rolled back |
| AgentOutcomes.ServedResult | apps/agent/src/agent.rs:292-316 | the k-th message after a reply carries what the tool of its k-th call said, or is an error if the reply was cut off |
| AgentOutcomes.CutOffRunsNothing | apps/agent/src/agent.rs:714-742 | of a reply cut off by the limit nothing a tool would have done is left: passes that differ only in it come to the same |
| AgentOutcomes.AsksExactly | apps/agent/src/agent.rs:744-850 | a run waits for the person exactly when the one call asks and the question is well formed |
| AgentOutcomes.ServedMedia | apps/agent/src/agent.rs:309-340 | after the results at most one user message, with exactly the media no earlier user message carries |
| AgentOutcomes.SteeringFollowsTools | apps/agent/src/agent.rs:357-361 | after results and media at most one steering message, the first, and no follow-up |
| AgentLoop.Run.Judge | apps/agent/src/agent.rs:125-361 | which replies are replayed, continued, served or final, and the context each leaves |
| AgentLoop.Run.PassOn | apps/agent/src/agent.rs:59-123 | a pass ends without a model, archives when due, or makes one request of the context as it stands |
| AgentOutcomes.RequestsUnlessFull | apps/agent/src/agent.rs:59-117 | a pass makes one request of the context as it stands, unless there is no model or it archives |
| AgentOutcomes.SentUnderThreshold | apps/agent/src/agent.rs:84-115 | what is sent counts at most four fifths of the window, unless archiving is off, useless or was just done |
| AgentOutcomes.ChecksWhatIsSent | apps/agent/src/agent.rs:90-115 | the length checked is that of the context sent, or of what the archive left |
| AgentOutcomes.FirstRequestAsks | apps/agent/src/agent.rs:26-57 | the first request carries the context the run found and the prompt as its last message |
| AgentLoop.Run.Settle | apps/agent/src/agent.rs:400-425 | leftovers join the conversation in order, steering first, or go with a rolled-back run |
| AgentLoop.RunPrompt | apps/agent/src/agent.rs:26-368 | from any context and for every script: exit, requests and what is left are those the passes come to in turn, with the invariant while the run goes on and what holds once it is over |
| AgentLoop.RequestsArePaired | apps/agent/src/agent.rs:59-362 | from a paired context, every request ever made carried a paired context with the served prompt in its place |
| AgentLoop.FirstRequestDecides | apps/agent/src/agent.rs:26-123 | when the first pass of a run makes a request, that request is paired if and only if the run started from a paired context |
| AgentLoop.DanglingOnly | apps/agent/src/agent.rs:128-171 | after a run from a paired context the context is paired if and only if the run did not end on the one exit that leaves calls behind |
| AgentLoop.QuietRunsStayPaired | apps/agent/src/agent.rs:128-171 | a script without a zero-output reply that carries calls always leaves a paired context |
| AgentDangling.GaveUpOn | apps/agent/src/agent.rs:128-171 | a run that gives up on an overflow gives up on a reply of its script |
| AgentDangling.SecondOverflowDangles | apps/agent/src/agent.rs:128-171 | a run with tool results, one archive and a second overflow, after which a call has no result |
| AgentLoop.RunsEnd | apps/agent/src/agent.rs:90-257 | of a run that goes on or is over: at most 2 * max_retries + 3 requests between progress points, bounded passes in all, and every progress point is a tool result or a queued message |
| AgentConversation.Happen | apps/agent/src/lib.rs:176-534 | one command, or a reopening, with everything that comes of it: what is left and which requests were made |
| AgentConversation.Reopen | apps/agent/src/session.rs:206-280 | reopening restores messages and floor, and forgets queues and switches |
| AgentConversation.Converse | apps/agent/src/lib.rs:132-534 | over commands, runs, compactions and reopenings in any order every request is paired, if the file was and no reply reports zero output and yet carries calls |
| AgentConversation.ZeroOutputBreaksNextRun | apps/agent/src/agent.rs:128-171 | a conversation of two runs in which that hypothesis fails and a request is not paired |
| AgentConversation.CutReplyIsUnpaired | apps/agent/src/session.rs:206-280 | a log cut between a reply and its results never replays to a paired context |
| AgentConversation.PairedReachesModel | apps/agent/src/provider/transform.rs:24-166 | a paired request to the model that wrote it arrives with every result and none made up, if no reply uses an id twice |
| Arrival.TransformMessages | apps/agent/src/provider/transform.rs:24-114 | for every context, whichever models wrote it and however ids are renamed: live replies only, each followed by results for all its calls and for nothing else; everyone is heard in order, and every result is the context's own or a made-up error |
| Arrival.EveryoneIsHeard | apps/agent/src/provider/transform.rs:24-166 | users verbatim; own replies block by block but for unsigned blank thinking; of other models all text and calls in order, thinking as text, redacted thinking never |
| Arrival.PeopleAreQuoted | apps/agent/src/provider/transform.rs:24-166 | what people said arrives unchanged, in order, and nothing is put in their mouths |
| Arrival.WholeReplyArrives | apps/agent/src/provider/transform.rs:52-89 | an own reply without such thinking arrives as it is |
| Arrival.NoThinkingArrives | apps/agent/src/provider/transform.rs:52-89 | no thinking block of another model's reply arrives |
| Arrival.ResultsAreHeard | apps/agent/src/provider/transform.rs:118-166 | every result that arrives is one of the context, under its id or the renamed one, or a made-up error |
| Arrival.OwnContextArrives | apps/agent/src/provider/transform.rs:24-166 | a paired context of one model, without failed replies and idle thinking, arrives as it is if and only if no reply uses one id for two calls |
| Transform.PairingRepairs | apps/agent/src/provider/transform.rs:118-166 | one scan with pending calls and seen ids equals the repair of each exchange on its own |
| Transform.RepairServes | apps/agent/src/provider/transform.rs:118-166 | a repaired exchange holds a result for each call, of none else, and never two for distinct ids |
| Transform.ClosedIsKept | apps/agent/src/provider/transform.rs:118-166 | a paired list of live replies passes unchanged if and only if no reply uses one id for two calls |
| Transform.RenamingKeepsClosed | apps/agent/src/provider/transform.rs:29-114 | the first pass keeps a paired context paired if and only if no result answers the model's own call under an id renamed for an earlier reply of another model |
| Transform.OwnContextIsKept | apps/agent/src/provider/transform.rs:24-166 | with one model throughout, nothing is dropped and nothing made up if and only if ids are distinct within each live reply |
| Transform.SharedIdLosesResult | apps/agent/src/provider/transform.rs:73-103 | two models that share an id: the second result is replaced by a made-up error |
| AgentLoop.CleanFailureRestores | apps/agent/src/agent.rs:233-239 | a clean failure leaves the messages as before the run, in memory and on replay, and the floor exactly when it was within the context |
| AgentLoop.CutArchiveLosesFloor | apps/agent/src/session.rs:91-101 | a log and a failed run after which the floor is lower |
| AgentLoop.QueuedIsInjected | apps/agent/src/agent.rs:370-425 | what a client was told is queued was injected once, in order, and logged, or was dropped with a rolled-back run that had injected nothing |
| AgentLoop.FramesInOrder | apps/agent/src/agent.rs:44-368 | an unbroken stream starts with agent_start, ends with agent_end, has each once, and its turns open and close in turn |
| AgentLoop.FramesTellAll | apps/agent/src/agent.rs:44-368 | the messages whose completion clients were told of, in order, are those `agent_end` lists, and the pass functions say which they are |
| AgentOutcomes.KeptIsTold | apps/agent/src/agent.rs:292-346 | everything that joins the conversation after a kept reply is told, once and in order |
| AgentOutcomes.ReplaysAreTold | apps/agent/src/agent.rs:117-121 | so is every reply, also one that is replayed |
| AgentLoop.TotalRequests | apps/agent/src/agent.rs:59-362 | a bound per progress point bounds the whole run |
| HeldInput.PressingMeans | apps/capture/src/guard.rs:214-228 | a log the reference accepts has alternating strokes for every control, and text typed with nothing down |
| HeldInput.AlternatingPresses | apps/capture/src/guard.rs:214-228 | and it accepts every such log |
| HeldInput.AcceptedFits | apps/capture/src/guard.rs:229-322 | an accepted event takes what was down to what is held after it, stroke by stroke |
| HeldInput.AcceptsExactly | apps/capture/src/guard.rs:229-322 | for each event, exactly when it is accepted |
| HeldInput.StatesAre | apps/capture/src/guard.rs:293-319 | a state event holds exactly the controls it names, under the same numbers as single presses |
| HeldInput.SameStateIsSilent | apps/capture/src/guard.rs:293-319 | repeating a state injects nothing |
| HeldInput.WholeMotionAddsUp | apps/capture/src/guard.rs:253-268 | over any run of whole totals the injected steps add up to the last total |
| HeldInput.PointsAre | apps/capture/src/guard.rs:325-330 | a point is the nearest of 32768 places in each direction, and one outside the image is refused |
| HeldInput.ReleasesAll | apps/capture/src/guard.rs:215-228 | a release leaves nothing down |
| HeldInput.Held.Apply | apps/capture/src/guard.rs:229-322 | what is injected and held after each event, and that a refused event does nothing |
| HeldInput.Held.Release | apps/capture/src/guard.rs:215-228 | keys then buttons go up, each once, in ascending order |
| GuardLease.GuardProcess.Begin | apps/capture/src/guard.rs:473-501 | the checks of a pass in order, and when a challenge is renewed or sent again |
| GuardLease.LeavesExactly | apps/capture/src/guard.rs:473-501 | why a pass leaves: lease, target, more than 1000 ms without a press while something is down, or a broken pipe |
| GuardLease.AsksEverySecond | apps/capture/src/guard.rs:489-501 | a challenge a second, fresh exactly when the last was answered |
| GuardLease.GuardProcess.Take | apps/capture/src/guard.rs:502-524 | what one received command, timeout or end of the pipe makes of the guard, and whether it stays |
| GuardLease.TakesExactly | apps/capture/src/guard.rs:502-524 | key, button and state events and nothing else refresh the limit on holding; the first right answer and nothing else the lease |
| GuardLease.Run | apps/capture/src/guard.rs:464-531 | on every way out: strokes alternate, the session is stopped and every control is up |
| LeaseProtocol.DeadForever | apps/capture/src/guard.rs:46-58 | an authority that is not live never is again |
| LeaseProtocol.LeaseRunsOut | apps/capture/src/guard.rs:131-156 | at most one more renewal, and 6000 ms and two passes after the authority died the guard has left with everything released |
| LeaseProtocol.HeldBriefly | apps/capture/src/guard.rs:484-488 | nothing stays down more than 1000 ms and a pass after the guard last received a key, button or state event, a moment the run records apart from the guard |
| LeaseProtocol.PressesAre | apps/capture/src/guard.rs:507-515 | the recorded moment is that of the last key, button or state event received |
| LeaseProtocol.HeldWhilePressed | apps/capture/src/guard.rs:484-488 | and up to 1000 ms after it the limit releases nothing |
| LeaseProtocol.ReleaseIsReached | apps/capture/src/guard.rs:467-531 | every run whose authority died can go on, and does reach the moment when all is released |
| LeaseProtocol.OneRenewalSlipsThrough | apps/capture/src/guard.rs:131-156 | one renewal can be accepted after the authority died |
| LeaseProtocol.InvKept | apps/capture/src/guard.rs:467-531 | every step of parent, pipes, clock and guard keeps the invariant |
| CaptureControl.AcquireKeeps | apps/capture/src/state.rs:416-505 | every step of an acquire keeps the invariant |
| CaptureControl.ReleaseKeeps | apps/capture/src/state.rs:518-639 | and so does every step of a release or close |
| CaptureControl.CommittedIsCurrent | apps/capture/src/state.rs:448-496 | an acquire past its recheck is in the current view, no lease exists and no release is unconfirmed |
| CaptureControl.OneUnreleasedGuard | apps/capture/src/state.rs:168-246 | of all guards ever committed, over all views ever opened, at most one is not confirmed released, and that one is in the slot of its view |
| CaptureControl.LeavesOnlyReleased | apps/capture/src/state.rs:518-542 | a guard leaves its slot only once confirmed released, and is never replaced by another |
| CaptureControl.EndedIsFinal | apps/capture/src/state.rs:518-542 | what is on record of a guard that ended never changes again |
| CaptureControl.NoLeaseAfterUnconfirmed | apps/capture/src/state.rs:425-427 | once a release was not confirmed no lease is ever committed again |
| CaptureControl.OldLeasesAreDead | apps/capture/src/state.rs:337-341 | no lease issued before a policy change is live after it |
| CaptureControl.OnlyOwnerEnds | apps/capture/src/state.rs:518-542 | only a release by the owner, or a close, takes a lease out of its slot or changes it, over all interleavings |
| CaptureControl.ToldReleasedIsReleased | apps/capture/src/state.rs:621-639 | a close reported as released left no lease, and one reported as unconfirmed tells the truth |
| ControlInput.Lease.Input | apps/capture/src/state.rs:543-591 | which packets reach the guard and why each other one does not, and that a refused one still uses its number up |
| ControlInput.SentOnce | apps/capture/src/state.rs:567-577 | on each channel the packets that reach the guard have strictly increasing numbers |
| ControlInput.SentForLease | apps/capture/src/state.rs:543-566 | only packets of this session, lease and target reach the guard |
| ViewSocket.Socket.Tick | apps/capture/src/preview.rs:527-531 | an answered challenge is replaced by a fresh one, an open one repeated |
| ViewSocket.Socket.Renew | apps/capture/src/preview.rs:544-554 | the deadline moves exactly for the first timely answer to the latest challenge |
| ViewSocket.Socket.Call | apps/capture/src/preview.rs:555-593 | executed exactly when an unbounded map cut to the latest 128 executions does not know the id; otherwise answered from it |
| ViewSocket.Socket.RecallIsLookup | apps/capture/src/preview.rs:556-556 | the cache is that map |
| ViewSocket.Socket.Hear | apps/capture/src/preview.rs:524-594 | one event, in terms of challenges issued, challenges that extended, and requests executed |
| ViewSocket.Serve | apps/capture/src/preview.rs:524-594 | over a whole connection what was issued, extended and executed is what a reference without cache makes of the script, and every challenge extends at most once |
| ViewSocket.NeverTwice | apps/capture/src/preview.rs:555-593 | over any script two executions under one id lie more than 128 apart |
| ViewSocket.DeadlineIsDated | apps/capture/src/preview.rs:544-554 | the deadline is three seconds after the answer that extended it last, or after the start |
| ViewSocket.AnswersExactly | apps/capture/src/preview.rs:544-554 | in time, the latest challenge extends once, its repetition is tolerated and anything else ends the connection |
| ViewSocket.RequestsExactly | apps/capture/src/preview.rs:555-593 | executed exactly when none of the last 128 has the id; another text under a known id ends the connection |
| ViewSocket.TwentyASecond | apps/capture/src/preview.rs:543-543 | the twenty-first answer or request within a second of the first ends the connection and does nothing else |
| KeyframeGate.Callbacks.Video | apps/capture/src/engine.rs:340-366 | which frames enter the queue, and that a drop asks for a keyframe |
| KeyframeGate.SupportedIsDecodable | apps/capture/src/engine.rs:340-366 | everything a delivered frame builds on was delivered, back to a keyframe |
| KeyframeGate.Stream | apps/capture/src/engine.rs:340-366 | for every pattern of full queues, a usable frame is delivered if and only if the queue had room from a keyframe up to it; so every delivered frame is decodable |
| KeyframeGate.Callbacks.WaitsAfterDrop | apps/capture/src/engine.rs:340-366 | the gate waits for a keyframe exactly before the first frame and after one that was not delivered |
| H264.UeInverts | apps/capture/src/h264.rs:79-92 | ue(v) is read exactly where the code of v stands, for all of 32 bits but the last value |
| H264.SeInverts | apps/capture/src/h264.rs:93-100 | the same for se(v) |
| H264.NalsInvert | apps/capture/src/h264.rs:103-125 | any well-formed units, with any zero bytes between them, are split back into themselves |
| H264.UnescapeInverts | apps/capture/src/h264.rs:132-143 | removing emulation prevention inverts inserting it |
| H264.EscapeIsClean | apps/capture/src/h264.rs:132-143 | what is inserted leaves no start code or reserved sequence |
| H264.FieldsRead | apps/capture/src/h264.rs:158-198 | the fields of every SPS are read back, whatever follows them |
| H264.SizeExact | apps/capture/src/h264.rs:193-197 | the cropped size is right exactly when 32 bits suffice |
| H264.ParseInverts | apps/capture/src/h264.rs:128-201 | the whole parser inverts the whole encoder, whatever units of other types come before |
| H264.NoSpsParsesToNone | apps/capture/src/h264.rs:128-131 | a stream without a unit of type 7 parses to nothing |
| H264.ShortSpsParsesToNone | apps/capture/src/h264.rs:143-145 | nor does one whose first such unit is too short |
| H264.OrdinarySizesParse | apps/capture/src/h264.rs:128-201 | where the coded size fits 32 bits the parser returns exactly what was written |
| H264.OtherProfilesParse | apps/capture/src/h264.rs:148-157 | other profiles are recognised with the size left open |
| H264.Bits.Ue | apps/capture/src/h264.rs:79-92 | the reader computes the code and the new position, and fails where it must |
| H264.NalUnits | apps/capture/src/h264.rs:103-125 | the scanning and trimming loops compute the split |
| H264.ParseSps | apps/capture/src/h264.rs:128-201 | the running parser is the function the round trip is about |
| QueueTails.DynamicTailMs | testing/framework/queue.ts:9-16 | the loop over a re-sorted array is longest-first greedy scheduling |
| QueueTails.ShardTailMs | testing/framework/queue.ts:1-7 | the round-robin tail is the makespan of that assignment |
| QueueTails.HeadIsLeastLoaded | testing/framework/queue.ts:12-13 | after sorting, the head is a least-loaded worker |
| QueueTails.AverageStart | testing/framework/queue.ts:9-16 | a job starts no later than the average of what came before |
| QueueTails.LongestFirstWithinGraham | testing/framework/queue.ts:9-16 | at most 4/3 - 1/(3m) times the makespan of any one assignment of the jobs as given |
| QueueTails.LongestFirstWithinGrahamOfAll | testing/framework/queue.ts:9-16 | the same bound, stated over all assignments at once |
| QueueTails.CompareQueueTails | testing/framework/queue.ts:18-26 | hence of the sharded tail |
| QueueTails.GrahamBoundIsReached | testing/framework/queue.ts:9-16 | the factor cannot be lowered |
| AgentRouting.SelectRoute | apps/daemon/src/agent_routing.rs:218-305 | a cheapest matching route that is not excluded, or none when nothing matches |
| AgentRouting.CheaperMeans | apps/daemon/src/agent_routing.rs:280-285 | the order: cost from very low to very high, then Agent, then model, an Agent's own choice first |
| AgentRouting.CollectCandidates | apps/daemon/src/agent_routing.rs:310-367 | the candidates of every Agent in turn |
| AgentRouting.CandidateExactly | apps/daemon/src/agent_routing.rs:310-367 | exactly who is a candidate, and with which tags and cost |
| AgentRouting.AttemptsAreAll | apps/daemon/src/agent_routing.rs:218-305 | excluding each choice in turn lists every matching candidate once, in order of cost, Agent and model |
| AgentRouting.AttemptsExhaust | apps/daemon/src/agent_routing.rs:285-304 | and then the selection fails |
| AgentRouting.RoutesDistinct | apps/daemon/src/agent_routing.rs:310-367 | distinct Agent and model ids give distinct routes |
| AgentRouting.RetriesAreFair | apps/daemon/src/agent_routing.rs:218-367 | all of this whatever order the Agents are listed in |

## Left out

- AgentLoop.RunPrompt: the tool, `message_start` and `message_update` frames, timestamps, identifiers and usage statistics are not modelled, and the abort level is replaced by one input at each place that reads it.
- AgentLoop.RunPrompt: texts of messages the program writes itself (media notes, the missing-model notice, the second empty answer) stand for the originals.
- AgentConversation.Converse: a process dies only between two passes of a run; a file cut elsewhere is covered by `SessionLog.CutArchiveReplays` and `AgentConversation.CutReplyIsUnpaired`, and its first request by `AgentLoop.FirstRequestDecides`.
- Arrival.TransformMessages: which model wrote a reply is given beside the messages, and the two id normalisers stand for any function.
- Recovery.LastReport: sums of token counts are not taken modulo 2^64, and the 99 % comparison of an overflowing length stop is exact instead of in floating point.
- SessionLog.Session.Open: writes to the log always succeed, entry ids are positions in the log, and unreadable lines do not occur.
- LeaseProtocol.LeaseRunsOut: the parent's reader, writer and authority are steps of a transition system rather than methods; the parent's check of its authority and its send are one step, challenges never repeat, and a pass of the guard loop takes at most a given time.
- GuardLease.Run: native injection fails only after the session was stopped, as the engine behaves; the table of key names is given by its codes.
- HeldInput.AcceptedFits: coordinates are reals, so rounding of fractional motion totals in floating point is not covered.
- CaptureControl.OneUnreleasedGuard: covers committed leases; a guard that an acquire starts and then gives up on is stopped without its result being recorded, so nothing is claimed of it.
- CaptureControl.AcquireKeeps: calls are processes of a transition system rather than methods, because their interleaving is the point; frames, media, permissions and deadlines are checks that succeed or fail freely.
- H264.ParseInverts: arithmetic wraps as in a release build; `level_for` is a table lookup and is not modelled.
- AgentRouting.RetriesAreFair: tags are compared by their normalised keys; trimming, case folding and the explanation of a failure are not modelled.
- ViewSocket.Serve: what executing a request does is an input; events forwarded to the client are not modelled.
- ControlInput.Lease.Input: calls for one channel come one after another, and parsing the packet is left out.
- Media signalling, WebRTC, proofs of possession and operating-system locks: environment.
- Regular expressions, provider streaming, tool execution, skills, prompt text and configuration: inputs or not modelled.
