# Verification of the agent kernel

Dafny models of the parts of the agent crate that carry state, with proofs of what they promise. Each
module follows one source file; where the source changes things in place the model does too (classes,
arrays and loops), each method being proved against a specification function, and the theorems are about
those functions. `dafny verify dfyconfig.toml` checks everything.

| files | source | what is modelled |
|---|---|---|
| `PlanStream`, `ProjectorEvents`, `Projector` | `run_projection.rs` | the incremental `<proposed_plan>` parser and the transcript items it writes, per model event |
| `PlanStreamChunks`, `PlanReference`, `PlanLifecycle`, `PlanMarkup`, `DefaultMode`, `ItemHistory` | `run_projection.rs` | its theorems: independence of chunking, equality with a one-pass reference, item life cycle, conservation, phases and reasoning |
| `SessionLane`, `RunRegistry`, `CancelCascade`, `RestartLoop` | `session_lane.rs`, `run_runtime.rs` | generation-fenced lanes over all interleavings, cascading cancellation over the run forest, also among registrations, the bounded restart loop |
| `SideEffects` | `security_tools.rs`, the store's `side_effects.rs` | claim, dispatch, execute, finish over all interleavings |
| `RunDiff` | `run_diff.rs`, `git status` | lazily captured baselines against the run-start checkout |
| `ContextBudget`, `ModelView`, `CompactionTrim`, `AgentsMd` | files of the same names | repair and in-place shrinking of requests, the budgeted view, the overflow-trim loop, layered instructions |
| `Text` | | searching, blankness and concatenation of strings |

## Conventions

- Strings are sequences of characters; the patterns searched for are ASCII, so character and byte positions
  select the same splits. `AgentsMd` works on bytes. `trim` uses the Unicode White_Space property.
- The store is a map or a sequence inside the state. Where its failure is part of a protocol (`SideEffects`)
  it is a parameter of the step.
- Concurrency is a sequence of atomic steps: one step for each section the source performs under one lock or
  one transaction. Theorems quantify over all sequences of steps.
- Saturation is modelled where the source saturates: lane generations at u64::MAX, counts at u32::MAX.
- Content identity stands for hash equality, so hashes are taken to be injective.
- In `RunRegistry` cancelling needs a forest; `RegistrationsKeepForest` has it from the depth of spawned children.

## What the code does not promise

- `OpeningTagLeaksIff`: commentary can hold an opening tag in two ways: when a message ends inside an
  unterminated block that opens the tag again (`OpeningTagCanLeak`), and when the tag forms in an item that two
  messages of one id write to, the first leaving it open (`OpeningTagCanFormAcrossMessages`).
- `Lifecycle`: in Plan mode the phase the model announces for a message is not used; what is not a plan is
  Commentary, never a final answer.
- `SaturatedResetDoesNotFence`, `ResetFencesTheQueueIff`: at the saturated generation a reset no longer makes
  markers stale nor fences the queue.
- `RunDiffIsExactIff`, `CleanPathAccountedIff`, `UnrecordedExecAccountedIff`, `HiddenPathAccountedIff`: an Exec that
  moves HEAD at a path, an Exec whose status was never recorded and files hidden by ignore rules escape the run diff. The
  comment on `capture_before_exec` says an existing user change never becomes part of the diff; that holds,
  but the converse needs these conditions.
- `CompactionProtects`: the comment on `microcompact_request` says all non-tool messages remain unchanged;
  messages before the latest user message lose their images for a textual note, whatever their role.
- `RetainingGrowsIff`: the comment on `microcompact_request` says it shrinks old results; some retained forms are
  longer than what they replace, such as that of a short `read` result with metadata.
- `CancelledIffListed`, `LatecomersAreNotCancelled`: a child registered behind the cascade's back outlives the cancelled run.
- `LatestTurnKeepsImagesIff`: the latest user message is sought after repair, which may have made a user message
  of an orphaned result.
- `CallsMayShareAResult`: pairing is by id; two calls with the same id and one answer both survive.
- `LabelSurvivesIff`: the label of a historical tool result can be clipped away with the text it marks.
- `FalseAlarmIff`: `truncated` can be set although every byte was included.

## Model

| member | source | states |
|---|---|---|
| PlanStream.PartialTagPrefixLen | crates/hachimi-agent/src/run_projection.rs:738-743 | The result is the length of the longest proper prefix of the tag that the text ends with: the text ends with it, and with no longer one. |
| Projector.LoopProjection.CompleteItem | crates/hachimi-storage/src/agent_store.rs:969-1020 | Completing replaces kind, text and phase of one item and is only ever asked for an item in progress (the store rejects any other). |
| Projector.LoopProjection.AppendCommentarySegment | crates/hachimi-agent/src/run_projection.rs:745-772 | Empty text does nothing; other text goes to the open assistant item of the message, opened as Commentary if need be. |
| Projector.LoopProjection.StartPlanItem | crates/hachimi-agent/src/run_projection.rs:774-803 | At most one draft per stream: a second start changes nothing. |
| Projector.LoopProjection.AppendPlanSegment | crates/hachimi-agent/src/run_projection.rs:805-837 | Blank text before the draft exists is kept aside; the first visible text opens the draft with the kept text in front. |
| Projector.LoopProjection.ClosePlanBlock | crates/hachimi-agent/src/run_projection.rs:881-906 | Closing a block completes its draft as the plan unless a plan is already complete; kept blank text survives. |
| Projector.LoopProjection.OpenPlanBlock | crates/hachimi-agent/src/run_projection.rs:859-871 | Text before an opening tag becomes commentary, the open assistant item is completed, and the parser is inside. |
| Projector.LoopProjection.ProjectPlanDelta | crates/hachimi-agent/src/run_projection.rs:839-920 | The draining loop over `pending` computes exactly the specification `ProjectDelta`, and terminates. |
| Projector.LoopProjection.FinishPlanStream | crates/hachimi-agent/src/run_projection.rs:922-971 | The end of a message computes exactly `FinishStream`: the held-back suffix is dropped, an unterminated draft becomes a completed Commentary item. |
| Projector.LoopProjection.StartAssistantProjection | crates/hachimi-agent/src/run_projection.rs:973-1028 | Keeps the open item of the same message (sharpening an Unknown phase), otherwise completes it as Commentary if Unknown and opens a new one. |
| Projector.LoopProjection.CompleteAssistantProjection | crates/hachimi-agent/src/run_projection.rs:1030-1053 | Completes the open assistant item with its own phase, or the inferred one when Unknown, and remembers it as the last. |
| Projector.LoopProjection.ProjectEvent | crates/hachimi-agent/src/run_projection.rs:1190-1341 | Each model event in each behaviour mode does to the fields what the specification `Step` says. |
| Projector.LoopProjection.ProjectEvents | crates/hachimi-agent/src/run_projection.rs:1055-1365 | The receiving loop over any event sequence computes the fold `Run`, which the theorems below are about. |
| PlanStreamChunks.OccurrenceStartsInHeldBack | crates/hachimi-agent/src/run_projection.rs:872-876 | Whatever text follows, the next tag that is not already complete starts inside the held-back suffix or after it: no split tag is missed. |
| PlanStreamChunks.HeldBackFindsTheSame | crates/hachimi-agent/src/run_projection.rs:856-917 | Searching the held-back suffix followed by new text finds a tag exactly where searching all of the text would. |
| PlanStreamChunks.HeldBackHoldsBackTheSame | crates/hachimi-agent/src/run_projection.rs:738-743 | And holds back exactly as much as all of the text would: the suffix is all the parser has to remember. |
| PlanStreamChunks.EmitTwice | crates/hachimi-agent/src/run_projection.rs:745-837 | Emitting a text in two parts leaves the same items, draft and kept blanks as emitting it at once, for commentary, plan bodies and ignored blocks. |
| PlanStreamChunks.ScanTwice | crates/hachimi-agent/src/run_projection.rs:856-917 | Scanning, then scanning again with more text, is scanning all of it at once. |
| PlanStreamChunks.ScanSettles | crates/hachimi-agent/src/run_projection.rs:872-917 | After every delta `pending` is a proper prefix of the awaited tag, hence shorter than it. |
| PlanStreamChunks.DeltasAreOneDelta | crates/hachimi-agent/src/run_projection.rs:839-920 | Any way of cutting a text into deltas leaves the whole projection state the same as the text in one delta. |
| PlanStreamChunks.FinishForgetsTheCut | crates/hachimi-agent/src/run_projection.rs:839-971 | The same after the end of the message, also when there was no delta at all. |
| PlanReference.SplitPrints | crates/hachimi-agent/src/run_projection.rs:856-917 | Reference: the pieces of a message, printed with their tags, give back the message up to a held-back proper prefix of the awaited tag. |
| PlanReference.PiecesAreClean | crates/hachimi-agent/src/run_projection.rs:856-917 | Reference: pieces alternate, only the last is open, and none contains the tag that ends its kind. |
| PlanReference.SplitReadsWhatWasPrinted | crates/hachimi-agent/src/run_projection.rs:856-917 | Reference: splitting is the inverse of printing on every well-formed list of pieces, so the reference reads a message in the only possible way. |
| PlanReference.CrossingLays | crates/hachimi-agent/src/run_projection.rs:859-906 | Crossing one tag in the projector does to items and plan what laying out one closed piece does. |
| PlanReference.FinishLays | crates/hachimi-agent/src/run_projection.rs:907-971 | So do the last open piece and the end of the message. |
| PlanReference.StreamEqualsBatch | crates/hachimi-agent/src/run_projection.rs:839-971 | For every message and every cut into deltas, the ordered (kind, text) entries and the completed plan are those of the one-pass reference, which carries blank text of one block into the next. |
| PlanLifecycle.StepOk | crates/hachimi-agent/src/run_projection.rs:1190-1341 | Every Plan-mode event keeps the invariant: references, drafts with visible text, no open assistant beside a draft, one recorded plan. |
| PlanLifecycle.Lifecycle | crates/hachimi-agent/src/run_projection.rs:774-955 | For every Plan-mode event sequence: an open draft holds visible text and no assistant item is open beside it, at most one plan item is ever completed and it is the recorded plan, a plan item in progress is the draft, no assistant item is ever anything but Commentary, whatever phase the model announced. |
| PlanLifecycle.NoPlanLeftOpen | crates/hachimi-agent/src/run_projection.rs:1234-1327 | After a message is completed or the turn finished, no plan item and no assistant item is left in progress. |
| PlanLifecycle.CompletedPlanIsFinal | crates/hachimi-agent/src/run_projection.rs:884-903 | Once set, the completed plan is never changed by any event sequence. |
| PlanLifecycle.WholeMessage | crates/hachimi-agent/src/run_projection.rs:1190-1245 | The started/delta/completed events of one message, through `Run`, yield the reference outline of its text. |
| PlanMarkup.PendingIsLongest | crates/hachimi-agent/src/run_projection.rs:872-876 | Between deltas `pending` is exactly the longest suffix of all message text so far that is a proper prefix of the awaited tag, across tags already crossed. |
| PlanMarkup.NoPlanAfterIff | crates/hachimi-agent/src/run_projection.rs:884-903 | After a message the run has no plan if and only if it had none before and no closed block of the message holds visible text. |
| PlanMarkup.OldItemsAfterMessage | crates/hachimi-agent/src/run_projection.rs:839-971 | A message leaves the kind and text of every earlier item as they were, except that the assistant item still open for its id grows by exactly what stands before its first tag. |
| PlanMarkup.NewItemsLeakIff | crates/hachimi-agent/src/run_projection.rs:839-971 | Among the items a message creates an opening tag shows if and only if no plan was complete before, and the text ends inside a block that opens the tag again with no visible closed block before it. |
| PlanMarkup.OpeningTagLeaksIff | crates/hachimi-agent/src/run_projection.rs:839-971 | For every message and cut: an opening tag ends up in an assistant item the message creates or extends if and only if it does so in a new item, or forms where the open item’s text and the first words of the message join. |
| PlanMarkup.OpeningTagCanLeak | crates/hachimi-agent/src/run_projection.rs:938-949 | The smallest message of the first kind, in any cut: an unterminated block repeating the opening tag puts it into a commentary item. |
| PlanMarkup.OpeningTagCanFormAcrossMessages | crates/hachimi-agent/src/run_projection.rs:956-968 | And a run of the second kind: two messages of one id, "<<proposed_" and "proposed_plan>", leave one commentary item that is exactly the opening tag. |
| DefaultMode.Conservation | crates/hachimi-agent/src/run_projection.rs:1190-1341 | Outside Plan mode, for every event sequence the assistant texts in creation order concatenate to exactly the deltas received; at most the newest is open; completed ones have a definite phase. |
| DefaultMode.ToolCallsAreRemembered | crates/hachimi-agent/src/run_projection.rs:1317-1332 | The tool-call flag is set exactly when a tool was asked for since the model last finished. |
| DefaultMode.FinishedPhase | crates/hachimi-agent/src/run_projection.rs:1320-1341 | When the model finishes, the open message is completed with all its text and its announced phase; without one it is a final answer exactly when no tool was asked for since the last finish. |
| DefaultMode.MessageIsOpen | crates/hachimi-agent/src/run_projection.rs:1203-1282 | From any state in which no item of its id is open: while a message lasts, whatever else happens in between, its open item is the one its first event created, with all the text received since and the first definite phase announced; until it is completed it is recorded with the phase of its first event. |
| DefaultMode.MessageEnds | crates/hachimi-agent/src/run_projection.rs:973-1341 | Every message ends as one completed item with exactly its text, at its completion if it announced a phase, at the finish or at the next message; its phase is the announced one, else a final answer exactly when it lasted to a finish with no tool asked for, and it is remembered as the last. |
| ItemHistory.LegacyTextIsAMessage | crates/hachimi-agent/src/run_projection.rs:1247-1282 | In either mode text without a message id does throughout a run what the same text does as deltas of one message. |
| ItemHistory.CompletedItemsAreFinal | crates/hachimi-agent/src/run_projection.rs:774-1341 | In either mode no event sequence changes an item once it is completed. |
| ItemHistory.ReasoningIsWhole | crates/hachimi-agent/src/run_projection.rs:1283-1315 | In either mode the open reasoning is exactly the reasoning received since the model last finished, whatever was said in between. |
| ItemHistory.ReasoningIsRecorded | crates/hachimi-agent/src/run_projection.rs:1333-1341 | A finish completes exactly that text as one reasoning item and leaves none open. |
| SessionLane.StepKeepsInv | crates/hachimi-agent/src/session_lane.rs:93-133 | Every atomic section of `enter`, `reset` and drop keeps the lane invariant: generations count tokens, the gate has one holder, `active` counts the permit. |
| SessionLane.AtMostOnePermit | crates/hachimi-agent/src/session_lane.rs:93-117 | In every interleaving at most one permit is live, `active` equals the number of live permits, and its holder is the only actor past the gate. |
| SessionLane.PermitIsFencedByReset | crates/hachimi-agent/src/session_lane.rs:106-133 | A live permit’s generation is current if and only if its token is not cancelled or the generation is saturated, wherever resets fall, also between check and permit. |
| SessionLane.SaturatedResetDoesNotFence | crates/hachimi-agent/src/session_lane.rs:123-124 | The exception is real: at u64::MAX a reset cancels the token but leaves the marker current. |
| SessionLane.CurrentMarkerMeansNoReset | crates/hachimi-agent/src/run_runtime.rs:1371-1560 | A run’s marker read on entering is still current at the end if and only if no reset fell in between or the generation was saturated when read. |
| SessionLane.MarkerIsCurrentIff | crates/hachimi-agent/src/session_lane.rs:89-117 | A permit’s own marker is current if and only if no reset happened since its epoch was read, or its generation is saturated. |
| SessionLane.ResetFencesTheQueue | crates/hachimi-agent/src/session_lane.rs:93-108 | A caller that read the epoch before a reset and had not passed its check never gets a permit, whatever happens later. |
| SessionLane.ResetFencesTheQueueIff | crates/hachimi-agent/src/session_lane.rs:93-133 | From any lane in the invariant, a caller queued or at the gate when a reset falls can still get a permit if and only if the generation it read is saturated. |
| SessionLane.SaturatedQueueIsAdmitted | crates/hachimi-agent/src/session_lane.rs:119-133 | The saturated generation is reachable, and there a caller gets its permit past a reset. |
| SessionLane.TurnedAwayOnlyByReset | crates/hachimi-agent/src/session_lane.rs:93-108 | In every interleaving a caller is turned away, as cancelled or as stale, only if a reset fell after it read the epoch, and as stale only below the saturated generation. |
| SessionLane.QueuedCallerMayLeaveIff | crates/hachimi-agent/src/session_lane.rs:99-103 | A caller still queued can leave with the cancelled error if and only if a reset fell since it read the epoch. |
| SessionLane.SessionLanes.Marker | crates/hachimi-agent/src/session_lane.rs:79-87 | Reads the generation of one lane and changes no lane. |
| SessionLane.SessionLanes.IsCurrent | crates/hachimi-agent/src/session_lane.rs:89-91 | True exactly when the lane’s generation is the marker’s; changes no lane. |
| SessionLane.SessionLanes.ResetSession | crates/hachimi-agent/src/session_lane.rs:119-133 | Cancels the current token, moves the saturating generation and the token on, keeps the lane invariant, returns the new marker, touches no other lane. |
| SessionLane.SessionLanes.Admit | crates/hachimi-agent/src/session_lane.rs:106-117 | With the gate held: a permit exactly when the generation is still the one read, otherwise the gate is released with the stale error. |
| SessionLane.SessionLanes.DropPermit | crates/hachimi-agent/src/session_lane.rs:169-174 | Dropping leaves the lane without permit, with `active` 0 and the gate free. |
| RunRegistry.DescendantsAreTransitive | crates/hachimi-agent/src/run_runtime.rs:1107-1120 | The set the cascade reaches is the least set that holds every active run whose parent is the cancelled run or in the set. |
| RunRegistry.SubtreesAreDisjoint | crates/hachimi-agent/src/run_runtime.rs:1107-1120 | Children of one run share no descendant, so the recursion visits each run once. |
| RunRegistry.DescendantsHangTogether | crates/hachimi-agent/src/run_runtime.rs:1107-1120 | Every descendant’s parent is the ancestor or another descendant. |
| RunRegistry.ResetForUnion | crates/hachimi-agent/src/run_runtime.rs:1115-1119 | Resets for disjoint sets of runs add up: each lane is reset once per cancelled run of its session. |
| RunRegistry.AgentExecutorRegistry.Register | crates/hachimi-agent/src/run_runtime.rs:1044-1068 | Registers with a fresh token that is not cancelled, or refuses a run already there and changes nothing. |
| RunRegistry.AgentExecutorRegistry.CancelDescendants | crates/hachimi-agent/src/run_runtime.rs:1107-1120 | Cancels exactly the tokens of the transitive descendants, each once, resets each one’s session once for it, and terminates on a forest. |
| RunRegistry.AgentExecutorRegistry.Cancel | crates/hachimi-agent/src/run_runtime.rs:1087-1105 | Right generation: exactly the run and its descendants are cancelled and exactly their sessions’ lanes reset; stale or unknown: an error and no change. |
| RunRegistry.AgentExecutorRegistry.Remove | crates/hachimi-agent/src/run_runtime.rs:1122-1133 | Removes the run exactly when the generation matches, and nothing else. |
| RunRegistry.AgentExecutorRegistry.ResetSession | crates/hachimi-agent/src/run_runtime.rs:1135-1145 | Resets the lane once and cancels exactly the tokens of the session’s runs. |
| RunRegistry.OnlyTheSessionIsCancelled | crates/hachimi-agent/src/run_runtime.rs:1135-1145 | The tokens so cancelled are those of the runs of that session and of no other. |
| RunRegistry.LanesAreResetOncePerRun | crates/hachimi-agent/src/run_runtime.rs:1115-1119 | The lane of a session moves on once per cancelled run of that session and is untouched without one. |
| RunRegistry.RegistrationsKeepForest | crates/hachimi-agent/src/multi_agent.rs:747-766 | Whatever is registered and removed in any order, with children one level below their parents and at most three levels down, the active runs form a forest, as cancelling needs. |
| RunRegistry.OnlyTheFamilyIsCancelled | crates/hachimi-agent/src/run_runtime.rs:1087-1120 | Cancelling a family cancels the token of a run if and only if it belongs to the family. |
| CancelCascade.WhoStaysIsCancelled | crates/hachimi-agent/src/run_runtime.rs:1087-1120 | With runs registered and removed between any two sections of the cascade: when it ends, every run active throughout, with every run between it and the cancelled one, has been cancelled. |
| CancelCascade.OnlyDescendantsAreCancelled | crates/hachimi-agent/src/run_runtime.rs:1107-1120 | At any moment of such a cascade, whatever else was cancelled was registered at some moment of it as a child of a cancelled run. |
| CancelCascade.CancelledIffListed | crates/hachimi-agent/src/run_runtime.rs:1107-1120 | When such a cascade has ended, a run other than its root was cancelled if and only if it was registered at a moment when the cascade visited its parent. |
| CancelCascade.LatecomersAreNotCancelled | crates/hachimi-agent/src/run_runtime.rs:1107-1120 | A child registered after its parent was visited survives the cascade. |
| RunRegistry.CancelledSessionsAreFenced | crates/hachimi-agent/src/session_lane.rs:119-133 | Any number of resets keeps the lane invariant, leaves permits and gate alone, cancels the old token, and changes the generation unless there were none or it was saturated. |
| RestartLoop.RestartsAreBounded | crates/hachimi-agent/src/run_runtime.rs:1447-1551 | However model and compactor behave: at most four turns, at most one restart for a provider overflow, strictly growing coverage, none in a review. |
| RestartLoop.LastTurnDecides | crates/hachimi-agent/src/run_runtime.rs:1449-1551 | The run succeeds if and only if the last turn reached does; the turns reached are exactly those up to it. |
| RestartLoop.RestartsIff | crates/hachimi-agent/src/run_runtime.rs:1480-1551 | After a turn the run goes on if and only if that was not the fourth nor of a review, it asked for compaction or was the first to overflow the provider, and compaction covers more than before. |
| RestartLoop.RunWithRestarts | crates/hachimi-agent/src/run_runtime.rs:1447-1551 | The loop runs exactly the turns reached, at most three compactions of which at most one Reactive; its outcome is success exactly when some bounded turn chain succeeds, and prompt-too-long exactly when its last turn did not fit and nothing allows another. |
| RestartLoop.RestartsReachBeyondTheStart | crates/hachimi-agent/src/run_runtime.rs:1409-1446 | A review has no checkpoint; any other run starts from the new checkpoint, or the latest when compaction was not needed or failed, and every turn after a restart sees one that reaches further. |
| RestartLoop.ExecuteRun | crates/hachimi-agent/src/run_runtime.rs:1371-1560 | In any interleaving on the lane: a run that holds its permit reports success if and only if its turns succeeded and no reset fell between reading the epoch and the final check (or the generation is saturated); a stale error is exactly a withdrawn success; it is cancelled before its first turn exactly when compaction was, outside a review. |
| CompactionTrim.MarkersCountOccurrences | crates/hachimi-agent/src/compaction.rs:926-933 | What repeated draining counts is the number of positions at which the group marker occurs. |
| CompactionTrim.TrimOldestSourceGroup | crates/hachimi-agent/src/compaction.rs:926-933 | Succeeds exactly when a marker remains; then leaves a strict suffix starting with `[group ` with one marker less. |
| CompactionTrim.RemainingMarkers | crates/hachimi-agent/src/compaction.rs:693-698 | The n-th retry is sent the source less its n oldest groups. |
| CompactionTrim.RequestSummary | crates/hachimi-agent/src/compaction.rs:639-726 | The retry loop, local or remote, terminates; overflow is reported too long exactly when the attempt without any marker overflows; the trimmed count is the number of retries, saturated at u32. |
| SideEffects.SideEffectCompletion | crates/hachimi-agent/src/security_tools.rs:726-777 | Completion is terminal, Succeeded exactly for a succeeded result, Indeterminate without content exactly for an executor error. |
| SideEffects.WhatIsPersisted | crates/hachimi-agent/src/security_tools.rs:744-766 | Of a result the first 32,000 characters are kept, and its structured content exactly when that is within 64 KiB and may be persisted, else the marker that it was not. |
| SideEffects.DuplicateResult | crates/hachimi-agent/src/security_tools.rs:651-691 | Only Succeeded and Failed records are replayed, as success exactly for Succeeded. |
| SideEffects.ReplayIsFaithfulIff | crates/hachimi-agent/src/security_tools.rs:651-777 | A replay equals the original if and only if that was a success or plain failure within the size limits, not redacted and without images. |
| SideEffects.StepKeepsInv | crates/hachimi-agent/src/security_tools.rs:456-596 | Every atomic step of every call keeps the invariant tying durable records, phases and the execution history. |
| SideEffects.AtMostOneExecution | crates/hachimi-agent/src/security_tools.rs:456-553 | Over all interleavings of calls, cancellations, store and hook failures the tool is started at most once per key, only by the call that created the claim and moved it out of Claimed. |
| SideEffects.ReplayTellsWhatHappened | crates/hachimi-agent/src/security_tools.rs:494-596 | A replayed reply repeats the one uncancelled execution of its key: success exactly when that succeeded, and the original result exactly when nothing of it had to be left out. |
| SideEffects.LateResultIsNeverReported | crates/hachimi-agent/src/security_tools.rs:554-576 | A result that came after cancellation leaves the record Dispatched or Indeterminate and is never reported, by its own call or any duplicate. |
| SideEffects.DuplicateIsToldTheTruth | crates/hachimi-agent/src/security_tools.rs:651-691 | At any moment of any interleaving a duplicate is told at once what is true of the call it repeats: its recorded result as kept, or the state of its record, and never of a cancellation when the tool was started and did not abort; with other parameters it is told of an error. |
| SideEffects.RepliesTellWhatWasDone | crates/hachimi-agent/src/security_tools.rs:456-640 | In any interleaving a denied, rejected or replayed call did not start the tool and owns no record; an aborted one left an unfinished record and started the tool only if somebody cancelled it; one that got a result had the tool return just that before any cancellation. |
| SideEffects.CallsAreAsTheyArrived | crates/hachimi-agent/src/security_tools.rs:456-475 | Throughout any interleaving an invocation is for the call and with the parameters it arrived with. |
| SideEffects.EveryStepAdvances | crates/hachimi-agent/src/security_tools.rs:456-640 | Every step of a call but its arrival and cancellation takes it further, so in every interleaving a call ends after at most seven of its own. |
| SideEffects.NobodyIsStuck | crates/hachimi-agent/src/security_tools.rs:456-640 | At any moment a call without an answer can take its next step, whatever store, hooks and tool answer; one not yet claimed can be denied and is told so. |
| SideEffects.ClaimStore.ClaimSideEffect | crates/hachimi-storage/src/agent_store/side_effects.rs:76-158 | Atomic insert-if-absent: created exactly when no record existed, otherwise the existing record unchanged. |
| SideEffects.ClaimStore.TransitionSideEffect | crates/hachimi-storage/src/agent_store/side_effects.rs:287-331 | A status changes only from the expected one; otherwise nothing changes. |
| SideEffects.ClaimStore.TryClaim | crates/hachimi-agent/src/security_tools.rs:456-496 | The claiming part of a call: owner with a Claimed record, or a reply read from the existing record, tied to a reachable protocol state. |
| SideEffects.ClaimStore.Dispatch | crates/hachimi-agent/src/security_tools.rs:497-529 | From the claim to the start of the tool: dispatched and executing, or aborted with the record cancelled where the store allowed. |
| SideEffects.ClaimStore.FinishLate | crates/hachimi-agent/src/security_tools.rs:555-577 | A late result is discarded and recorded Indeterminate if the store accepts. |
| SideEffects.ClaimStore.FinishOnTime | crates/hachimi-agent/src/security_tools.rs:579-640 | A result in time is recorded by `SideEffectCompletion` and returned, or an error when record or hook fails. |
| SideEffects.ClaimStore.Execute | crates/hachimi-agent/src/security_tools.rs:456-640 | One uninterrupted call, from claim to reply, is a run of the protocol; its reply, the record it leaves and whether the tool was started are determined exactly by what the store, hooks, tool and cancellation do. |
| SideEffects.DuplicateOfUndisturbedCall | crates/hachimi-agent/src/security_tools.rs:651-691 | What the next duplicate is told after each way the first call can have ended: Cancelled or Claimed when stopped before dispatch, Dispatched when hook or record failed, Indeterminate when late or failed, Cancelled when aborted, and otherwise the recorded result, equal exactly when nothing of it had to be left out. |
| SideEffects.UnfailingCallIsAnswered | crates/hachimi-agent/src/security_tools.rs:456-640 | Where store, hooks and tool do their part a new call gets the result of the tool, unless it was cancelled, and is never told of an error. |
| SideEffects.OwnerIsTold | crates/hachimi-agent/src/security_tools.rs:473-640 | A call that owns its claim gets the result of the tool, or is told of an error, or of an abort exactly when it was cancelled and the record says so, or refused at the dispatch. |
| RunDiff.RunDiffIsExact | crates/hachimi-agent/src/run_diff.rs:67-78 | For every run of captured writes and recorded Execs (HEAD unchanged and not ignored at the path), a path is in the manifest if and only if its content differs from run start, and its baseline is the content at run start. |
| RunDiff.RunDiffIsExactIff | crates/hachimi-agent/src/run_diff.rs:67-237 | For every run, with HEAD moving, status recorded in part or not at all and ignored paths: the diff is exact at a path if and only if what the first step to notice it takes for its start content (read off the checkouts and listings) is that content. |
| RunDiff.ExecAccountedIff | crates/hachimi-agent/src/run_diff.rs:142-185 | A path neither captured nor dirty before an Exec keeps its account, however much of the status was recorded, if and only if the content it is then taken for (HEAD’s if the recorded part lists it, else its own) is what it held before. |
| RunDiff.CapturedStaysAccounted | crates/hachimi-agent/src/run_diff.rs:114-124 | A path captured or already dirty before an Exec keeps its account whatever the Exec does and however it ends. |
| RunDiff.CleanPathAccountedIff | crates/hachimi-agent/src/run_diff.rs:142-185 | A clean, uncaptured path keeps its account over a completed Exec if and only if the Exec left HEAD alone at it. |
| RunDiff.UnrecordedExecAccountedIff | crates/hachimi-agent/src/run_diff.rs:142-150 | Over an Exec whose status was never recorded it does if and only if the Exec did not change it. |
| RunDiff.UnrecordedChangeIsLost | crates/hachimi-agent/src/run_diff.rs:114-124 | A change by an Exec that timed out is taken for the user’s by the next Exec and never enters the diff. |
| RunDiff.CommittedChangeIsLost | crates/hachimi-agent/src/run_diff.rs:171-179 | A change the Exec commits never enters the diff. |
| RunDiff.HiddenPathAccountedIff | crates/hachimi-workspace/src/diff.rs:33-42 | A path hidden by ignore rules before and after an Exec keeps its account if and only if the Exec did not change it. |
| RunDiff.IgnoredChangeIsLost | crates/hachimi-workspace/src/diff.rs:33-42 | The smallest such loss: a new ignored file never enters the diff. |
| RunDiff.FirstEntryTellsAdded | crates/hachimi-agent/src/run_diff.rs:528-530 | In a status listing the first entry of a path is marked added exactly when HEAD does not hold the path, so the baseline chosen is what HEAD held. |
| RunDiff.UnlistedIsClean | crates/hachimi-workspace/src/diff.rs:33-97 | A visible path that no entry lists holds what HEAD holds. |
| RunDiff.RunDiffTracker.CaptureBeforeWrite | crates/hachimi-agent/src/run_diff.rs:67-78 | The first capture of a path stores its current content; later ones change nothing. |
| RunDiff.RunDiffTracker.CaptureBeforeExec | crates/hachimi-agent/src/run_diff.rs:114-124 | All listed paths without baseline get their current content, the rest are untouched. |
| RunDiff.RunDiffTracker.RecordExecAndRefresh | crates/hachimi-agent/src/run_diff.rs:142-185 | All listed paths without baseline get what HEAD held, or nothing when added; the manifest is rebuilt from all baselines. |
| RunDiff.RunDiffTracker.Refresh | crates/hachimi-agent/src/run_diff.rs:192-237 | The manifest holds exactly the baselines whose content differs now. |
| RunDiff.RunDiffTracker.AroundExec | crates/hachimi-agent/src/workspace_tools.rs:180-235 | Capture, execute, record is one Exec step of the run the theorem is about. |
| ContextBudget.BoundedIsIdempotent | crates/hachimi-agent/src/context_budget.rs:186-203 | Bounding keeps both 1024-character edges, has a fixed maximal length, and bounding again changes nothing. |
| ContextBudget.BoundingGrowsIff | crates/hachimi-agent/src/context_budget.rs:186-203 | Bounding makes a text longer if and only if it exceeds both edges by less than the marker’s length. |
| ContextBudget.RetainingGrowsIff | crates/hachimi-agent/src/context_budget.rs:205-237 | For every tool, text and metadata, exactly when the retained form of a result is longer than the result: always for evidence with metadata that is kept whole. |
| ContextBudget.WhatIsRetained | crates/hachimi-agent/src/context_budget.rs:205-237 | A binary tool’s result is replaced by a text that names tool and metadata and does not depend on the payload otherwise; evidence with metadata gets both in front of its bounded text; every other result is just bounded. |
| ContextBudget.RepairPairs | crates/hachimi-agent/src/context_budget.rs:120-171 | After repair, of any request: every call is answered by exactly one tool message, every tool message answers a call, and tool ids are distinct. |
| ContextBudget.RepairedIffPaired | crates/hachimi-agent/src/context_budget.rs:120-171 | Repair changes nothing if and only if the request is well paired; so repairing twice is repairing once. |
| ContextBudget.CalledAfterRepair | crates/hachimi-agent/src/context_budget.rs:131-145 | A call survives if and only if it was made and exactly one tool message answered it. |
| ContextBudget.CountAfterRepair | crates/hachimi-agent/src/context_budget.rs:152-169 | After repair a surviving call has its one answer and any other id has none. |
| ContextBudget.UnrepairedIff | crates/hachimi-agent/src/context_budget.rs:131-169 | A message is left alone if and only if it loses no call and is no unpaired result. |
| ContextBudget.RepairKeepsText | crates/hachimi-agent/src/context_budget.rs:131-150 | Repair keeps the text of every message that stays what it is, and adds the note exactly to an assistant message that loses all its calls. |
| ContextBudget.DemotedIsLabelled | crates/hachimi-agent/src/context_budget.rs:152-169 | A tool result that becomes a user message is marked as untrusted in front of its text, kept whole up to the limit and else by both edges, and names no tool or call any more. |
| ContextBudget.RepairsAreCounted | crates/hachimi-agent/src/context_budget.rs:129-170 | The repair count is the number of calls dropped plus the number of results demoted. |
| ContextBudget.NoRepairsIffUnchanged | crates/hachimi-agent/src/context_budget.rs:129-170 | The repair count is zero if and only if nothing was changed. |
| ContextBudget.CallsMayShareAResult | crates/hachimi-agent/src/context_budget.rs:137-139 | Well-paired is per id: two calls with one id share one answer and both survive. |
| ContextBudget.CountResults | crates/hachimi-agent/src/context_budget.rs:123-130 | The counted results per id are the number of tool messages answering it. |
| ContextBudget.RetainCalls | crates/hachimi-agent/src/context_budget.rs:136-144 | Keeps, in order, exactly the calls answered once and notes their ids as valid. |
| ContextBudget.RepairToolPairs | crates/hachimi-agent/src/context_budget.rs:120-171 | The two passes in place yield exactly the repaired request, with its (u32-saturating) count, zero exactly when unchanged. |
| ContextBudget.ProtectedRoundBoundary | crates/hachimi-agent/src/context_budget.rs:173-184 | The beginning of the n-th tool round from the end, or 0 when there are fewer. |
| ContextBudget.TwoRoundsAreProtected | crates/hachimi-agent/src/context_budget.rs:173-184 | The boundary is the first of the last two assistant messages that make calls, or 0 when there are fewer than two. |
| ContextBudget.CompactionKeepsPairing | crates/hachimi-agent/src/context_budget.rs:85-109 | Microcompaction keeps roles, names, ids and calls, hence the pairing established by repair. |
| ContextBudget.CompactionProtects | crates/hachimi-agent/src/context_budget.rs:86-105 | Everything from the second-last tool round on, every failed result and every non-tool message keep their text in front; only messages before the latest user message lose their images, and the text behind then names each of them. |
| ContextBudget.CompactionShrinks | crates/hachimi-agent/src/context_budget.rs:86-109 | Every other message holds what is retained of its text and, where it had old images, of the note behind it. |
| ContextBudget.CompactionIsCounted | crates/hachimi-agent/src/context_budget.rs:85-110 | No image is lost uncounted, and the results counted as shrunk are exactly the messages whose text changed, the note on images aside. |
| ContextBudget.UntouchedIff | crates/hachimi-agent/src/context_budget.rs:85-109 | A message comes through untouched if and only if it has no old image and is no old succeeded result whose retained form differs. |
| ContextBudget.FailureStaysReported | crates/hachimi-agent/src/context_budget.rs:100-104 | A text added on a new line, as the note on images is, never changes whether a result reports a failure, even one cut short in its header. |
| ContextBudget.CompactionIsLocal | crates/hachimi-agent/src/context_budget.rs:67-109 | On a well-paired request without old images, only the text of succeeded tool results before the boundary changes, to its retained form. |
| ContextBudget.SecondCompactionIff | crates/hachimi-agent/src/context_budget.rs:85-109 | A second compaction changes a message again if and only if it is an old succeeded result whose retained text is not retained as it is, for any way of retaining. |
| ContextBudget.CompactionIsStable | crates/hachimi-agent/src/context_budget.rs:85-109 | With any idempotent way of retaining a second compaction changes nothing. |
| ContextBudget.BoundingIsStable | crates/hachimi-agent/src/context_budget.rs:186-203 | With the plain bounding rule a second compaction changes nothing. |
| ContextBudget.ShrinkInPlace | crates/hachimi-agent/src/context_budget.rs:85-110 | The loop yields exactly the compacted request, with exact (u32-saturating) counts of shrunk results and removed images. |
| ContextBudget.MicrocompactRequest | crates/hachimi-agent/src/context_budget.rs:67-118 | Repair then shrink, in place: the compacted repaired request for the second-last surviving round and the latest user message, well paired, with exact counts. |
| ContextBudget.LatestTurnIsKeptIff | crates/hachimi-agent/src/context_budget.rs:76-79 | Repair keeps the latest user turn of any request if and only if it demotes no tool message after it; without a user message, if and only if it demotes none. |
| ContextBudget.LatestTurnKeepsImagesIff | crates/hachimi-agent/src/context_budget.rs:76-96 | The latest user turn keeps its images through repair and microcompaction if and only if every tool message after it is the one answer to a call. |
| ContextBudget.OrphanHidesLatestUser | crates/hachimi-agent/src/context_budget.rs:76-79 | The smallest loss: an orphaned result after the turn makes microcompaction drop the turn’s own images. |
| ModelView.BoundedFillsTheBudget | crates/hachimi-agent/src/model_view.rs:215-239 | Clipping yields exactly min(length, max) characters, is the identity exactly when the text fits, and otherwise keeps both ends around the notice, or a prefix when the notice does not fit. |
| ModelView.WhatItemsBecome | crates/hachimi-agent/src/model_view.rs:130-213 | Tool items become labelled user text bounded by the limit and flagged exactly when clipped; only assistant-side items speak as the assistant; approvals, input requests, compactions and system context never appear. |
| ModelView.WhatItemsSay | crates/hachimi-agent/src/model_view.rs:167-213 | An item has a text unless its payload has none, and the text begins and ends with what the payload names. |
| ModelView.LabelNamesTool | crates/hachimi-agent/src/model_view.rs:147-157 | The label of a tool result names the tool of the item, or says tool. |
| ModelView.EligibleItemsIff | crates/hachimi-agent/src/model_view.rs:54-59 | An item is a candidate if and only if it is in the transcript, newer than the checkpoint, of another run and has a message. |
| ModelView.EligibleItemsInOrder | crates/hachimi-agent/src/model_view.rs:54-59 | Candidates keep transcript order and multiplicity. |
| ModelView.SelectionFillsTheBudget | crates/hachimi-agent/src/model_view.rs:71-88 | The chosen messages hold exactly min(budget, all candidate characters). |
| ModelView.SelectionIsASuffix | crates/hachimi-agent/src/model_view.rs:71-89 | They are a contiguous suffix of the candidates; all but the oldest are whole, and the oldest is clipped only when the budget is used up. |
| ModelView.SelectionIsShortest | crates/hachimi-agent/src/model_view.rs:71-88 | The suffix is the shortest that fills the budget. |
| ModelView.ViewFillsTheBudget | crates/hachimi-agent/src/model_view.rs:53-106 | `character_count` is the minimum of the history limit and checkpoint plus candidate characters; included plus omitted equals candidates. |
| ModelView.ViewIsASuffix | crates/hachimi-agent/src/model_view.rs:53-106 | Each shown message is that of an eligible transcript item in order, whole but for the oldest when the budget is used up. |
| ModelView.ViewShowsNewHistory | crates/hachimi-agent/src/model_view.rs:53-106 | Included plus omitted items are exactly those newer than what the checkpoint covers, of another run, of a shown kind and with a text; the k-th item shown is the one with omitted + k of them before it; the checkpoint comes first. |
| ModelView.ViewCountsClipped | crates/hachimi-agent/src/model_view.rs:60-88 | The clipped count is the number of shown items cut by either limit, and one more for a checkpoint over the budget. |
| ModelView.SelectNewest | crates/hachimi-agent/src/model_view.rs:69-90 | The popping loop and the reversal yield exactly the selection and its number of clipped items. |
| ModelView.BuildModelView | crates/hachimi-agent/src/model_view.rs:47-107 | The whole construction yields the view the theorems are about, counts included. |
| ModelView.LabelSurvivesIff | crates/hachimi-agent/src/model_view.rs:157-168 | For every tool name: the line that marks a tool result as untrusted survives budget clipping if and only if the text fits, the head kept is as long as the line, or the clip happens to repeat the line, which takes a name that holds the clipping notice. |
| AgentsMd.BoundaryIffValid | crates/hachimi-agent/src/agents_md.rs:208-210 | The byte test of `is_char_boundary` holds exactly where a prefix of valid UTF-8 is valid UTF-8 (sections 3 and 4 of RFC 3629). |
| AgentsMd.ValidIffEncoded | crates/hachimi-agent/src/agents_md.rs:203-212 | What the byte test is about: a byte string is valid UTF-8 if and only if it encodes some sequence of scalar values (section 3 of RFC 3629). |
| AgentsMd.BoundaryIsNear | crates/hachimi-agent/src/agents_md.rs:208-210 | A boundary lies within three bytes before any position. |
| AgentsMd.BoundedUtf8 | crates/hachimi-agent/src/agents_md.rs:203-212 | The clip is the longest prefix within the budget that is valid UTF-8, loses at most three bytes of it, and happens exactly when the text exceeds it. |
| AgentsMd.RelativeAncestors | crates/hachimi-agent/src/agents_md.rs:171-193 | The growing path computes the chain of directories, or rejects an absolute, drive or parent path. |
| AgentsMd.RejectedIff | crates/hachimi-agent/src/agents_md.rs:172-178 | A working directory is rejected if and only if it begins with a slash or backslash, holds a colon, or has two dots as a whole part. |
| AgentsMd.AncestorsExtend | crates/hachimi-agent/src/agents_md.rs:183-192 | The chain starts at the root, every directory extends the one before by one name, and the last is the working directory without empty and `.` parts. |
| AgentsMd.AncestorsGrow | crates/hachimi-agent/src/agents_md.rs:186-191 | Every directory is a proper prefix of the later ones. |
| AgentsMd.LastHasTheSameChain | crates/hachimi-agent/src/agents_md.rs:171-193 | The last directory of a chain has that chain: normalisation is idempotent. |
| AgentsMd.LoadLayers | crates/hachimi-agent/src/agents_md.rs:124-168 | The first directory at which the token is cancelled, a read fails or the budget does not hold decides the outcome exactly; otherwise all files found are there whole. |
| AgentsMd.Load | crates/hachimi-agent/src/agents_md.rs:117-168 | Loading rejects a bad working directory and otherwise loads the chain of its ancestors. |
| AgentsMd.LayersFillTheBudget | crates/hachimi-agent/src/agents_md.rs:125-161 | The bytes never exceed the budget, and a truncated load uses all but at most three of them. |
| AgentsMd.LayersAreAPrefix | crates/hachimi-agent/src/agents_md.rs:124-161 | The layers are the files found in chain order from the first on, whole except for the last of a truncated load; not truncated means every file whole. |
| AgentsMd.LayersAreTheFiles | crates/hachimi-agent/src/agents_md.rs:132-160 | The i-th layer is of the i-th directory with a file and is its override wherever there is one, else its ordinary file; a load that is not truncated misses none. |
| AgentsMd.WhyRejected | crates/hachimi-agent/src/agents_md.rs:126-142 | A load is rejected only at a directory it came to, because the token was cancelled or reading the override, or else the ordinary file, failed. |
| AgentsMd.NothingStoppedIt | crates/hachimi-agent/src/agents_md.rs:126-142 | A load that is not truncated met no cancellation and no failed read at any directory. |
| AgentsMd.TruncatedIff | crates/hachimi-agent/src/agents_md.rs:143-160 | Truncation is reported if and only if the files exceed the budget or use it up before the last of them. |
| AgentsMd.FalseAlarmIff | crates/hachimi-agent/src/agents_md.rs:143-146 | A truncated load lost nothing if and only if the files fit the budget. |
| AgentsMd.EmptyFileSetsTruncated | crates/hachimi-agent/src/agents_md.rs:143-146 | The smallest false alarm: an empty file found with no budget left. |

## Left out

- PlanReference.StreamEqualsBatch: is for the deltas of one message id into no stream or a fresh one; deltas of
  several ids in one stream are covered by the event theorems, not by the reference.
- Projector.LoopProjection.ProjectEvents: store and hook errors end the projection in the source and are not
  modelled; nor are tool items, usage snapshots, review and plan documents.
- Projector.LoopProjection.AppendLiveDelta: keeps every delta whole; the live event log caps the size of one
  delta event, the completed item carries the full text either way.
- SessionLane.AtMostOnePermit: says nothing on fairness of the gate, wake-ups, `wait_drained` or timeouts.
- RunRegistry.AgentExecutorRegistry.Cancel: takes the cascade as one atomic step; `CancelCascade` takes its sections
  one by one among the steps of others, without the lanes. Priorities and background slots are not modelled.
- RestartLoop.RunWithRestarts: turns, compactions and errors of the store are the scenario's answers; plugin
  hooks, the watcher of the combined token and the preparation of a turn are not modelled.
- CompactionTrim.RequestSummary: the summary stream's events are folded into one reply per attempt; the fall-back
  from remote to local summaries and the building of the source text are not modelled.
- SideEffects.AtMostOneExecution: is within one run generation; recovery across generations with a reused key,
  read-only calls and calls without a run store are not modelled, and policy, approval and sandbox checks
  before the claim, a cancellation seen there included, appear as a denial that may happen at any time.
- SideEffects.ClaimStore.Execute: is one call without interference; the protocol theorems are over all
  interleavings. Encoding of structured content is its size and an opaque value.
- RunDiff.RunDiffIsExact: is without renames and moves (`capture_before_move`, previous paths), file modes, path
  case folding, unmerged and intent-to-add entries, and without capture stopped half-way by cancellation. It takes
  a file that status calls clean to hold the bytes of its blob: line-ending conversion and clean filters are absent.
- RunDiff.RunDiffTracker.Refresh: yields the set of changed paths; the text diff of a path is made by a library
  that is not part of this model.
- ContextBudget.MicrocompactRequest: is for any way of retaining a result by its tool's name and text;
  `RetainedToolResult` is the program's, with the metadata read from JSON given from outside. Token counts are left
  out.
- ModelView.BuildModelView: the checkpoint's message is its finished text; prompt wording is not modelled.
- AgentsMd.Load: a file read depends on its path only, the token on the directory reached; the revision hash
  of the layers is left out.
- Storage in SQL, the Workspace Host protocol, model transports, MCP clients, audit records and JSON rendering.
- The arithmetic of `context_budget`, capability negotiation, profiles, review parsing, elicitation forms, skill
  paging and grant narrowing: single-branch members with nothing to relate.
- The run status table, the tool loop driver and the policy crate: nothing here rests on them.
