# Verification of the cognitive operating system agent's concurrent and textual cores

This project models, in Dafny, the parts of the repository whose correctness is hardest to see
from the code, and proves what they promise for every input and every interleaving.

- **Execution lanes and group discussions** (`LaneTable`, `LaneProtocol`, `LaneSafety`,
  `LaneProgress`, `LaneRuns`, `LlmSwap`, `LlmSwapOverlap`, `Discussion`, `DiscussionSafety`,
  `DiscussionRuns`, `DispatchHits`, `RoundRobin`, `Progress`): tasks contending for hashed room
  locks, per-session locks that are created and freed by reference count, and four reasoning
  lanes; the takeover of a discussion by a newer human message; the hot swap of the LLM; the
  bounded round-robin loops; the counters a discussion publishes. The protocols are transition
  systems with one program counter per process; the session table and the loops are also given
  as classes and methods. `LaneRuns` and `DiscussionRuns` say that calls and discussions get
  through, and how they give up.
- **Coverage recorder and resolver** (`CovRecorder`, `CovHash`, `CovResolve`): a lock-free probe
  table under any interleaving of compare-and-swaps, its dump, and the tool that sorts, searches,
  marks and aggregates; with one theorem across both.
- **Source rewriting** (`Skeleton`, `HwAudit`, `LexerTexts`, `Insertions`, `BlankLines`,
  `BlankTexts`, `BlankPass`, `Statements`, `StatementTexts`): two lexers that walk in step and
  what they do to each kind of comment and literal, the blank-line pass and why repeating it
  ends, and the statement splitter.
- **MCP connections** (`ToolTable`, `McpManager`, `StdioFraming`, `McpPeer`): ownership of
  registered tools across re-syncs and removals, and JSON-RPC 2.0 over a stream that arrives in
  chunks, from both ends.
- **Skills, ranking, generated literals, file comparison** (`SkillTable`, `SkillRegistry`,
  `Attention`, `CLiterals`, `FsCompare`).

`Options`, `Texts` and `Rooms` hold what several modules share.

What depends on the outside is a parameter: model answers, aborts and stored message ids
(`World`), what a child process does (`Env`), memory that may not be had, the chunks of a stream,
the parser and writer of JSON, the function finder and the word characters of a regular
expression, scores, and what is under a file name at each moment.

Where the code and its comments disagree the model follows the code: a backslash before a line
break inside a literal is blanked with it (`Skeleton.ABrokenStringLosesItsNewline`), and a
statement that begins with a parenthesis is split without its head
(`Statements.AParenthesisIsLeftOut`).

Some guarantees hold only under a condition.  For each there is an input that breaks it, and
the exact condition, proved in both directions:

- LLM swaps: a swap must not begin while another is on its way to publish; one that has
  published does not matter (`LlmSwapOverlap.OverlapHarmsExactly`).
- Progress counters: nothing may be published from a copy taken before a later report
  (`Progress.CountersAddUpExactly`); the dispatcher's "queued" can come that late
  (`Progress.LateStatusLosesCounts`).
- Removing an MCP server spares the tools of another if and only if neither prefix extends the
  other (`McpManager.RemovalReachesExactly`).
- A coverage report is right if and only if no listed symbol off the recorded addresses starts
  with its mark set, which the enumeration does not clear (`CovResolve.ReportIsRightExactly`).
- The statements of a body cover all that matters if and only if no opening parenthesis comes
  first in the body or after the end of a statement (`Statements.CoverageExactly`, with the gaps
  in `Statements.LeftOutExactly`).
- A response found early is that of the whole stream if and only if no part of a line up to it is
  another message with the id (`StdioFraming.CutsAgreeExactly`); a stream where half a line is
  taken is in `StdioFraming.HalfALineIsTaken`.
- Files found equal are equal at their first stamps if and only if what lies past the size
  looked at is (`FsCompare.EqualAtStampsExactly`).
- A cancellation hits a running task if and only if that task has not ended since it was looked
  at (`DispatchHits.EveryHitWasDecidedOnARunningTask`), which nothing seen beforehand can ensure
  (`DispatchHits.EveryDecisionCanMiss`).

Check everything with `dafny verify dfyconfig.toml`.

## Model

| member | source | states |
|---|---|---|
| LaneTable.FindIsExact | backend/src/cognitive_os_agent.c:245-246 | a lookup finds the listed entry of an id and no other |
| LaneTable.PinKeepsOk | backend/src/cognitive_os_agent.c:255 | one more reference keeps the table: listed exactly while referenced, ids distinct |
| LaneTable.MakeKeepsOk | backend/src/cognitive_os_agent.c:247-255 | a new entry at the head, made only when the lookup failed, keeps the table |
| LaneTable.UnpinKeepsOk | backend/src/cognitive_os_agent.c:229-238 | dropping a reference, and the entry with the last one, keeps the table |
| LaneTable.WithoutMembers | backend/src/cognitive_os_agent.c:232-234 | unlinking removes that entry from the list and nothing else |
| LaneTable.LaneList.ViewOk | backend/src/cognitive_os_agent.c:195-202 | the linked list with its counts is such a table |
| LaneTable.LaneList.Search | backend/src/cognitive_os_agent.c:245-246 | the list walk finds what the table lookup says |
| LaneTable.LaneList.Push | backend/src/cognitive_os_agent.c:248-254 | the new node is linked at the head with one reference; the rest is as before |
| LaneTable.LaneList.Reference | backend/src/cognitive_os_agent.c:241-256 | the first half of acquiring: pin the listed entry, or make one, or fail when memory runs out |
| LaneTable.LaneList.Unlink | backend/src/cognitive_os_agent.c:232-234 | the pointer walk takes exactly this node out of the list and changes no count |
| LaneTable.LaneList.Unreference | backend/src/cognitive_os_agent.c:229-240 | on the linked list, lane_sess_unref is the table's Unpin |
| LaneProtocol.TakesInRankOrder | backend/src/cognitive_os_agent.c:445-473 | a process takes a lock only above every lock it holds: room, then session, then lane |
| LaneProtocol.DropsWhatItHolds | backend/src/cognitive_os_agent.c:315-354 | a process unlocks only what it holds, and holds it no more |
| LaneProtocol.OtherMovesKeepLocks | backend/src/cognitive_os_agent.c:315-354 | no other step changes what a process holds |
| LaneProtocol.PinDiscipline | backend/src/cognitive_os_agent.c:229-263 | a process pins at most one entry, at once with its lookup, and unpins the one it pinned |
| LaneProtocol.TaskDiscipline | backend/src/cognitive_os_agent.c:315-354 | task references are taken and given back in pairs by one call |
| LaneSafety.PinnersAfterAdvance | backend/src/cognitive_os_agent.c:229-263 | how any step of any process changes the set of processes an entry's count stands for |
| LaneSafety.FreeEntryIsUnlocked | backend/src/cognitive_os_agent.c:229-240 | a freed entry's lock is held by nobody |
| LaneSafety.AdvanceKeepsPinnedLive | backend/src/cognitive_os_agent.c:229-263 | no step frees an entry that some process owns, waits for or is about to drop |
| LaneSafety.StepKeepsSafe | backend/src/cognitive_os_agent.c:195-263 | one step of any process keeps lock ownership, exact counts, ids and task references |
| LaneSafety.EveryBehaviourIsSafe | backend/src/cognitive_os_agent.c:195-263 | every state of every interleaving is safe, with arrivals and aborts at any time |
| LaneProgress.SessionOwnerIsUnique | backend/src/cognitive_os_agent.c:238-263 | two tasks never own one session id at once, although entries come and go |
| LaneProgress.ListedWhilePinned | backend/src/cognitive_os_agent.c:195-263 | an entry is listed exactly while some task owns, awaits or is about to drop it, and its count is the number of those |
| LaneProgress.OneLockPerRank | backend/src/cognitive_os_agent.c:445-473 | at most one lock of each rank is held |
| LaneProgress.CallLeavesNothingBehind | backend/src/cognitive_os_agent.c:315-354 | every exit of chat_lane_run and im_run_round has given back exactly the locks, references and task references taken |
| LaneProgress.HolderWaitsHigher | backend/src/cognitive_os_agent.c:219-228 | who holds a lock waits only for locks of higher rank |
| LaneProgress.WaitChainEnds | backend/src/cognitive_os_agent.c:219-263 | from any process, following the holders of awaited locks ends within three hops at one that can step: no deadlock |
| LaneProgress.Drain | backend/src/cognitive_os_agent.c:315-354 | from a safe state the processes present can all be run to their end |
| LaneProgress.EveryReachableStateDrains | backend/src/cognitive_os_agent.c:195-354 | from every reachable state there is a run to rest, and at rest no lock is held, the table is empty and no task is referenced |
| LaneRuns.ACallRunsAndReturns | backend/src/cognitive_os_agent.c:305-354 | alone, with session and lane locks free, a call gets its session (an empty id is "default"), runs on the first lane with that lane's LLM, and leaves locks, table and references as they were |
| LaneRuns.ACallIsRefused | backend/src/cognitive_os_agent.c:305-309 | a call whose task is gone returns at once and has changed nothing |
| LaneRuns.ACallWithoutMemoryReturns | backend/src/cognitive_os_agent.c:310-311 | without memory for a session entry the call returns and has changed nothing |
| LaneRuns.AnAbortedCallReturns | backend/src/cognitive_os_agent.c:257-262 | an aborted call gives up before it has its session, and has changed nothing |
| LaneRuns.AnAbortedWaiterReturns | backend/src/cognitive_os_agent.c:312-331 | a call aborted while it waits for a lane gives session, reference and task back |
| LaneRuns.ADiscussionCalls | backend/src/cognitive_os_agent.c:445-512 | a discussion whose room is free takes it and calls on behalf of a member |
| LaneRuns.ADiscussionLeaves | backend/src/cognitive_os_agent.c:578-580 | and comes back to its room, which it gives back |
| LaneRuns.ASoloCallRuns | backend/src/cognitive_os_agent.c:356-398 | a single-agent call runs on the first lane, again if it must, and gives it back |
| LaneRuns.AnyMayArrive | backend/src/cognitive_os_agent.c:305-398 | every kind of process may arrive at any time |
| LlmSwap.SwapMoveKeepsUsers | backend/src/cognitive_os_agent.c:1472-1479 | switching a lane disturbs no run in flight on it |
| LlmSwap.ApartCreationsKeepLlmOk | backend/src/cognitive_os_agent.c:1444-1511 | the lanes, the context and the live LLMs stay in step through any run in which no LLM is created while another swap is still to publish its own |
| LlmSwap.EveryRunUsesOneLiveLlm | backend/src/cognitive_os_agent.c:315-354 | then an in-flight run's LLM is live and is the one its lane still refers to |
| LlmSwap.DestroyedLlmIsUnused | backend/src/cognitive_os_agent.c:1480-1511 | when the old LLM is destroyed no lane, no run and not the context refers to it, and it is destroyed once |
| LlmSwapOverlap.OverlapHarmsExactly | backend/src/cognitive_os_agent.c:1444-1511 | the exact condition: a swap that begins now can, with no further swap, lead to a run on a destroyed LLM or to an LLM destroyed twice if and only if another swap is on its way to publish |
| LlmSwapOverlap.ApartIsHarmless | backend/src/cognitive_os_agent.c:1444-1511 | a swap that begins when no other is on its way to publish does no harm, also while others have yet to destroy |
| LlmSwapOverlap.OverlappingSwapsStrandARun | backend/src/cognitive_os_agent.c:1472-1511 | from every safe state with one swap at its start and another still switching lanes there is a continuation to a task using a destroyed LLM |
| LlmSwapOverlap.OverlappingSwapsDestroyTwice | backend/src/cognitive_os_agent.c:1480-1511 | if the other has read the context's LLM and not yet replaced it, there is one to an LLM destroyed twice |
| DiscussionSafety.LatestIsLast | backend/src/cognitive_os_agent.c:405-406 | the scan of the transcript ends with the newest human message |
| DiscussionSafety.StaleStays | backend/src/cognitive_os_agent.c:399-414 | a trigger that is no longer the newest human message never is again |
| DiscussionSafety.StepKeepsRooms | backend/src/cognitive_os_agent.c:462-474 | the room lock and the active slot of a bucket stay with the task that took them, also when rooms share the bucket |
| DiscussionSafety.EveryStateOk | backend/src/cognitive_os_agent.c:445-582 | the invariant of messages, rooms, tasks and dispatches holds in every state of every run |
| DiscussionSafety.NoReplyAfterNewerHuman | backend/src/im/im.c:508-542 | after human message m no reply of a discussion triggered before m is stored |
| DiscussionSafety.AtMostOneLateCall | backend/src/cognitive_os_agent.c:489-527 | once overtaken, a discussion starts at most one more model call |
| DiscussionSafety.DispatchFindsActive | backend/src/cognitive_os_agent.c:611-612 | im_dispatch sees the discussion that has entered its room |
| DiscussionRuns.AnAnswerCanBeStored | backend/src/cognitive_os_agent.c:513-545 | an answered discussion that is not aborted and whose trigger is current can, alone, store its reply: the log is longer by it and nothing else has changed |
| DiscussionRuns.AQueuedDiscussionCanReply | backend/src/cognitive_os_agent.c:445-582 | from the queue, with its bucket free, it can take the room, call, store the reply, leave and end, and nothing but the reply remains |
| DiscussionRuns.ANewMessageOvertakes | backend/src/cognitive_os_agent.c:405-414 | a human message can be posted to any room, and overtakes every discussion there |
| DiscussionRuns.AFailedCheckEndsIt | backend/src/cognitive_os_agent.c:489-527 | a discussion that finds its trigger overtaken, before or after a call or when publishing, is cancelled and on its way out for good |
| DiscussionRuns.AnAbortedWaiterNeverEnters | backend/src/cognitive_os_agent.c:456-461 | aborted before it has the room, it never gets it |
| DiscussionRuns.AtMostOneCallOnceAborted | backend/src/cognitive_os_agent.c:474-530 | once aborted, it starts at most the one call it was preparing |
| DispatchHits.EveryHitWasDecidedOnARunningTask | backend/src/cognitive_os_agent.c:611-616 | in every run, each cancellation was decided in an earlier state on a running task of the room with an older trigger; it hits a running task if and only if the target has not ended in between |
| DispatchHits.EveryDecisionCanMiss | backend/src/cognitive_os_agent.c:611-616 | nothing seen beforehand excludes a miss: whenever a dispatch is about to cancel a running task, the run can go on so that the flag is set when the task has ended |
| DispatchHits.AnOlderDiscussionIsCancelled | backend/src/cognitive_os_agent.c:611-615 | conversely, an older discussion active in the room when the slot is read is cancelled if and only if it does not end before its status is read |
| DispatchHits.RunsUntilItEnds | backend/src/cognitive_os_agent.c:445-582 | a task seen running runs on exactly until its own last step |
| DispatchHits.ATaskMayEndMeanwhile | backend/src/cognitive_os_agent.c:611-616 | a concrete run in which the flag is set on a task that has ended since |
| RoundRobin.TrimmedLength | backend/src/cognitive_os_agent.c:435 | the trailing blanks are skipped, no more |
| RoundRobin.DiscussionDone | backend/src/cognitive_os_agent.c:432-441 | a reply votes exactly when, blanks aside, it ends with the marker; marker and blanks are cut |
| RoundRobin.MarkedSays | backend/src/cognitive_os_agent.c:432-441 | a text followed by the marker and blanks is a vote that says the text, trimmed; any other says itself |
| RoundRobin.FirstsListsEachOnce | backend/src/cognitive_os_agent.c:484-488 | the members called are the distinct names, each once |
| RoundRobin.AlreadySpoke | backend/src/cognitive_os_agent.c:484-487 | the duplicate test is exact |
| RoundRobin.Invoke | backend/src/cognitive_os_agent.c:489-572 | one role invocation, from what it is told: a code of -2 is a newer message and any other a deleted room; an answer is taken up exactly when the call returned 0 with text and no abort came, and otherwise fails as the agent's; it votes when marked, and the rest is sent under the member's name |
| RoundRobin.RunPass | backend/src/cognitive_os_agent.c:478-573 | an undisturbed pass calls every distinct member exactly once in order; votes, participants and replies are counted and stored as the calls say |
| RoundRobin.ConsensusMeans | backend/src/cognitive_os_agent.c:574-576 | at consensus every member was called in the last pass and answered with the marker |
| RoundRobin.AllVoted | backend/src/cognitive_os_agent.c:574 | the vote counter equals the call counter exactly when all voted |
| RoundRobin.StoredBounded | backend/src/cognitive_os_agent.c:543-545 | replies are at most passes times distinct members |
| RoundRobin.RunPasses | backend/src/cognitive_os_agent.c:474-577 | passes stop at the first unanimous one or at the limit |
| RoundRobin.RunRound | backend/src/cognitive_os_agent.c:462-581 | it returns 0 exactly when the session can be run and nothing told is trouble; each of failed, cancelled, timeout and new_message has its cause among what was told; "done" means one complete unanimous pass, or all 1 to 5 passes complete; the replies stored are what the calls said, in order |
| Progress.TaskProgress.LaneWaitProgress | backend/src/cognitive_os_agent.c:207-218 | stage and activity are those of waiting, every other member is that of the copy taken |
| Progress.TaskProgress.ImRunStatus | backend/src/cognitive_os_agent.c:356-382 | member by member: room, status, round, rounds, stage, and agent and reason exactly when given; every other member is that of the copy; queued after a status is not published |
| Progress.TaskProgress.ChatProgress | backend/src/cognitive_os_agent.c:266-304 | member by member: each counter is the report's plus the snapshot's, the group's members are those of the copy, usage stays available, ids are added, the rest is the report's |
| Progress.TaskProgress.RunRole | backend/src/cognitive_os_agent.c:333-343 | a role with its reports, when nobody else publishes: each counter grows by what the last report says |
| Progress.ChattedAt | backend/src/cognitive_os_agent.c:275-280 | a report that carries a counter publishes it plus the snapshot's |
| Progress.CopyIsOld | backend/src/cognitive_os_agent.c:356-361 | copying and publishing are two steps: what a writer works on is what was published when it took its copy |
| Progress.CountersAddUpExactly | backend/src/cognitive_os_agent.c:266-382 | each published counter is always the sum of the earlier invocations' last reports and the current one's latest if and only if nothing is published from a copy taken when that sum was another, and no report lacks the counter after earlier invocations have counted |
| Progress.DueMovesOnReports | backend/src/cognitive_os_agent.c:266-304 | that sum changes with reports only |
| Progress.LateStatusLosesCounts | backend/src/cognitive_os_agent.c:617-618 | the failing input: im_dispatch copies before the worker begins and publishes "queued" after its first report, whose counts are lost |
| Progress.CountersNeverDecrease | backend/src/cognitive_os_agent.c:266-382 | under that condition it never falls when each role's own reports do not |
| CovRecorder.KeyIsNewAtEmptySlot | backend/tools/cov_rt.c:39-45 | a probing call that finds an empty slot has a key that is nowhere in the table |
| CovRecorder.StoreKeepsTableOk | backend/tools/cov_rt.c:41-42 | the successful compare-and-swap keeps the table a set reached by linear probing |
| CovRecorder.ProbeStep | backend/tools/cov_rt.c:39-45 | one compare-and-swap of any call, against whatever others have done meanwhile |
| CovRecorder.EveryStateOk | backend/tools/cov_rt.c:33-59 | the invariant over every interleaving of any number of calls and the dump |
| CovRecorder.NoKeyTwice | backend/tools/cov_rt.c:33-46 | no key is in two slots, and its way from the hash is occupied, with wrap-around |
| CovRecorder.ReturnedKeyIsPresent | backend/tools/cov_rt.c:39-46 | a returned call's key is in the table, unless all slots hold other keys |
| CovRecorder.EveryCallTerminates | backend/tools/cov_rt.c:39-45 | every call can step and each of its steps brings it closer to returning, whatever the others do |
| CovRecorder.ACallCanRun | backend/tools/cov_rt.c:33-46 | a new call can run to its return, and while recording it is not ignored |
| CovRecorder.IgnoredOnlyAfterStop | backend/tools/cov_rt.c:35 | a call is ignored only once recording has stopped |
| CovRecorder.DumpIsExact | backend/tools/cov_rt.c:48-59 | the dump has no address twice, only entered ones, and all that were settled |
| CovRecorder.ADumpCanFinish | backend/tools/cov_rt.c:54-58 | a dump under way can be read to its end |
| CovRecorder.SettledSinceStop | backend/tools/cov_rt.c:50 | recording stops once; what counts as settled is what was stored then |
| CovRecorder.FinishedBeforeStopIsDumped | backend/tools/cov_rt.c:34-59 | an address whose call returned, having stored it, before recording stopped is in the dump |
| CovHash.MaskWraps | backend/tools/cov_rt.c:44 | masking the next slot is wrapping around the table |
| CovHash.HashValues | backend/tools/cov_rt.c:16-26 | the hash is the finalizer of MurmurHash3 |
| CovHash.TableShapeOk | backend/tools/cov_rt.c:16-38 | the table size and hash of the code are an instance of the proofs above |
| CovHash.ProfileEnter | backend/tools/cov_rt.c:34-46 | alone, an insert fills the first empty slot on its way, or finds its key, or the table is full; address 0 leaves no trace |
| CovHash.CovDump | backend/tools/cov_rt.c:54-57 | alone, the dump is the occupied slots in order |
| CovHash.NonZeroListsTable | backend/tools/cov_rt.c:54-57 | which lists every stored address once and nothing else |
| CovResolve.SomeSortedOrder | backend/tools/cov_resolve.c:104 | a sorted rearrangement exists, so the sort's promise can be met |
| CovResolve.FindSym | backend/tools/cov_resolve.c:58-70 | the binary search gives the first symbol at exactly the address, or says there is none |
| CovResolve.MarkAt | backend/tools/cov_resolve.c:121-126 | all symbols at an address are marked, aliases included, and no other |
| CovResolve.MarkHits | backend/tools/cov_resolve.c:106-127 | a symbol is marked exactly when its address is a recorded one relocated; lines that name a symbol are counted |
| CovResolve.RelocatedHas | backend/tools/cov_resolve.c:117-120 | the marked addresses are the relocated ones of the readable lines |
| CovResolve.RelocateInverse | backend/tools/cov_resolve.c:119-120 | relocation modulo 2^64 can be undone |
| CovResolve.OffsetIsKept | backend/tools/cov_resolve.c:119-120 | an address keeps its offset from the base |
| CovResolve.ResolvedIs | backend/tools/cov_resolve.c:117-126 | the count of hits is the number of lines whose relocated address is a symbol's |
| CovResolve.BaseOf | backend/tools/cov_resolve.c:72-76 | the loop finds the place after the last separator |
| CovResolve.BaseNameIsLastPart | backend/tools/cov_resolve.c:72-76 | a file name has no separator, and one stands before it if anything does |
| CovResolve.RowNameIsLeft | backend/tools/cov_resolve.c:134-136 | a row is called what is left of the file past the root and its separators, or past the last separator |
| CovResolve.RowsBelowRoot | backend/tools/cov_resolve.c:134-139 | below a root two files share a row if and only if they agree past the root and its separators |
| CovResolve.TallyKeepsRows | backend/tools/cov_resolve.c:137-146 | counting a symbol into its row keeps every row exact |
| CovResolve.Aggregate | backend/tools/cov_resolve.c:130-147 | row names are distinct, each row counts its symbols, at least one, and its hits, and the rows sum to all of them |
| CovResolve.CountOfPermutation | backend/tools/cov_resolve.c:104 | counts do not depend on the order of the symbols |
| CovResolve.Report | backend/tools/cov_resolve.c:78-156 | sort, mark and aggregate together, in terms of the symbols as enumerated: every listed symbol has a row named by what is left of its file, and each row counts exactly those and the marked among them |
| CovResolve.ReportIsRightExactly | backend/tools/cov_resolve.c:36-53 | the marks are not cleared when symbols are enumerated: every row and total is right if and only if no listed symbol off the recorded addresses came with a mark |
| CovResolve.AStaleMarkIsCounted | backend/tools/cov_resolve.c:36-53 | a symbol that came with a mark is counted as covered though nothing was recorded |
| CovResolve.ReportRun | backend/tools/cov_resolve.c:78-156 | recorder and resolver together: over every interleaving, a row counts at least the symbols stored before the stop and, without stale marks, at most those entered |
| CovResolve.RecordedMeansEntered | backend/tools/cov_resolve.c:106-127 | over every interleaving of the recorder: a relocated address is a recorded one only if some call entered there, and is one if stored before the stop |
| Skeleton.StripInPlace | backend/tools/var_hoist.py:41-94 | the in-place loop computes the skeleton |
| Skeleton.Turn | backend/tools/var_hoist.py:48-93 | one turn of the loop, branch by branch |
| Skeleton.OnlyBlanks | backend/tools/var_hoist.py:41-43 | length is kept and characters only become spaces |
| Skeleton.StripTwice | backend/tools/var_hoist.py:41-94 | stripping a skeleton changes nothing |
| Skeleton.NewlinesKept | backend/tools/var_hoist.py:42-43 | a line break is kept exactly when no backslash escapes it inside a literal |
| Skeleton.ABrokenStringLosesItsNewline | backend/tools/var_hoist.py:69-72 | a concrete literal whose line break is blanked, against the comment's promise |
| LexerTexts.LineComment | backend/tools/var_hoist.py:58-84 | both lexers: a line comment becomes blanks up to its line break |
| LexerTexts.BlockComment | backend/tools/var_hoist.py:48-79 | a block comment becomes blanks and its line breaks, up to its end |
| LexerTexts.Literal | backend/tools/var_hoist.py:65-88 | a literal keeps its quotes; the skeleton blanks what is between, the second lexer keeps it |
| LexerTexts.KeptCode | backend/tools/var_hoist.py:75-93 | code without slashes and quotes is kept |
| LexerTexts.KeptSlash | backend/tools/var_hoist.py:75-84 | so is a slash that opens no comment |
| HwAudit.StripByAppending | backend/tools/hw_audit.py:16-83 | the second lexer's loop computes its specification |
| HwAudit.SameSkeleton | backend/tools/hw_audit.py:16-83 | the skeleton of the decommented text is the skeleton of the text; decommenting twice is decommenting once |
| HwAudit.NothingToDecomment | backend/tools/hw_audit.py:16-83 | decommenting a skeleton changes nothing |
| HwAudit.EveryNewlineKept | backend/tools/hw_audit.py:17 | the second lexer keeps every line break |
| HwAudit.LineMap | backend/tools/hw_audit.py:86-92 | the loop records where each line starts |
| HwAudit.LineStartsCount | backend/tools/hw_audit.py:86-92 | lines start in order, one more than there are line breaks |
| HwAudit.OffLine | backend/tools/hw_audit.py:95-103 | the search finds the last line that starts at or before the offset |
| HwAudit.OffLineCountsNewlines | backend/tools/hw_audit.py:95-103 | its number is one more than the line breaks before the offset |
| Insertions.RemoveInserted | backend/tools/var_hoist.py:521-522 | erasing the inserted line breaks gives the text back |
| Insertions.StripOfInsert | backend/tools/var_hoist.py:41-94 | a line break put after a line break of the skeleton goes into the skeleton and changes nothing else in it |
| BlankLines.EditsIncrease | backend/tools/var_hoist.py:521 | edits come out in strictly increasing order |
| BlankLines.SameAsks | backend/tools/var_hoist.py:506-519 | whether a brace asks for a line depends on nothing past the next closing brace |
| BlankLines.BlankRuleOk | backend/tools/var_hoist.py:484-523 | the laws that the edit rule of blank_pass obeys |
| BlankLines.InsertLastEdit | backend/tools/var_hoist.py:521-522 | carrying out the last edit takes it off the list and leaves the others |
| BlankLines.LooseFalls | backend/tools/var_hoist.py:508-510 | each insertion lowers the number of loose closing braces by one |
| BlankTexts.NextLineDecides | backend/tools/var_hoist.py:506-519 | a brace that ends its line asks for an empty line exactly when the next line does not start with a closing brace, #, else or while |
| BlankTexts.NothingAsked | backend/tools/var_hoist.py:506-510 | nothing is asked for when the brace does not end its line, an empty line follows, or nothing does |
| BlankTexts.TopBlocks | backend/tools/var_hoist.py:491-504 | only a brace that closes a top-level block counts, not one that closes an initializer |
| BlankPass.FindEdits | backend/tools/var_hoist.py:484-520 | the scan with its depth, stack and last character finds exactly the edits |
| BlankPass.Wanted | backend/tools/var_hoist.py:506-519 | the two skipping loops and the tests after a brace |
| BlankPass.BlankPassOver | backend/tools/var_hoist.py:484-523 | one pass is the insertion of its edits |
| BlankPass.PassSettles | backend/tools/var_hoist.py:484-523 | after a pass re-stripping gives the same insertions into the skeleton, a second pass inserts nothing, and the measure has fallen by the number inserted |
| BlankPass.OneRound | backend/tools/var_hoist.py:547-552 | one round is the pass over the last function that needs it, or nothing is left |
| BlankPass.SettledMeans | backend/tools/var_hoist.py:543-554 | settled means that no body has anything left to insert |
| BlankPass.SettleBlankLines | backend/tools/var_hoist.py:543-554 | the fixpoint loop ends for any function finder: its text is reached by such rounds, with only line breaks inserted, one a loose brace at most, and nothing left to insert |
| Statements.MatchBrace | backend/tools/var_hoist.py:130-141 | the brace found is the matching one; none is found only if there is none |
| Statements.BodyDepth | backend/tools/var_hoist.py:130-141 | inside matched braces the depth is never negative and ends at 0 |
| Statements.SplitTopStatements | backend/tools/var_hoist.py:146-195 | the splitter's loop computes the statements of the body |
| Statements.ReadChar | backend/tools/var_hoist.py:158-192 | one turn of the loop, branch by branch |
| Statements.PastSemicolon | backend/tools/var_hoist.py:178-184 | a semicolon that follows a closing brace past white space belongs to it |
| Statements.StatementEndsFirst | backend/tools/var_hoist.py:170-189 | a statement ends at its first top-level semicolon or closing brace outside parentheses, or with the body |
| StatementTexts.ToSemicolon | backend/tools/var_hoist.py:158-192 | a statement goes on to the first semicolon at which all braces and parentheses opened in it are closed |
| StatementTexts.ToBrace | backend/tools/var_hoist.py:170-189 | or to the first such closing brace, with a semicolon that follows it |
| StatementTexts.ToTheEnd | backend/tools/var_hoist.py:193-195 | or to the end of the body |
| StatementTexts.PassedOver | backend/tools/var_hoist.py:158-192 | white space and semicolons between statements are passed over |
| StatementTexts.MatchedTexts | backend/tools/var_hoist.py:130-141 | two braces match when every text from the first on has more opened than closed, up to the second |
| Statements.StatementIsSound | backend/tools/var_hoist.py:146-195 | every span lies inside the body and is brace-balanced |
| Statements.StatementsAreApart | backend/tools/var_hoist.py:146-195 | spans are strictly ordered and disjoint |
| Statements.BracesAreCovered | backend/tools/var_hoist.py:146-195 | every brace of the body is in a span; a place in none starts no statement |
| Statements.LeftOutExactly | backend/tools/var_hoist.py:146-195 | a place is left out if and only if it lies between where one statement stops, or the body begins, and where the next starts |
| Statements.CoverageExactly | backend/tools/var_hoist.py:146-195 | everything but blanks and semicolons is in a statement if and only if no opening parenthesis comes first in the body, or first after a semicolon or closing brace at the top and outside parentheses |
| Statements.AParenthesisIsLeftOut | backend/tools/var_hoist.py:159-162 | a statement that begins with a parenthesis loses its head: full coverage fails |
| ToolTable.PutMembers | backend/src/action/tools.c:36-65 | registering with replacement maps the name to the struct and changes no other name |
| ToolTable.DropIsKept | backend/src/action/tools.c:78-92 | unregistering a mapped struct by its name removes exactly that struct |
| ToolTable.Registry.RegisterEx | backend/src/action/tools.c:36-65 | the method, with its refusal and its lack of memory |
| ToolTable.Registry.Unregister | backend/src/action/tools.c:78-92 | the method, against the registry as a list |
| ToolTable.OwnedIsMapped | backend/src/action/mcp_conn.c:45-48 | an owned tool is the struct the registry maps its name to |
| ToolTable.ReplacedKeepsOk | backend/src/action/mcp_conn.c:857-905 | a new generation retires the one before exactly when it was owned |
| ToolTable.OffersKeepOk | backend/src/action/mcp_conn.c:833-925 | a whole sync keeps ownership, and structs made later are still new |
| ToolTable.RemovedExactly | backend/src/action/mcp_conn.c:236-251 | after removal exactly the owned tools with the prefix are gone from registry and table |
| McpManager.FullNameHasPrefix | backend/src/action/mcp_conn.c:851 | a name cut at 511 characters still starts with the server's prefix |
| McpManager.ServerSlug | backend/src/action/mcp_conn.c:799-807 | letters, digits, _ and - are kept and all else becomes _, cut at 127 characters |
| McpManager.MakeName | backend/src/action/mcp_conn.c:851 | a full name is mcp__, the slug, __ and the tool, cut at 511 characters |
| McpManager.Manager.AddEx | backend/src/action/mcp_conn.c:118-195 | accepted exactly with a name and, for HTTP, a url, for stdio, a command; a connection of the name is replaced and its session dropped; the others keep theirs |
| McpManager.Manager.Remove | backend/src/action/mcp_conn.c:210-257 | the connection and its session go together, and the tools with its prefix |
| McpManager.Manager.PurgeTools | backend/src/action/mcp_conn.c:240-251 | the backward loop over the owned table |
| McpManager.Manager.SyncTool | backend/src/action/mcp_conn.c:851-922 | one tool: find the generation before, register, retire, own |
| McpManager.ListIsKept | backend/src/action/mcp_conn.c:639-666 | a tool list once known is kept whatever the server would answer later, until its process is started anew |
| McpManager.ListIsOfOneSync | backend/src/action/mcp_conn.c:602-666 | a list known was answered to one sync over a usable connection, with no restart since |
| McpManager.UsableExactly | backend/src/action/mcp_conn.c:602-637 | when a connection can be used: a child that is gone must start and shake hands again, otherwise one handshake is enough |
| McpManager.ListedIs | backend/src/action/mcp_conn.c:639-666 | a sync goes through the list known, or else the one answered |
| McpManager.PlanHas | backend/src/action/mcp_conn.c:833-856 | the plan has exactly the tools with a name and a struct, under their full names |
| McpManager.SyncedToolsAreThere | backend/src/action/mcp_conn.c:857-925 | after a sync with memory every tool planned is registered and owned |
| McpManager.Manager.SyncServer | backend/src/action/mcp_conn.c:821-928 | one server: handshake, cached list, and the planned tools in order |
| McpManager.Manager.SyncTools | backend/src/action/mcp_conn.c:930-957 | all servers in turn, those reached in the budget and no others |
| McpManager.SessAfterIs | backend/src/action/mcp_conn.c:942-953 | which sessions a boot sync touches |
| McpManager.SyncKeepsBudget | backend/src/action/mcp_conn.c:930-957 | servers that keep their timeout keep the whole budget; after one is skipped all are |
| McpManager.TimeoutIs | backend/src/action/mcp_conn.c:942-949 | a server is tried for what is left of eight seconds, at most four |
| McpManager.EveryRunIsOk | backend/src/action/mcp_conn.c:118-257 | through any run of syncs, removals and other registrations no freed struct is registered and owned tools are mapped and distinct |
| McpManager.RemoveClearsServer | backend/src/action/mcp_conn.c:233-252 | none of a server's synced structs survives its removal as owned, nor any owned one as registered |
| McpManager.PlanHasPrefix | backend/src/action/mcp_conn.c:851 | every synced tool carries the prefix that removal goes by |
| McpManager.RemovalReachesExactly | backend/src/action/mcp_conn.c:233-252 | removing one server can take a tool of another if and only if one of their prefixes extends the other |
| McpManager.RemovalSparesOthers | backend/src/action/mcp_conn.c:233-252 | through any run, an owned tool of another server is left untouched exactly when its name lacks the prefix; always when the prefixes are not comparable |
| McpManager.RelatedNames | backend/src/action/mcp_conn.c:799-807 | two pairs of names with comparable prefixes: one slug for both, and one prefix that goes on |
| StdioFraming.ProcBuffer.TakeResponse | backend/src/action/mcp_conn.c:364-394 | the scan consumes through the matched line, and nothing if there is none |
| StdioFraming.ProcBuffer.AwaitResponse | backend/src/action/mcp_conn.c:528-561 | the read loop polls after each chunk until the answer or the deadline |
| StdioFraming.TakesFirst | backend/src/action/mcp_conn.c:364-394 | the response is the first line with the id, and what is left is the text after it |
| StdioFraming.BeforeIsNoneOf | backend/src/action/mcp_conn.c:364-394 | no line before the response has the id |
| StdioFraming.TakeExtends | backend/src/action/mcp_conn.c:364-394 | a response found early is the one found when more has arrived, also when only part of its line, up to trailing blanks, had come |
| StdioFraming.AnswersAreIdeal | backend/src/action/mcp_conn.c:487-570 | answers depend on the stream and on which requests are answered, not on chunks or polls |
| StdioFraming.ChunksDoNotMatter | backend/src/action/mcp_conn.c:487-570 | two ways of cutting one stream give the same answers to the requests answered |
| StdioFraming.LatePollsAreDecided | backend/src/action/mcp_conn.c:487-570 | polls that come when the stream has arrived get all that it has for them |
| StdioFraming.ArrivalsFirst | backend/src/action/mcp_conn.c:487-570 | so a client that polls after the last arrival gets what the stream has for its requests, however it was cut |
| StdioFraming.CutsAgreeExactly | backend/src/action/mcp_conn.c:364-394 | for one id: wherever the stream is cut, an answer found in what has arrived is that of the whole if and only if, up to the answer, no part of a line is another message with the id |
| StdioFraming.HalfALineIsTaken | backend/src/action/mcp_conn.c:364-394 | a stream with two messages on a line, cut between them: half the line is taken, and a later answer is another |
| StdioFraming.AnswersMatch | backend/src/action/mcp_conn.c:376-378 | an answer to an earlier request is never returned for a later one |
| StdioFraming.AwaitPlays | backend/src/action/mcp_conn.c:528-561 | the read loop is a series of such polls |
| McpPeer.RepliesToRequests | backend/tools/mock_mcp_server.js:33-68 | who is answered, with which id, by what, and when with an error; the server ends after its shutdown tool |
| McpPeer.PeerProcess.OnData | backend/tools/mock_mcp_server.js:74-90 | the handler's loop over complete lines, and the exit on shutdown |
| McpPeer.FeedInTwo | backend/tools/mock_mcp_server.js:74-90 | two chunks are as good as one |
| McpPeer.ServerIgnoresChunks | backend/tools/mock_mcp_server.js:71-90 | the server's replies do not depend on how its input is cut |
| McpPeer.TakeOfWire | backend/src/action/mcp_conn.c:364-394 | on the server's stream the response taken is the first reply with the id |
| McpPeer.ServerAnswersInOrder | backend/tools/mock_mcp_server.js:57-90 | whatever the cutting, the server's output is the replies to the messages sent, in order |
| McpPeer.OneReplyARequest | backend/tools/mock_mcp_server.js:57-68 | one reply a request, in order |
| McpPeer.AnswersAreReplies | backend/src/action/mcp_conn.c:487-570 | each answer the client takes is one of the replies with that id |
| McpPeer.EveryAnswerIsTheReply | backend/src/action/mcp_conn.c:487-570 | end to end, requests with distinct ids cut anyhow, replies cut anyhow: each answer is what the server made of the one message with that id |
| SkillTable.RegisteredIsMap | backend/src/action/skill.c:71-130 | registering is an update of a map with distinct names |
| SkillTable.CopyIs | backend/src/action/skill.c:78-90 | what is accepted, and what is kept of it |
| SkillTable.LookupIs | backend/src/action/skill.c:132-144 | a lookup gives the one skill of the name |
| SkillTable.UnregisteredIsMap | backend/src/action/skill.c:452-470 | so is unregistering |
| SkillTable.OrderIsKept | backend/src/action/skill.c:126-127 | names keep the order in which they came |
| SkillTable.RemovalKeepsOrder | backend/src/action/skill.c:452-470 | removing a name leaves the others in order |
| SkillTable.PersistThenLoad | backend/src/action/skill.c:472-542 | writing and reading into an empty registry gives the same map in the same order |
| SkillTable.LoadOneIs | backend/src/action/skill.c:519-538 | which objects of the file become skills, and which are passed over |
| SkillTable.LoadKeepsSkills | backend/src/action/skill.c:519-538 | reading changes no skill that is there |
| SkillRegistry.Registry.RegisterEx | backend/src/action/skill.c:71-130 | the method; what was lent is untouched, and the same content makes no new version |
| SkillRegistry.Registry.Find | backend/src/action/skill.c:132-144 | the current version of a name |
| SkillRegistry.Registry.Get | backend/src/action/skill.c:157-165 | the current version at a place |
| SkillRegistry.Registry.Unregister | backend/src/action/skill.c:452-470 | the version stays for those who hold it |
| SkillRegistry.Registry.Persist | backend/src/action/skill.c:483-493 | the loop writes the map |
| SkillRegistry.Registry.RunAll | backend/src/action/skill.c:14-25 | through any run every version ever made stays on the list with its fields |
| Attention.InsertedIsRanked | backend/src/cognition/attention.c:97-105 | inserting past equal scores keeps the ranking, ties by lower index |
| Attention.SortedHas | backend/src/cognition/attention.c:96-106 | the sort is a permutation |
| Attention.SortedIsRanked | backend/src/cognition/attention.c:96-106 | and a stable ranking |
| Attention.InsertLast | backend/src/cognition/attention.c:98-104 | one round of shifting in place |
| Attention.SortResults | backend/src/cognition/attention.c:96-106 | the array afterwards is the sorted sequence |
| Attention.Select | backend/src/cognition/attention.c:108-130 | the selection is the first min(topk, n) of the ranking |
| Attention.SelectionIsBest | backend/src/cognition/attention.c:108-130 | distinct candidates in order, and every one left out ranks after every one returned |
| CLiterals.ChainIsMap | backend/tools/gen_attachment_extractor.py:9 | the chained replacements act on each character by itself |
| CLiterals.PiecesJoin | backend/tools/gen_attachment_extractor.py:8 | the lines with their ends make up the source |
| CLiterals.ReadsBack | backend/tools/gen_attachment_extractor.py:8-11 | what a compiler reads of adjacent literals is the pieces with their endings |
| CLiterals.EmittedIsNotSpliced | backend/tools/gen_attachment_extractor.py:10 | no line ends in a backslash |
| CLiterals.EmitAttachment | backend/tools/gen_attachment_extractor.py:6-12 | decoding gives the source back; there is a literal unless the source is empty |
| CLiterals.SplitJoins | backend/tools/gen_web_ui.py:22 | the split lines, each with a line feed, are the text and one more |
| CLiterals.UniversalTexts | backend/tools/gen_web_ui.py:16-20 | reading with universal newlines |
| CLiterals.EmitWebUi | backend/tools/gen_web_ui.py:14-24 | decoding gives the text, read with universal newlines, and one final line feed |
| FsCompare.FilesEqual | backend/src/os/fs_compare.c:5-18 | exactly when the slice loop says equal, different or unknown |
| FsCompare.EqualVerdictIsTrue | backend/src/os/fs_compare.c:5-18 | found equal, both files had the same first bytes from the first stamp to the last |
| FsCompare.EqualAtStampsExactly | backend/src/os/fs_compare.c:5-18 | found equal, the files at the first stamps were equal if and only if what lies past the size is |
| FsCompare.SameSizeMeansEqual | backend/src/os/fs_compare.c:5-18 | if size and stamp agree on how long each file is, found equal means equal |
| FsCompare.StillFilesAreCompared | backend/src/os/fs_compare.c:5-18 | files nobody touches from the size look to the last stamp are found equal exactly when they are |
| FsCompare.GrowthIsMissed | backend/src/os/fs_compare.c:6-10 | the size is read before the stamp, so growth in between is missed |

## Left out

- LaneProtocol: a critical section under the table's mutex is one step, because no other lock is taken inside it; trylock, task acquire and release, and stored replies are one step each, as their headers promise.
- LaneProtocol: `lane_task` bookkeeping, the body of a reasoning run and its progress binding are not modelled, because no lock depends on them; all four lanes are taken to exist.
- LaneProgress.EveryReachableStateDrains: that a run to rest exists is proved, not that every scheduler finds it, because the code's retry loops rely on the scheduler's fairness.
- LlmSwap.EveryRunUsesOneLiveLlm: asks that no swap begin while another is on its way to publish, because otherwise it fails, as `LlmSwapOverlap.OverlapHarmsExactly` says; the runs it speaks of are those under a lane's lock.
- LlmSwap: readers of the context's LLM that hold no lane lock (backend/src/runtime/orchestrator.c:37 and 357, backend/src/api/api_rest.c:3365, backend/src/runtime/flow.c:493, backend/src/memory/summary.c:123, backend/src/plugin_intelligence/generator.c:502) are outside the guarantee, because a single swap can destroy the LLM while they use it.
- LlmSwap: the router table, the stored configuration and the window sizes copied by `set_llm` are not modelled, because no lane's own LLM depends on them; nor is the routing-policy handler (backend/src/api/api_rest.c:2479-2482), which takes one lane's lock at a time, as `set_llm` does, and sets the lane's router only.
- Discussion: message contents, the 128-message window of the transcript and deleted sessions that come back are not modelled, because the takeover test looks at roles and ids only; a store read back at the start (backend/src/im/im.c:152-221) is taken to be as it was written, with growing ids.
- RoundRobin: prompts, channels and broadcast events are not modelled, because they do not steer the loops; the parsing of the tag and the wait for the room lock come before the modelled part.
- Progress: a JSON object is a map with one value a key, because the records are built by replacing members; numbers are reals.
- Progress.CountersAddUpExactly: speaks of every report the method accepts; the reports made in backend/src/cognition/reasoning.c always carry all counters, so there only late copies disturb the sum.
- CovRecorder: atomic steps interleave in one order, because the relaxed orderings of the code concern a single table whose slots are written once each; writing the file is not modelled.
- CovResolve: enumerating symbols, the percentages, the 32-bit row counters and the listing of uncovered functions are not modelled, because they add no logic; file names are taken to fit their buffers; a symbol's mark at enumeration is any value.
- CovResolve.FindSym: the sort is any sorted rearrangement, because that is all `qsort` promises.
- Skeleton, HwAudit: the four flags of the loops are one mode, because at most one of them is ever set.
- BlankPass: the head patterns of find_functions and the reading and writing of files are not modelled; the finder is any function whose bodies lie inside the text.
- Statements: declarations and hoisting (`parse_decl`, `transform_function`) are not modelled, because they rest on regular expressions.
- McpManager: HTTP, the spawning of processes, argument splitting, persisted connections and dispatched calls are not modelled, because they add plumbing; a child that dies between the handshake and the listing is not modelled.
- McpManager.RemovalSparesOthers: removal goes by the slug's prefix as the code does, so a server whose prefix is comparable may lose tools too.
- StdioFraming.ChunksDoNotMatter: asks that a part of a line that is a message with an id means what the line means, with only blanks after it, because otherwise the code may take half a line (`StdioFraming.HalfALineIsTaken`); and that the same requests are answered, because a deadline may pass before the answer has arrived (after the last arrival this follows, `StdioFraming.ArrivalsFirst`).
- McpPeer: request ids are integers and tool arguments are reduced to the tool's name, because replies depend on nothing else here; trimming and parsing a line are one step; the client's messages are taken to be written one a line and read back as written.
- SkillRegistry: teardown, local skill files, template binding and capability checks are not modelled, because they would add only easy members.
- Attention: scoring is a parameter, because embeddings and substring search do not affect the order; scores are reals, so not-a-number is excluded.
- CLiterals: UTF-8 encoding is not modelled, because it maps characters one by one; the lines before the first literal are constants.
- FsCompare: a size and the directory test are one look, because the code makes them together.
- The terminal client's polling preview, the desktop host, the installer and the benchmark tools are left out, because they are user interface or plumbing.
