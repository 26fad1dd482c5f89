# Verified model of the agent runtime

A Dafny model of the algorithms and protocols inside the agent runtime whose guarantees span
several functions or whole runs. `dafny verify dfyconfig.toml` checks all of it.

The runtime connects chat channels to language models that call tools. The model follows it from
the outside in:

* **Channels.** `Lease` is the cross-process lease that keeps one adapter per channel running, as
  a step machine over processes, renewers and SQL statements. `Outbound`, `Tables`, `FlatTables`
  and `Chunking` are the path of a reply to an adapter: joining and splitting at the marker,
  flattening of Markdown tables, size limits, escaping.
* **Turns.** `Conversation` and `SessionState` (in `Session.dfy`) are one session and its buffers.
  `ToolRound` is one batch of tool calls: gate, executor, and the two ways in which results are
  matched to calls; `Anchoring` says when persisted calls and persisted results belong together.
  `TurnSpec` is a whole turn as functions of what happens around it, `Turn` the loop that computes
  them, up to the cleanup on every exit (`Padding`). `TurnContents` proves which texts reach the model
  and the session and what becomes of everything users push; `TurnHistory`, `TurnAnswers` and
  `TurnPrompts` prove what a turn leaves in the session, which calls it leaves open, and what it asks
  the model with, in the terms of `Pairing`.
  `Steering` is the same session under arbitrary interleaving of users and turns. `Compaction`
  shortens histories, `Summary` distils them into topic rows.
* **Authorization.** `Paths` is lexical path cleaning as a walk over a stack of segments.
  `AuthGate` is the gate that judges calls; `Authorization` is the life of every judged call under
  approvals, refusals and mode switches.
* **Skills.** `SkillClusters` is the union-find behind the clusters of related skills, `Curator`
  the run that proposes merges, `TreeHash` and `BundledSkills` the upgrade of bundled skills.
* **Settings and limits.** `Config` and `NestedMaps` are nested settings, `RateLimit` the sliding
  window.

`Text`, `Sorting`, `Selection` and `Options` are what the other modules share; `Selection` says what
it means that a loop picks exactly some elements of a list, in order. Code that works in place is a
class with methods, or a method with loops, proved against a function; the theorems are about
these functions and about all runs of the machines.

## Findings

Where the code does something else than its comments or its design promise, the model follows the
code, a lemma shows the case, and another says exactly when it cannot happen.

* Pairing results by position (`internal/agent/loop.go:2418-2420`) gives a call the result of
  another one whenever a blocked or parked call stands before the last call looked at
  (`ToolRound.MismatchReachable`, `ToolRound.PositionalMatchingIsRightIff`). The streaming twin is
  not affected.
* A renewal that fails with an error keeps the adapter running past the TTL, although the lifecycle
  comment (`internal/channels/lease.go:58-60`) says that a database error cancels it; then another
  process can start its own (`Lease.TakeoverExactlyAfterTtl`, `Lease.SilentHolderIsOvertaken`).
* A turn can leave a persisted tool call without a result for good, against what the backstop
  (`internal/agent/loop.go:2387-2391`) and the cleanup are for. In the ask mode: a command is parked
  and a `load_skill` beside it runs. Matching by position gives the skill's result to the command's
  call, where it is ephemeral and not saved, and saves the command's holding result under the id of
  the skill call, which is not in the session (`TurnAnswers.ParkedCallLosesResult`). Once the model
  calls tools again, the cleanup no longer reaches the command's call
  (`TurnAnswers.ParkedTurnLeavesOpen`). `TurnAnswers.TurnAnswersAllIff` says exactly when a turn
  leaves nothing open.
* A turn can leave a history in which a tool message does not stand behind the message that
  carries its id. With named and distinct calls this happens in exactly two cases
  (`TurnHistory.TurnKeepsShapeIff`). The repetition guard breaks off a batch with a persisted call,
  and the padded results come behind the warning and the final text
  (`TurnHistory.PaddingAfterRepetitionIsDetached`). Or an ephemeral call, as of `load_skill`
  (`internal/agent/tools/load_skill.go:33`), is deferred, blocked, parked or displaced: the call is
  stripped from the session but its result is written there
  (`TurnHistory.IdleEphemeralOrphans`, `TurnHistory.DeferredEphemeralOrphaned`). The streaming
  twin has this second case too, for stopped calls (`Anchoring.MatchedByIdIff`).
* A call without an id is padded when its turn ends, answered or not, behind the final text
  (`Padding.UnnamedCallDetaches`), and again at every later turn end for as long as no other message
  with calls has followed (`Padding.PaddingIsIdentityIff`).
* The cleanup looks only at the latest message with calls. When two turns of one session overlap,
  which the session counts with (`internal/session/manager.go:52-55`), the calls of the earlier
  one can stay open (`Padding.OverlappingTurnsLeaveOpen`, `Padding.PaddingAnswersAllIff`).
* Overlapping turns of one session can fold steering messages out of order: exactly from the
  states in which one can drain while another can drain or still folds, or in which what is folded
  and held is out of line already, as when two turns have ended and both still hold leftovers
  (`Steering.ReorderIff`, `Steering.LeftoversReorder`). The regex-hook branch drops what was pushed
  meanwhile, and nothing else does (`Steering.LossIff`, `Steering.NoHooksNothingLost`).
* A table cell that ends in a backslash and is not the last one swallows the pipe behind it
  (`Tables.RowRoundTripIff`).
* The comment on summaries (`internal/agent/summary_extract.go:347-349`) lists failures of the
  model, of parsing and of the delete, after which nothing is written and the mark stays. Failed
  inserts are not in it: when the old rows are deleted and the inserts fail, the mark moves all the
  same (`Summary.FailedInsertsLoseTopics`). A delete that takes effect and still reports an error
  leaves the mark over rows that are gone (`Summary.UnsureDeleteLosesTopics`). Either way later runs
  cover new messages only. Topics with the same first and last message replace one another
  (`Summary.TopicStoredIff`).
* A bundle with a hidden file is never up to date (`BundledSkills.UpToDateIsBundle`), hidden files
  of the user are dropped by an upgrade (`BundledSkills.HiddenEditIsLost`), and an upgrade whose
  copy breaks off behind the skill file and before its last file is taken for a user edit ever after
  (`BundledSkills.BrokenUpgradeNext`, `BundledSkills.NeverUpgradedAgain`).
* Skill names with a bar can give different clusters, even disjoint ones, the same key
  (`Curator.KeyIffSamePieces`, `Curator.JoinedNameCollides`, `Curator.BarCollides`).
* A namespace set to the empty object reads as missing; when its row cannot be looked up the write
  reports success and changes nothing (`Config.ReadAfterWrite`).

## Model

| member | source | states |
|---|---|---|
| `SkillClusters.UnionFind.constructor` | internal/agent/skill_clusters.go:40-42 | An empty forest with no names. |
| `SkillClusters.UnionFind.Find` | internal/agent/skill_clusters.go:44-54 | Registers an unseen name as its own class and returns the representative of its class; path halving terminates, keeps the forest valid and leaves every other representative as it was. |
| `SkillClusters.UnionFind.Union` | internal/agent/skill_clusters.go:56-61 | The classes of the two names become one and no other class changes. |
| `SkillClusters.UnionFind.Link` | internal/agent/skill_clusters.go:58-60 | Hanging one root under another merges exactly those two classes and keeps the forest valid. |
| `SkillClusters.HalvingKeepsForest` | internal/agent/skill_clusters.go:49-52 | Pointing a node at its grandparent keeps every parent chain climbing in rank to the same root. |
| `SkillClusters.LinkingKeepsForest` | internal/agent/skill_clusters.go:58-60 | Linking two roots gives a forest again, for the merged classes and a larger height. |
| `SkillClusters.UniteKeepsClasses` | internal/agent/skill_clusters.go:14-17 | If two names share a class exactly when the edges seen so far join them, this still holds after one more edge and its union. |
| `SkillClusters.ClassesAreComponents` | internal/agent/skill_clusters.go:15-22 | Two different names have the same representative exactly when a path of related pairs joins them. |
| `SkillClusters.BuildClusters` | internal/agent/skill_clusters.go:13-33 | Returns the canonical clustering: exactly the connected components with two or more members, members sorted, clusters sorted by first member. |
| `SkillClusters.ListClusters` | internal/agent/skill_clusters.go:23-32 | From the groups by representative, in whatever order the map is visited, to that canonical list. |
| `SkillClusters.ShareClusterIffConnected` | internal/agent/skill_clusters.go:9-13 | Two different skills are in one cluster if and only if a path of related pairs joins them. |
| `SkillClusters.ClusteringUnique` | internal/agent/skill_clusters.go:9-33 | The list depends on which skills are adjacent and on nothing else: not on edge order, direction, repetition or map iteration. |
| `SkillClusters.ClustersDisjoint` | internal/agent/skill_clusters.go:18-32 | No skill is a member of two clusters. |
| `Curator.Curator.Run` | internal/agent/skill_evolution.go:241-294 | One run refines the run step: it judges candidates, clusters the related pairs and appends its proposals to the pending ones, with every early return on a store error. |
| `Curator.Curator.JudgeCandidates` | internal/agent/skill_evolution.go:252-262 | Verdicts are added pair by pair; judged pairs are skipped unless the lookup itself fails, and failed judgements leave no verdict. |
| `Curator.Propose` | internal/agent/skill_evolution.go:280-293 | The clusters that get a proposal: key not pending and synthesis not failing. |
| `Curator.ProposedIff` | internal/agent/skill_evolution.go:276-293 | A source list is pending after a run exactly when it was before, or is a cluster whose synthesis goes through and whose key was not pending. |
| `Curator.NoDuplicateProposals` | internal/agent/skill_evolution.go:263-294 | Over any sequence of runs and user decisions, with any judge answers and any failures, no two pending proposals have the same source set. Rests on clusters being disjoint. |
| `Curator.RunKeepsInv` | internal/agent/skill_evolution.go:276-293 | One run keeps the pending source sets pairwise different, although the set of pending keys is not updated inside its loop. |
| `Curator.ClustersDiffer` | internal/agent/skill_evolution.go:269-281 | Two clusters of one run never have the same members. |
| `Curator.SecondRunCreatesNothing` | internal/agent/skill_evolution.go:239-294 | After a run in which no synthesis fails, a run over the same related pairs, listed in any order, creates nothing. |
| `Curator.VerdictsStick` | internal/agent/skill_evolution.go:253-262 | Unless a lookup fails, a judged pair keeps its verdict. |
| `Curator.JudgedAsRecorded` | internal/agent/skill_evolution.go:252-262 | After the candidates a pair has the verdict of the last judgement that was recorded: the pair had none yet, or looking it up failed. |
| `Curator.JudgedAsBefore` | internal/agent/skill_evolution.go:252-262 | Without such a judgement it has the verdict it had, if any. |
| `Curator.NormIsOne` | internal/store/database.go:3680-3687 | The two ways to name a pair are stored as one, the lesser name first. |
| `Curator.KeysIff` | internal/agent/skill_evolution.go:276-279 | The keys a run skips are exactly those of the pending proposals. |
| `Curator.CreatedInOrder` | internal/agent/skill_evolution.go:280-293 | Proposals are made in the order of the clusters. |
| `Curator.KeyIffSameSet` | internal/agent/skill_evolution.go:296-302 | For names without a bar, two member lists have the same key if and only if they have the same members. |
| `Curator.KeyIffSamePieces` | internal/agent/skill_evolution.go:296-302 | For any names, two member lists have the same key if and only if their names give the same pieces between bars. |
| `Curator.JoinedNameCollides` | internal/agent/skill_evolution.go:301 | Any cluster of three has the key of its first member and a skill named after the other two with a bar. |
| `Curator.BarCollides` | internal/agent/skill_evolution.go:301 | With a bar in a name, two disjoint clusters have the same key, so one of them can be skipped for the other. |
| `Lease.StepKeepsInv` | internal/channels/lease.go:67-184 | Every atomic step of any process, renewer or SQL statement keeps the protocol invariant. |
| `Lease.StepKeepsPeerCover` | internal/store/database.go:4069-4150 | No statement of one process takes the row from another whose last success is not older than the TTL. |
| `Lease.RowChangesHands` | internal/store/database.go:4069-4150 | The row changes hands only when it has expired by the clock reading of the process that takes it over; its holder only extends it or gives it up. |
| `Lease.ReleaseFreesOwnRow` | internal/store/database.go:4069-4150 | A release frees the row of its own process for everybody at once, and leaves that of another one alone. |
| `Lease.OneAdapterPerProcess` | internal/channels/lease.go:67-150 | In every reachable state a process runs at most one adapter, across all its lease periods. |
| `Lease.ReleaseAfterAdapterStopped` | internal/channels/lease.go:106-147 | Release is called only when the adapter of the period has returned. |
| `Lease.StartAfterPreviousPeriod` | internal/channels/lease.go:67-112 | A new adapter starts only when no adapter and no renewer of an earlier period is left. |
| `Lease.OverlapNeedsStaleHolder` | internal/channels/lease.go:9-24 | If two processes run adapters at once, one of them has gone longer than the TTL without a successful Acquire or Renew. |
| `Lease.SingletonWhileRenewing` | internal/channels/lease.go:9-24 | While every running process has renewed within the TTL, at most one adapter runs anywhere. |
| `Lease.TakeoverExactlyAfterTtl` | internal/channels/lease.go:155-184 | After a renewal that fails with an error the adapter keeps running, and another process can start its own exactly when the TTL has run out: two adapters are reachable. |
| `Lease.SilentHolderIsOvertaken` | internal/channels/lease.go:67-184 | From every reachable state in which a process runs its adapter: if it makes no further step, any other process that is not shut down can come to run its own beside it. |
| `SessionState.Session.BeginTurn` | internal/session/manager.go:633-641 | One more turn is in flight. |
| `SessionState.Session.EndTurn` | internal/session/manager.go:643-660 | Only the last turn to end takes what is still buffered; the depth never drops below zero. |
| `SessionState.Session.PushSteerIfActive` | internal/session/manager.go:662-672 | A message is buffered, behind the others, exactly when a turn is in flight. |
| `SessionState.Session.DrainSteer` | internal/session/manager.go:674-684 | Takes the whole buffer, in order, and leaves it empty. |
| `SessionState.Session.Append` | internal/session/manager.go:579-602 | The history grows by one message at its end. |
| `SessionState.Session.ReplaceMessages` | internal/session/manager.go:701-715 | The history is the new list. |
| `SessionState.Session.PushPendingCalls` | internal/session/manager.go:180-188 | Calls are parked behind those that wait already. |
| `SessionState.Session.PopPendingCalls` | internal/session/manager.go:190-198 | Takes all parked calls. |
| `SessionState.Session.SetApprovedPending` | internal/session/manager.go:155-160 | The approved calls are the new list; an earlier one is forgotten. |
| `SessionState.Session.DrainApprovedPending` | internal/session/manager.go:162-170 | Takes all approved calls. |
| `ToolRound.ExecuteToolsConcurrently` | internal/agent/sdkbridge.go:135-228 | One result per call, at the call's place, taken from the last response with its id; a missing response becomes a failure result. |
| `ToolRound.OrderOfResponsesIsIrrelevant` | internal/agent/sdkbridge.go:168-222 | The result of a call depends on which response carries its id, not on the order of the responses. |
| `ToolRound.ExecutedTexts` | internal/agent/sdkbridge.go:171-222 | What the model reads for an executed call, from the last response with its id: the non-empty parts with a newline between each two; for an error its text, or else the first part, with the hint behind it, and it counts as failed; without a response, that there was none, as a failure. |
| `ToolRound.FilterAuthorizedCalls` | internal/agent/loop.go:3678-3726 | Allowed calls in order; exactly one synthetic result for each stopped id; exactly the prompted calls are parked, behind those parked before. |
| `ToolRound.SplitSelects` | internal/agent/loop.go:3689-3724 | The allowed, the stopped and the prompted calls are exactly those with such a verdict, each list in call order. |
| `ToolRound.PadById` | internal/agent/loop.go:2392-2411 | After realignment there is one result per call, with the call's id: the one found under that id, or the failure that none was returned when there is none. |
| `ToolRound.ApplyCap` | internal/agent/loop.go:2336-2385 | The cap splits the batch into the calls looked at and one deferred result for each of the rest, in order. |
| `ToolRound.PositionalMatchingIsRightIff` | internal/agent/loop.go:2418-2420 | Pairing results by position gives each call its own result under every map order if and only if no call but the last one looked at is blocked or parked. |
| `ToolRound.MismatchReachable` | internal/agent/loop.go:2369-2420 | For a stopped call before the last one looked at, some map order hands its id the result of another call. |
| `ToolRound.AllButLastAllowedIsIntended` | internal/agent/loop.go:2369-2420 | Otherwise every call gets its executed, synthetic or deferred result. |
| `ToolRound.PersistedCallsAnsweredIff` | internal/agent/loop.go:2418-2484 | Every persisted call gets a persisted result under every map order if and only if no ephemeral result can land on a persisted call. |
| `ToolRound.StreamRoundResults` | internal/agent/loop.go:3184-3217 | The streaming twin pairs by id: every call gets the result with its id, and with distinct ids its intended one, blocked or not. |
| `ToolRound.RoundResults` | internal/agent/loop.go:2336-2411 | Whatever gate, cap and executor do, there is one result per call: assembled by position, or, when stopped calls share an id, realigned by id, each then being the result intended for a call with that id. |
| `Anchoring.PersistedInPlaceIff` | internal/agent/loop.go:2336-2484 | No persisted result lands on an ephemeral call if and only if no ephemeral result lands on a persisted call and every ephemeral call is looked at and allowed. |
| `Anchoring.RoundMatchesIff` | internal/agent/loop.go:2265-2484 | Under every map order persisted calls and persisted results belong together, both ways, if and only if every ephemeral call is executed and none is displaced. |
| `Anchoring.MatchedByIdIff` | internal/agent/loop.go:3184-3217 | The streaming twin covers every persisted call, and orphans a result exactly when an ephemeral call is stopped. |
| `Padding.PadOrphanToolResults` | internal/agent/loop.go:2626-2659 | The history is padded with one failure result for each unanswered call of the latest assistant message with calls. |
| `Padding.PaddingAdds` | internal/agent/loop.go:2626-2659 | What padding adds behind the history: for each call of the latest message with calls that no later tool message answers, in order, that it was stopped, under its id and name. |
| `Padding.PaddingAnswersAll` | internal/agent/loop.go:2616-2659 | If all messages but the latest with calls were answered, after padding every tool call has a later result. |
| `Padding.PaddingAnswersAllIff` | internal/agent/loop.go:2616-2659 | With distinct ids it is an equivalence: padding answers everything exactly when earlier rounds were complete. |
| `Padding.OverlappingTurnsLeaveOpen` | internal/session/manager.go:52-55 | Two turns of one session that both recorded calls and then end: both pad the later message and the earlier one stays open. |
| `Padding.PaddingIsIdentityIff` | internal/agent/loop.go:2626-2659 | Padding changes nothing exactly when nothing is missing. |
| `Padding.PaddedShapeIff` | internal/agent/loop.go:2626-2659 | After padding every tool message is in a run right behind the message with its id if and only if it was before and nothing had to be padded behind something else. |
| `Padding.UnnamedCallDetaches` | internal/agent/loop.go:2641-2647 | A call without an id counts as unanswered when its turn ends and is answered again behind the final text. |
| `Turn.Model.Chat` | internal/agent/loop.go:2193 | Every model call is logged with the messages it is made with and whether it may use tools. |
| `Turn.DetectLoop` | internal/agent/loop.go:2283-2310 | A batch is cut off exactly when somewhere in it three calls in a row, counted over the whole turn, have the same name and arguments. |
| `Turn.ProcessResults` | internal/agent/loop.go:2413-2495 | The live list grows by exactly one tool message per result, in order: under the id of the call at its position, with the tool name and the text of the result. The session grows by exactly those that are not ephemeral, in order. And whether all results failed. |
| `Turn.DrainApproved` | internal/agent/loop.go:3771-3819 | Approved calls become one round, appended alike to the live list and the session: under fresh ids with their names and arguments, each followed by the text of its own result; and the approved list is empty. |
| `Turn.BeginRound` | internal/agent/loop.go:2257-2281 | The live list gets the full batch, the session the batch without its ephemeral calls. |
| `Turn.FinishRound` | internal/agent/loop.go:2336-2495 | A recorded batch ends with possible results, folded into both lists, and with exactly its prompted calls parked. |
| `Turn.FoldSteer` | internal/agent/loop.go:1806-1822 | Steering messages go to the session and the live list alike, in order. |
| `Turn.AnswerInText` | internal/agent/loop.go:2208-2238 | The answer is recorded, what users pushed is folded behind it, and the loop goes on exactly if there was any; an empty answer is not carried on. |
| `Turn.ToolIteration` | internal/agent/loop.go:2257-2512 | An iteration with tools writes its piece of the session and of the live list, or is broken off exactly by the repetition guard. |
| `Turn.Iterate` | internal/agent/loop.go:2129-2513 | One iteration of any kind: what it writes, asks, parks and leaves in the buffer, and whether the loop is over. |
| `Turn.Rounds` | internal/agent/loop.go:2128-2552 | The loop and its closing call: the session, the log of model calls, the parked calls and the buffer at its end are those of the specification. |
| `Turn.Close` | internal/agent/loop.go:2515-2543 | One more model call with the nudge; its text, or the canned line when there is none, ends the history. |
| `Turn.FlushLeftoverSteer` | internal/agent/loop.go:1824-1834 | What is left in the steering buffer is appended to the history by the last turn that ends, and only by it. |
| `Turn.HandleMessage` | internal/agent/loop.go:1836-2552 | A whole turn is a function of what it found and of what happened around it: the history, the log of every model call, the parked and approved calls, the buffer. Everything pushed during it stands in the history or the buffer behind it, in order. With calls named afresh, every tool call in the session has a later result if and only if no round before another message with calls displaces a persisted call. |
| `TurnContents.RoundReachesModel` | internal/agent/loop.go:2193-2512 | Every later model call of a turn shows a round behind the list it was asked with: the reply with its calls, for every call the text of the result at its position, and what users pushed meanwhile. |
| `TurnContents.RoundReachesClosing` | internal/agent/loop.go:2515-2530 | So does the closing call, with the nudge at its end and without tools. |
| `TurnContents.RoundIsKept` | internal/agent/loop.go:2257-2512 | The session keeps it at its place: the reply with exactly its persisted calls, the text of exactly the results that are not ephemeral, and what users pushed, in order. |
| `TurnContents.FinalReadsBody` | internal/agent/loop.go:2128-2552 | What an iteration of any kind writes stands at its place in the history that the turn leaves, behind what was there and what the earlier ones wrote. |
| `TurnContents.RunsHaveOneEach` | internal/agent/loop.go:2388-2411 | In every run of the loop a round with tool calls has one result per call, and only the last iteration can be without a model call. |
| `TurnContents.SpokeSays` | internal/agent/loop.go:2208-2238 | An answer in text is saved with its text and what users pushed behind it; the model is shown both again, but an empty text not. |
| `TurnContents.LoopedSays` | internal/agent/loop.go:2257-2310 | A batch that the repetition guard breaks off is recorded, without its ephemeral calls in the session, and the warning behind it. |
| `TurnContents.GuardStrikesIff` | internal/agent/loop.go:2283-2310 | The repetition guard strikes exactly when, in the calls of all rounds of the turn in a row, three neighbours have the same name and arguments and the third of them is in this batch. |
| `TurnContents.InboundReachesModel` | internal/agent/loop.go:2055-2127 | Every model call of a turn reads, behind the hints, what compaction leaves of the history with the user's message at its end, and then the approved calls as a round with their results. |
| `TurnContents.SessionBegins` | internal/agent/loop.go:2055-2127 | So does the history that the turn leaves, without the hints. |
| `TurnContents.SyntheticAre` | internal/agent/loop.go:2144-2152 | Each injected call is written as two messages: the call, and its result under the same id. |
| `TurnContents.ForcedIff` | internal/agent/loop.go:2515-2552 | The model is asked for a closing text exactly when the loop was not left by an answer, a failed call or a hook. |
| `TurnContents.ClosingSays` | internal/agent/loop.go:2526-2552 | Then the turn ends with a text that is not empty: the model's, or the canned line. |
| `TurnContents.PushedIsKept` | internal/agent/loop.go:1806-1834 | Whatever users push during a turn, up to its very end, is neither lost nor overtaken: it stands in the history the turn leaves and then in the buffer, in the order in which it was pushed. |
| `TurnPrompts.ModelCallsPairedIff` | internal/agent/loop.go:2128-2552 | Every list the model is asked with has grown from the one the turn was given by stretches in which every call is answered at once; the closing call is the one exception, exactly after the repetition guard. |
| `TurnPrompts.ToolsWithdrawnIff` | internal/agent/loop.go:2107-2191 | A model call may not use tools exactly when the last three rounds with tool calls before it failed altogether. |
| `TurnPrompts.AskedListsAreValid` | internal/agent/loop.go:2616-2624 | From a history in shape such a list answers every call, and each tool message is in a run right behind the message with its id. |
| `TurnHistory.KeptRoundAnswered` | internal/agent/loop.go:2265-2281 | A persisted assistant message with its kept answers answers all its persisted calls. |
| `TurnHistory.KeptRoundRunsIff` | internal/agent/loop.go:2265-2484 | Its tool messages follow their calls if and only if every persisted result has a persisted call. |
| `TurnHistory.CutShortAnywhereAnswersAll` | internal/agent/loop.go:2616-2659 | Wherever behind the compaction the turn dies, in the drain of approved calls or in the loop: after padding every tool call of the session has a later result, if persisted calls got persisted results wherever another message with calls follows. |
| `TurnHistory.TurnAnswersAll` | internal/agent/loop.go:1836-2552 | The same for the history a whole turn leaves, with what users pushed too late behind it. |
| `TurnAnswers.CoversIff` | internal/agent/loop.go:2418-2484 | Whether the persisted calls of a round get persisted results does not depend on the map order: they do exactly when no ephemeral result lands on a persisted call. |
| `TurnAnswers.TurnAnswersAllIff` | internal/agent/loop.go:1836-2552 | From an answered history, with calls named afresh: after a whole turn every tool call of the session has a later result if and only if no round that another message with calls follows lets an ephemeral result land on a persisted call. |
| `TurnAnswers.DisplacedStaysOpen` | internal/agent/loop.go:2388-2484 | Any batch in which that happens leaves a call open for good, under every map order, once another message with calls has followed. |
| `TurnAnswers.ParkedCallLosesResult` | internal/agent/loop.go:2362-2484 | A parked or blocked call beside an ephemeral one that runs: its position gets the ephemeral result, which is not saved, and its own is saved under the other id. |
| `TurnAnswers.ParkedCallStaysOpen` | internal/agent/loop.go:2362-2484 | In the ask mode the parked call then stays without a result, in any history. |
| `TurnAnswers.ParkedTurnLeavesOpen` | internal/agent/loop.go:1836-2552 | The same for a whole turn in which the model calls tools once more. |
| `TurnHistory.PairableCovers` | internal/agent/loop.go:2265-2484 | For repeated ids too: persisted calls get persisted results when batches have no ephemeral calls, or distinct ids and no ephemeral result displaced. |
| `TurnHistory.TurnShapeIff` | internal/agent/loop.go:1836-2552 | From a history with its tool messages behind their calls, a turn ends with one if and only if every persisted result has its persisted call and nothing is padded behind something else. |
| `TurnHistory.TurnKeepsShapeIff` | internal/agent/loop.go:1836-2552 | For named and distinct calls: if and only if the repetition guard broke off no persisted call and every batch executed all its ephemeral calls, clear of the persisted ones. |
| `TurnHistory.TurnKeepsInShape` | internal/agent/loop.go:1836-2552 | Under that condition answered, named and in-shape histories are an invariant of turns. |
| `TurnHistory.PaddingAfterRepetitionIsDetached` | internal/agent/loop.go:2296-2310 | After the repetition guard the padding does not directly follow its calls. |
| `TurnHistory.IdleEphemeralOrphans` | internal/agent/loop.go:2265-2484 | Any batch with an ephemeral call that is deferred, blocked or parked leaves a tool message behind no call of the session. |
| `TurnHistory.DeferredEphemeralOrphaned` | internal/agent/loop.go:2336-2385 | A persisted call, an ephemeral one and a cap of one: everything is answered, and the deferred result is orphaned. |
| `Steering.StepKeepsInv` | internal/agent/loop.go:1806-1834 | Every critical section of users and turns conserves the accepted messages: each is in exactly one place. |
| `Steering.ExactlyOnce` | internal/agent/loop.go:2012-2019 | Under any interleaving, once no turn is in flight every accepted message is in the history exactly once, or was dropped by the regex-hook branch. |
| `Steering.CalmRunsInOrder` | internal/agent/loop.go:2506-2511 | As long as no turn can drain while another can drain or has messages left to fold, the history is in acceptance order, hooks or not. |
| `Steering.SteeringInOrder` | internal/agent/loop.go:2216-2231 | Without such a state and without the regex-hook branch, when all turns have ended the history holds all accepted messages in acceptance order. |
| `Steering.SequentialIsCalm` | internal/agent/loop.go:2216-2231 | One turn at a time never comes into such a state. |
| `Steering.AtRiskReorders` | internal/session/manager.go:52-55 | From every reachable state in which one turn can drain and another can drain or still folds, some continuation without new turns ends out of acceptance order. |
| `Steering.ReorderIff` | internal/session/manager.go:52-55 | From any reachable state, the open turns can end out of order if and only if it is such a state, or what is folded and held is out of line already. |
| `Steering.LeftoversReorder` | internal/agent/loop.go:1824-1834 | Two turns that have ended and still hold what each took at its end: nobody can drain, and they can fold in the wrong order. |
| `Steering.NoHooksNothingLost` | internal/agent/loop.go:1824-1834 | Without the regex-hook branch no accepted message is lost, under any interleaving. |
| `Steering.LossIff` | internal/agent/loop.go:1846-1862 | From a reachable state without losses, the open turns can lose an accepted message if and only if one of them is in the regex-hook branch. |
| `Steering.OverlappingTurnsReorder` | internal/agent/loop.go:2506-2511 | Two overlapping turns of one session can fold messages in the wrong order. |
| `Steering.RegexHookDropsPushes` | internal/agent/loop.go:1846-1862 | A message pushed during the regex-hook branch is accepted and then lost. |
| `Paths.CleanKeepsStack` | internal/agent/authgate.go:240-264 | Cleaning an absolute path keeps the directory that its walk ends in, and prints it without detours. |
| `Paths.CleanEqualIff` | internal/agent/authgate.go:257-264 | Two absolute paths clean to the same text if and only if they name the same directory. |
| `Paths.JoinKeepsStack` | internal/agent/authgate.go:240-255 | Joining goes on walking from where the base ends. |
| `Paths.IsUnderIff` | internal/agent/authgate.go:257-264 | The textual prefix test is containment of directories, except that "/" contains only itself. |
| `Paths.IsUnderIsPartialOrder` | internal/agent/authgate.go:257-264 | isUnder is reflexive, transitive, and antisymmetric up to cleaning. |
| `Paths.PolicyPrefixStaysInside` | internal/agent/authgate.go:58-75 | Whatever an allowlist entry holds, its prefix is the agent root followed by where the entry leads from "/"; it passes the containment test unless the root is "/" and the entry leads elsewhere. |
| `Paths.StackOfNext` | internal/agent/authgate.go:240-264 | What directories are, segment by segment: a name leads into one, ".." out of it, "." and an empty segment stay, and at the root ".." stays too. |
| `Paths.ResolvesToDestination` | internal/agent/authgate.go:240-255 | resolveAgainst ends where the walk of the argument (from the base, from "/" or from home) ends. |
| `Paths.DestinationIs` | internal/agent/authgate.go:240-255 | In terms of texts: a path behind a tilde goes on from the home directory, an absolute one stands for itself, any other goes on from the base. |
| `AuthGate.Gate.Reload` | internal/agent/authgate.go:58-75 | Every loaded prefix is absolute and under the agent root; with a root other than "/" there is one for each entry, in order. |
| `AuthGate.Gate.SetSandboxed` | internal/agent/authgate.go:42-46 | The gate remembers whether a sandbox is wired. |
| `AuthGate.Gate.EvaluateCall` | internal/agent/authgate.go:121-177 | The verdict on a call is the policy function of the gate's current fields, the call and the mode; a command that is not hardline is allowed exactly in yolo mode or a sandbox, and blocked exactly in auto mode without one. |
| `AuthGate.Gate.EvaluateWrite` | internal/agent/authgate.go:151-173 | The verdict on a file write, likewise. |
| `AuthGate.Gate.Allowlisted` | internal/agent/authgate.go:161-168 | Tells whether the path is under some allowlisted prefix. |
| `AuthGate.HardlineFloor` | internal/agent/authgate.go:126-137 | A hardline command is blocked in every mode, sandboxed or not; it is the only thing yolo mode or a sandbox stops; auto never prompts; outside auto nothing else is blocked. |
| `AuthGate.VerdictIff` | internal/agent/authgate.go:121-190 | The whole verdict, for every policy, call and mode: hardline commands are blocked; everything else is allowed if it needs no authorization (a command in a sandbox; a write in a sandbox, without a path, or to where the walk of its path ends inside the workspace or an allowlisted directory; any other tool) or the mode is yolo; else it is blocked in auto mode and prompted for in any other. |
| `AuthGate.ModesAreOrdered` | internal/agent/authgate.go:179-190 | What auto allows every mode allows, and what any mode allows yolo allows. |
| `AuthGate.AutoWriteAllowedIff` | internal/agent/authgate.go:150-173 | Outside a sandbox, auto mode allows a file write with a path if and only if the walk of the path ends inside the workspace or an allowlisted directory. |
| `Authorization.StepKeepsInv` | internal/agent/loop.go:3678-3726 | Batches, /yes, /no, mode switches, drains and sandbox flips keep the life cycle of tickets: apart, once each, never a hardline one. |
| `Authorization.HardlineNeverExecutes` | internal/agent/loop.go:3690-3704 | Over every run of events a hardline command is never executed. |
| `Authorization.ExecutionIsJustified` | internal/agent/slash.go:625-679 | Every executed call was allowed under the policy and mode in force at the event that executed it, or had been parked by an earlier event, at which the gate prompted, and released by /yes or a mode switch in between. |
| `Authorization.ExecutedAtMostOnce` | internal/agent/loop.go:3771-3788 | No call is executed twice. |
| `Authorization.RefusedNeverExecutes` | internal/agent/slash.go:625-647 | What /no or a mode switch has turned down is executed by nothing that follows. |
| `Authorization.DeniedNeverExecutes` | internal/agent/slash.go:614-647 | A call that is parked when the user says /no is executed by nothing that follows, in any run. |
| `Authorization.SwitchedAwayNeverExecutes` | internal/agent/slash.go:649-670 | Nor is a parked call that the gate does not allow under the mode switched to. |
| `Authorization.YesRunsAllParked` | internal/agent/slash.go:614-643 | /yes and the drain after it run every parked call, in order, and nothing else; with nothing parked, what was approved before. |
| `Authorization.SwitchRunsAllowed` | internal/agent/slash.go:649-679 | A mode switch and the drain after it run exactly the parked calls that the gate allows under the new mode, in order; when there are none, what was approved before. |
| `Authorization.LastSettingHolds` | internal/agent/slash.go:656 | The mode in force is that of the last switch and the policy that of the last change, whatever else happened since. |
| `Authorization.ReleaseKeepsInv` | internal/agent/slash.go:649-679 | Releasing any part of the parked calls and turning down the rest keeps the invariant. |
| `Authorization.SlashAuthReply` | internal/agent/slash.go:625-647 | After /yes or /no nothing is parked; /yes approves exactly what was parked, in order, and lets the loop go on if there was any; /no, or /yes with nothing parked, leaves the approved calls as they were. So do the machine's events. |
| `Authorization.SlashSetAuthMode` | internal/agent/slash.go:649-679 | After a mode switch nothing is parked; of the parked calls exactly those that the gate allows under the new mode are approved, in order, and the loop goes on; when there are none the approved calls stay. So does the machine's event. |
| `Authorization.TakeApproved` | internal/agent/loop.go:3771-3775 | Draining hands out exactly the approved calls, in order, leaves none approved and does not touch the parked ones; so does the machine's drain. |
| `Authorization.BatchMatchesRound` | internal/agent/loop.go:3678-3726 | A batch executes exactly the allowed calls and parks exactly the prompted ones, in order, as the tool round does. |
| `Authorization.GateBatch` | internal/agent/loop.go:3678-3726 | The gate over a batch on the session refines the machine's batch event. |
| `Compaction.EstimateTokens` | internal/agent/compaction.go:24-34 | The loop computes the token estimate of the whole list. |
| `Compaction.TokensAdd` | internal/agent/compaction.go:24-34 | The estimate adds up over messages and calls: a message weighs a quarter of its content, and each call a quarter of its arguments and a quarter of its name. |
| `Compaction.PruneOldToolResults` | internal/agent/compaction.go:124-145 | In the result exactly the tool messages before the last PruneTurnAge messages whose content is longer than 200 have the placeholder for content, with their id and name; every other message is as it was. |
| `Compaction.PruningKeepsSkeleton` | internal/agent/compaction.go:124-145 | Pruning keeps length, order, roles, ids, names and calls; only the content of old tool results changes. |
| `Compaction.PruningIsIdempotent` | internal/agent/compaction.go:124-145 | Pruning twice is pruning once. |
| `Compaction.PruningNeverRaisesTokens` | internal/agent/compaction.go:124-145 | Pruning never raises the token estimate. |
| `Compaction.SafeCompactionCutoff` | internal/agent/compaction.go:113-121 | The loop moves the cutoff to the first message that is no tool message. |
| `Compaction.CutoffSkipsOnlyTools` | internal/agent/compaction.go:113-121 | Everything the cutoff skips is a tool message. |
| `Compaction.CompressOlderMessages` | internal/agent/compaction.go:148-198 | Short histories stay, a failed summary compresses nothing, otherwise a summary and the tail. |
| `Compaction.CompactMessages` | internal/agent/compaction.go:47-111 | Below the threshold nothing changes. Otherwise, a result that still reaches the threshold means that the summarizer failed, that there were at most PruneTurnAge messages, or that it is the summary with an unchanged suffix. |
| `Compaction.CompactedOutcome` | internal/agent/compaction.go:47-111 | Which of the three lists is left, and when: the old one exactly below the threshold; the old one with its long old tool results cut when that suffices or compression is impossible; and else the summary as a user message, then a suffix of the old one. |
| `Compaction.LastSurvives` | internal/agent/compaction.go:47-121 | A message that is no tool message and has just been appended is the last one of whatever compaction leaves. |
| `Compaction.CompactionKeepsPairing` | internal/agent/compaction.go:47-121 | For any summary or none: if each run of tool messages follows the message that carries their calls, it does so afterwards, and if every call was answered, it still is. |
| `Compaction.CompressedIsSummaryAndSuffix` | internal/agent/compaction.go:148-198 | A compressed history has at most PruneTurnAge + 1 messages: a summary and an unchanged suffix; of the recent messages only tool messages went into the summary. |
| `Summary.SeqRangeOf` | internal/agent/summary_extract.go:146-160 | The least and greatest sequence number of the messages, zero twice for none. |
| `Summary.MessagesAfterSeq` | internal/agent/summary_extract.go:494-502 | Exactly the messages above the mark, in order. |
| `Summary.NewerThanAre` | internal/agent/summary_extract.go:494-502 | They are selected from the archive in order, and none is missed. |
| `Summary.ValidateTopics` | internal/agent/summary_extract.go:167-206 | The loops compute the validated topics. |
| `Summary.ValidatedAre` | internal/agent/summary_extract.go:167-206 | What gets through: of the offered topics, in order, exactly those with text and an acceptable segment; texts and keywords as they were, an importance below 1 read as 3 and above 5 as 5, and of the segments exactly the acceptable ones, in order, with their ends in order. |
| `Summary.ValidatedAreOk` | internal/agent/summary_extract.go:162-206 | Whatever the model answers, every topic that gets through has text, importance 1 to 5, and at least one segment; all its segments are ordered and in the window or carried over. |
| `Summary.ValidSegmentsAre` | internal/agent/summary_extract.go:180-189 | A segment gets through exactly when the model offered it, in either order of its ends, and it is in the window or carried over. |
| `Summary.ValidationKeepsOk` | internal/agent/summary_extract.go:162-206 | Sound topics get through unchanged, so validating twice is validating once. |
| `Summary.SummaryStore.InsertTopic` | internal/agent/summary_extract.go:429-460 | The row of a topic, with the least start and greatest end of its segments, replaces any row of the same range. |
| `Summary.SummaryStore.PersistConversationSummary` | internal/agent/summary_extract.go:353-490 | One run on the store refines the run function, with every early return and every failure. |
| `Summary.TopicIsStored` | internal/agent/summary_extract.go:415-485 | A run that comes to its inserts stores every topic whose insert goes through and whose span no later one has: its texts, keywords, importance and segments, under the first and last message of the segments; and the mark moves to the last message if it can. |
| `Summary.RowsComeFromTopics` | internal/agent/summary_extract.go:415-485 | A row after a run was there before, or says what one of the topics says. |
| `Summary.CarriedTopicGetsThrough` | internal/agent/summary_extract.go:50-75 | A stored topic that the model carries over as it is gets through the validation of an incremental run. |
| `Summary.NothingToDo` | internal/agent/summary_extract.go:353-413 | A run changes nothing when the messages cannot be loaded, are fewer than two, or none of them is shown to the model, and when the model or its answer fails. |
| `Summary.RunKeepsInv` | internal/agent/summary_extract.go:338-490 | Over any run of appends and summaries, for any answers and failures: segments are ordered and in the session's range, row ranges are the min and max of their segments, importance is 1 to 5, and the mark never decreases. |
| `Summary.MergeAddsOnlyAbove` | internal/agent/summary_extract.go:387-403 | An incremental merge stores only segments that were stored before and segments above the mark. |
| `Summary.PersistKeepsUncrossed` | internal/agent/summary_extract.go:375-403 | No stored segment mixes messages from both sides of the mark, unless everything is extracted again although a mark is set and the mark then cannot be moved. |
| `Summary.CrossesIff` | internal/agent/summary_extract.go:375-403 | In that case the mark is crossed exactly when a topic that is stored has a segment with messages from both sides. |
| `Summary.RecrossingCrosses` | internal/agent/summary_extract.go:375-386 | Any sound topic that spans the mark does it, since the whole archive is the window. |
| `Summary.TopicStoredIff` | internal/store/conversation_summaries.go:97-114 | A merged topic is stored afterwards exactly when the last insert that goes through for its range writes that very row: a later topic with the same first and last message replaces it. |
| `Summary.FailedInsertsLoseTopics` | internal/agent/summary_extract.go:415-485 | When the old rows are deleted and all inserts fail, the mark still moves: the topics are gone and no run restores them before a new message comes. |
| `Summary.FailedInsertsAreForGood` | internal/agent/summary_extract.go:415-485 | Nor does any later run, as long as the session and its rows can be read: it covers only messages behind the mark. |
| `Summary.UnsureDeleteLosesTopics` | internal/agent/summary_extract.go:415-421 | A delete that takes effect and reports an error leaves no rows and the old mark: no later run that can read the session covers a message at or below the mark again. |
| `RateLimit.RateLimiter.constructor` | internal/api/ratelimit.go:17-27 | A limit of zero or less counts as none; nothing is admitted yet. |
| `RateLimit.RateLimiter.Allow` | internal/api/ratelimit.go:29-74 | Decides exactly as the limiter that keeps every admission for ever, whatever was pruned or swept, and admits the same. |
| `RateLimit.RateLimiter.Sweep` | internal/api/ratelimit.go:39-58 | The purge forgets users without an entry in the window, keeps the others' entries of the window, and keeps the agreement. |
| `RateLimit.Prune` | internal/api/ratelimit.go:60-66 | The front-to-back skip leaves the entries from the cutoff on. |
| `RateLimit.PrunedDecision` | internal/api/ratelimit.go:36-68 | The length of the pruned list is the number of admissions in the closed window of the unpruned log. |
| `RateLimit.PruningKeepsAgreement` | internal/api/ratelimit.go:39-71 | Pruning or deleting one user's entries changes no later decision for anyone. |
| `RateLimit.AdmissionKeepsAgreement` | internal/api/ratelimit.go:68-74 | An admission recorded on both sides keeps them in agreement. |
| `RateLimit.WindowBound` | internal/api/ratelimit.go:29-74 | No closed window of sixty seconds, wherever it lies, holds more than rpm admissions of one user. |
| `RateLimit.RefusedIff` | internal/api/ratelimit.go:29-74 | A request is refused exactly when there is a limit, the user has rpm admissions, and the last rpm of them all lie in the window; without a limit none is. |
| `RateLimit.AdmissionIsRecorded` | internal/api/ratelimit.go:68-74 | Under a limit an admission is recorded for its user, a refusal is not, and other users are not concerned. |
| `RateLimit.AdmissionsSpread` | internal/api/ratelimit.go:29-74 | Any rpm + 1 consecutive admissions of one user take longer than sixty seconds. |
| `Outbound.JoinReplyParts` | internal/agent/loop.go:2560-2574 | Exactly the parts that are not blank, in order and as they are, joined with the marker. |
| `Outbound.SplitOutboundText` | internal/channels/base.go:214-225 | The trimmed parts between markers that are not blank. |
| `Outbound.BubblesAre` | internal/channels/base.go:214-225 | There is one bubble for every part between markers that is not blank, in order: the part without its outer spaces. |
| `Outbound.SplitUndoesJoin` | internal/channels/base.go:214-225 | Splitting a joined reply gives the concatenation of the splits of its parts, for all lists of parts, even when parts hold markers. |
| `Outbound.BubblesAreClean` | internal/channels/base.go:214-225 | No bubble holds the marker, is blank, or begins or ends with a space. |
| `Outbound.DispatchOutbound` | internal/channels/manager.go:236-275 | The planned messages are sent in order up to and including the first that fails. |
| `Outbound.NoMarkerReachesAdapter` | internal/channels/manager.go:236-275 | No message handed to an adapter holds the marker, whatever the text and flags. |
| `Outbound.PlannedTexts` | internal/channels/manager.go:236-275 | Every planned message goes to the chat of the original: the text as it is without a marker, one collapsed text when it may not be split, and else one message per bubble, in order. |
| `Outbound.CollapseReplaces` | internal/channels/manager.go:236-275 | Collapsing replaces every marker by a newline and nothing else. |
| `Outbound.ExtrasRideOnce` | internal/channels/manager.go:236-275 | Media, buttons and reply reference ride on exactly the last message; nothing is sent exactly when a marked, splittable text has no bubble. |
| `Tables.IsMarkdownTableRow` | internal/channels/base.go:85-98 | Pipes at both ends of the trimmed line and an unescaped one between them. |
| `Tables.IsRowIff` | internal/channels/base.go:85-164 | A line is taken for a row exactly when, trimmed, it has pipes at both ends and is parsed into two or more cells. |
| `Tables.ParseMarkdownTableRow` | internal/channels/base.go:134-164 | The loop computes the cells between unescaped pipes. |
| `Tables.RowRoundTripIff` | internal/channels/base.go:132-164 | Trimmed cells, printed as a row with their pipes escaped, are read back if and only if no cell but perhaps the last ends in a backslash. |
| `Tables.SpacedRoundTrip` | internal/channels/base.go:132-164 | With spaces around the cells, they are read without them. |
| `FlatTables.IsMarkdownTableSeparator` | internal/channels/base.go:104-130 | A row all of whose cells are separator cells. |
| `FlatTables.SeparatorCellIff` | internal/channels/base.go:100-130 | A separator cell is blank, or one or more dashes with an optional colon on either side. |
| `FlatTables.RenderFlatTable` | internal/channels/base.go:168-206 | The loops print one line per row, joined by newlines. |
| `FlatTables.LabelFormIsExact` | internal/channels/base.go:178-196 | A table is printed in the label form only when every row has exactly two cells, and then each line is its first cell, a colon and its second. |
| `FlatTables.WideFormIsExact` | internal/channels/base.go:196-206 | In any wider table every line, the header too, is printed as its cells with dots between them, filled up with empty cells to the width of its longest line; the separator is not printed. |
| `FlatTables.RowsHaveTwoCells` | internal/channels/base.go:85-98 | A line taken for a row always has two or more cells. |
| `FlatTables.FlattenMarkdownTables` | internal/channels/base.go:52-79 | The loop computes the flattened text; texts without a pipe take the short way with the same result. |
| `FlatTables.WellCutIsBlocks` | internal/channels/base.go:57-77 | There is only one way to cut a text into plain lines and maximal tables. |
| `FlatTables.FlatteningLines` | internal/channels/base.go:52-79 | The result's lines are the emitted lines of that one cut: plain lines unchanged and in order, one line fewer for every table. |
| `FlatTables.IdentityIff` | internal/channels/base.go:52-79 | Flattening leaves a text alone if and only if no row is followed by a separator. |
| `Chunking.SplitTelegramMessage` | internal/channels/telegram.go:507-533 | The loop terminates and computes the chunks; an empty message is one empty chunk. |
| `Chunking.TelegramCutIsLatestBreak` | internal/channels/telegram.go:515-529 | The cut falls behind the last usable paragraph break, else behind the last line break, else at the limit. |
| `Chunking.TelegramLosesNothing` | internal/channels/telegram.go:507-533 | The chunks are non-empty, fit 4096 bytes and concatenate to the message. |
| `Chunking.TelegramCutsEach` | internal/channels/telegram.go:507-533 | Only a text that does not fit is cut, and each chunk but the last ends at the cut of what is left at that point. |
| `Chunking.SplitDiscordMessage` | internal/channels/discord.go:417-439 | The loop terminates and computes the chunks. |
| `Chunking.DiscordCutIsLatestBreak` | internal/channels/discord.go:424-433 | The cut falls on the last paragraph break in the second half, else on the last line break there, else at the limit. |
| `Chunking.DiscordChunksFit` | internal/channels/discord.go:417-439 | The chunks are non-empty and fit 2000 bytes. |
| `Chunking.DiscordLosesOnlyNewlines` | internal/channels/discord.go:417-439 | The message is the chunks with runs of newlines, and nothing else, between and behind them. |
| `Chunking.DiscordCutsEach` | internal/channels/discord.go:417-439 | No chunk but perhaps the first begins with a newline, and each but the last has at least half the limit. |
| `Chunking.EscapeMarkdownV2` | internal/channels/telegram.go:498-503 | The loop of replacements computes the eighteen passes. |
| `Chunking.EighteenPassesAreOne` | internal/channels/telegram.go:498-503 | The eighteen passes together are one per-character escape. |
| `Chunking.EscapingIsInvertible` | internal/channels/telegram.go:498-503 | Dropping the backslash before each special character gives the text back, for every text. |
| `TreeHash.EmbedTreeHash` | internal/agent/bundled_skills.go:179-206 | The walk over the bundle hashes the framed listing of its whole tree. |
| `TreeHash.DiskTreeHash` | internal/agent/bundled_skills.go:211-246 | The walk over the disk hashes the framed listing of the files without a dot segment. |
| `TreeHash.HiddenIff` | internal/agent/bundled_skills.go:225-232 | Skipped are exactly the files with a dot at the front of their path or behind a slash of it. |
| `TreeHash.PreimageInjective` | internal/agent/bundled_skills.go:197-199 | Different lists of files with one-line paths are never framed alike. |
| `TreeHash.NewlinePathCollides` | internal/agent/bundled_skills.go:197-199 | With a newline in a path two different lists can be framed alike. |
| `TreeHash.DigestInjective` | internal/agent/bundled_skills.go:177-206 | With a collision-free hash, trees with one-line paths have the same digest exactly when they are the same. |
| `BundledSkills.SkillDir.DecideBundledInstall` | internal/agent/bundled_skills.go:150-175 | The decision, by digests read from the walks, under read failures. |
| `BundledSkills.SkillDir.CopyEmbedTree` | internal/agent/bundled_skills.go:273-295 | Files are written in walk order up to a failure, which may leave part of one file. |
| `BundledSkills.SkillDir.Install` | internal/agent/bundled_skills.go:92-134 | One round of the install loop refines the outcome function, under failures of every file operation. |
| `BundledSkills.OverwriteIff` | internal/agent/bundled_skills.go:150-175 | A skill is wiped exactly when it has its skill file, hashes are readable, its visible files are those of the bundle recorded last, and the new bundle is another one. |
| `BundledSkills.AdoptIff` | internal/agent/bundled_skills.go:150-167 | A directory is adopted exactly when it has its skill file, its files can be read, no sidecar can, and its visible files are the bundle's; it is installed afresh exactly when the skill file is missing. |
| `BundledSkills.AdoptedIsUpToDate` | internal/agent/bundled_skills.go:123-127 | An adopted directory keeps its files and is up to date from then on. |
| `BundledSkills.LeftAlone` | internal/agent/bundled_skills.go:129-132 | What is up to date or edited is left alone, its sidecar too. |
| `BundledSkills.FailedWipeAddsNothing` | internal/agent/bundled_skills.go:108-112 | A removal that fails is not followed by a copy: what is left are old files as they were, and the old sidecar or none. |
| `BundledSkills.RunKeepsInv` | internal/agent/bundled_skills.go:99-133 | Over any run of edits, upgrades and failures the sidecar, when it holds a digest, holds that of the bundle recorded last. |
| `BundledSkills.EditedTreeSurvives` | internal/agent/bundled_skills.go:47-61 | After any such run, a tree with its skill file whose visible files differ from the bundle recorded last comes through an upgrade unchanged. |
| `BundledSkills.UpToDateIsBundle` | internal/agent/bundled_skills.go:150-175 | In any directory a skill counts as up to date exactly when it has its skill file, hashes are readable, its visible files are the bundle's and the sidecar says so; hence never with a bundle that has a hidden file. |
| `BundledSkills.UpToDateAfterIff` | internal/agent/bundled_skills.go:99-133 | After an install or overwrite without write failures the skill is up to date if and only if the bundle has its skill file, no hidden files, and a first install found no visible leftovers. |
| `BundledSkills.UntouchedConverges` | internal/agent/bundled_skills.go:47-61 | Upgrading an untouched skill to a bundle without hidden files gives that bundle, up to date. |
| `BundledSkills.ConvergedStays` | internal/agent/bundled_skills.go:129-130 | From then on starting with that bundle never changes a file, whatever fails. |
| `BundledSkills.HiddenEditIsLost` | internal/agent/bundled_skills.go:225-232 | Hidden files the user added do not count as an edit; an upgrade drops them. |
| `BundledSkills.BrokenUpgradeNext` | internal/agent/bundled_skills.go:109-123 | After an upgrade whose copy broke off at a file, the next start installs afresh exactly when the skill file comes behind the break or at it with nothing written, adopts exactly when it was reached, the bundle has no hidden file and every file had been written whole, and else takes the rest for a user edit. |
| `BundledSkills.NeverUpgradedAgain` | internal/agent/bundled_skills.go:158-167 | A skill without a sidecar that differs from every shipped bundle is never touched again. |
| `Config.GetNested` | internal/agentcli/agentcli.go:822-832 | The loop reads the value at the path, null when any step has no object. |
| `NestedMaps.GoMaps.SetNestedInPlace` | internal/agentcli/agentcli.go:809-820 | The loop over maps held by reference, creating maps where none is, leaves exactly the nested write of the object that was there. |
| `NestedMaps.EntryChanged` | internal/agentcli/agentcli.go:819 | Changing one entry of the map that a path leads to is the nested write on that path, because no map is shared. |
| `Config.GetAfterSet` | internal/agentcli/agentcli.go:809-832 | A value that was set is read back. |
| `Config.GetElsewhere` | internal/agentcli/agentcli.go:809-832 | Reads on a diverging path do not notice a write, even one that replaces a scalar by an object. |
| `Config.SetOverSet` | internal/agentcli/agentcli.go:809-820 | A later write to the same path overrides an earlier one. |
| `Config.SetsCommute` | internal/agentcli/agentcli.go:809-820 | Writes to diverging paths commute. |
| `Config.SetWhatIsIff` | internal/agentcli/agentcli.go:809-832 | Writing back what was read changes nothing if and only if something was there. |
| `Config.GetInside` | internal/agentcli/agentcli.go:809-832 | A read below a written path reads inside the written value. |
| `Config.SettingKey` | internal/agentcli/agentcli.go:712-736 | The branches and the loop over namespaces compute the address of a key. |
| `Config.KeyOfAddress` | internal/agentcli/agentcli.go:665-736 | The key can be told from its address, so no two accepted keys share one. |
| `Config.AcceptedIff` | internal/agentcli/agentcli.go:665-736 | A key is accepted exactly when it is one of the agent's, or a system namespace, or reads a non-empty name below one; and exactly the former belong to one agent. |
| `Config.PathsAreCut` | internal/agentcli/agentcli.go:712-736 | The path of an accepted key is cut at every dot. |
| `Config.KeysApartOrNested` | internal/agentcli/agentcli.go:712-736 | Two different accepted keys are in different rows, on diverging paths of one row, or one strictly above the other. |
| `Config.ConfigStore.SetConfig` | internal/agentcli/agentcli.go:395-429 | Which writes are accepted, what the rows are afterwards, and which error each refused key gets; a write to an agent's setting touches only rows of that agent, one to a system setting only shared rows; a refused or failed write changes nothing, and without a failure of the store there is no store error. |
| `Config.ConfigStore.SaveSetting` | internal/scope/scope.go:297-320 | An empty object drops the row if it is found; a failed lookup counts as not found and reports success. |
| `Config.ConfigStore.GetConfig` | internal/agentcli/agentcli.go:433-459 | Which reads are accepted, and that they return the value at the key's address. |
| `Config.ReadAfterWrite` | internal/agentcli/agentcli.go:395-459 | A write that reports success is read back, except that a namespace set to the empty object reads as missing, or as before when its row could not be looked up. |
| `Config.SettingsDoNotInterfere` | internal/agentcli/agentcli.go:395-459 | A write is not noticed by any setting kept apart from it, but for the sandbox backend default. |
| `Config.AgentSettingsAreOwn` | internal/agentcli/agentcli.go:403-406 | What one agent writes to a setting of its own is not noticed by any setting of another agent. |
| `Config.ScopesAreApart` | internal/agentcli/agentcli.go:403-447 | A write to an agent's setting is not noticed by any system setting, nor one to a system setting by any agent's, whoever reads. |
| `Config.SystemIsShared` | internal/agentcli/agentcli.go:403-447 | A system setting that one agent writes is read back by every agent. |
| `Config.BackendDefault` | internal/agentcli/agentcli.go:421-427 | Enabling the sandbox without a backend name makes docker the backend. |
| `Config.FillsInIff` | internal/agentcli/agentcli.go:421-427 | That happens exactly when sandbox.enabled is set to true and the backend read so far is no text. |

## Left out

- Turn.HandleMessage: one turn at a time touches the session's history; users push freely. `Padding.OverlappingTurnsLeaveOpen` shows what overlap does to its conclusion.
- Turn.HandleMessage: the texts of deferred, blocked and held results are shortened, metadata prefixes of results are not cut off, hooks only inject calls and do not replace the message list, whether a result counts as failed is an arbitrary function of it, and the scrubbing of private data is not modelled.
- Turn.Rounds: a turn that dies is covered by the prefixes of what it writes (`TurnHistory.CutShortAnywhereAnswersAll`); message lists are compared without the system prompt in front of them.
- ToolRound.StreamRoundResults: the streaming loop around the round is not modelled; it has no cap on parallel calls.
- SessionState.Session.Append: the append to the archive and to disk that goes with it is not modelled; each method is one atomic step, as its lock makes it.
- SessionState.Session.ReplaceMessages: the reset of the consolidation pointer and the save to disk that go with it are not modelled.
- Lease.OverlapNeedsStaleHolder: all processes read one clock, and a statement takes effect at one moment between its call and its return, or not at all when it fails.
- Authorization.HardlineNeverExecutes: the tier of a command is an arbitrary function of the command; the regular expressions behind it are not modelled.
- Authorization.SlashSetAuthMode: the gate's policy fields may change between events, not within one.
- AuthGate.Gate.EvaluateCall: reading arguments out of JSON is an arbitrary function of the call.
- AuthGate.VerdictIff: the workspace, the home directory and the allowlisted prefixes are absolute paths.
- Paths.IsUnderIff: POSIX paths, cleaned lexically; no symbolic links, no Windows rules.
- Summary.RunKeepsInv: runs on one session do not overlap, all rows of a session belong to one chatter, and the model's answer is an arbitrary list of topics or an error; embeddings are not modelled.
- Summary.TopicStoredIff: stated for a merge, which starts from no rows.
- Curator.NoDuplicateProposals: runs do not overlap, and a proposal is stored exactly when its creation is reported.
- BundledSkills.EditedTreeSurvives: one skill at a time; paths hold no newline; the hash has no collisions; the user does not touch the sidecar; directories without files are not part of a tree.
- TreeHash.DigestInjective: the order of a walk is the order of paths with the slash as the least character; SHA-256 is a constructor.
- NestedMaps.GoMaps.SetNestedInPlace: the written value is one entry, its own inner maps are not opened; maps may be left over that nothing refers to.
- Config.ConfigStore.SetConfig: the store hands out copies of its rows, so the class works on values; parsing of the raw argument is a parameter.
- Config.ConfigStore.GetConfig: the dump for the empty key and the provider rows are only named as outcomes.
- RateLimit.RateLimiter.Allow: time is read under the lock and does not decrease.
- Outbound.ExtrasRideOnce: nothing at all is sent when a marked text has no bubble; attachments are lost then.
- Chunking.TelegramLosesNothing: a character of a text stands for one byte.
- Tables.ParseMarkdownTableRow: lengths do not matter here, so a character may stand for a byte or for a code point.
- Model providers, HTTP, event streams, executors, containers, plugins and command line handling: their inputs and outputs are parameters.
- Prompt texts, translations and the system prompt: no property beyond the text itself.
- Plan mode and the streaming turn: their pairing and steering follow the same session steps.
- Registration of channels, bot names, typing notices and login of channels: single map updates.
- Search, ranking and vectors of summaries: no property of the write path depends on them.
