# Verified models of jkb's coordination core

jkb lets many agents work one knowledge base: attested subagents are held to one task each, work is landed only after
review, tasks are claimed and reclaimed, worktrees are swept away, long answers are cut to a budget and notifications are
shown exactly as sent. This project models the code that decides these things and proves, for every input, every
interleaving or every run, what it promises. `dafny verify dfyconfig.toml` checks all of it.

| file | models |
|---|---|
| `Admission.dfy` | the lock, resolve, authorize, bind, run, undo protocol of concurrent calls |
| `Rbac.dfy` | who a caller is and what it may do, landing included |
| `TicketStore.dfy` | live tickets: a map and an expiry queue |
| `LandGate.dfy` | review findings, read in chunks and merged, and the land gate |
| `KbWalk.dfy` | the byte budget, `tree`, `ls` and `grep` |
| `Notices.dfy`, `StreamConsumer.dfy`, `NotifierRuns.dfy` | folding notifications, the stream consumer, and its supervisor with crashes and redelivery |
| `Filing.dfy` | trimming a review to one filing, over UTF-8 bytes |
| `Claims.dfy` | task claims as compare-and-set transactions |
| `Sweep.dfy` | removal records and the sweep's lease |
| `Wrappers.dfy` | `Option` and `Result` |

The SQLite tables are small abstract stores; each operation on them is one atomic step that rolls back on an error.
Serialized sizes, JSON reading, case folding, owner-id parsing and path checks are function parameters, so everything
holds whatever they are. Objects whose methods update fields are classes, and each method is tied to a specification about which
the laws are proved. Protocols between threads and processes are step relations over values.

Where the code and its own words differ, the code is followed:

- A start of an in-progress task by its holder is a recorded move of the lifecycle, although comments in
  crates/jkb-api/src/sessions.rs speak of it as idempotent with no history row; so the case "the owner already had it
  started and nothing was recorded" never arises.
- `task.reclaim` reports a claim freed whenever the lifecycle moved, but drops it by the spelling its owner parses back to; a
  claim stored in another spelling is reported freed and stays (`Claims.ReclaimFreesExactly` says exactly when).

What is asked of the surroundings, each shown to be needed by a run from the initial state: an agent-wide or session-wide
ticket release does not happen while a call of that agent is in flight (`Admission.DroppingALockInUseUnbinds`); a
subscription that has ended commits no ack (`NotifierRuns.LateAckLosesAWithdrawal`); nobody breaks the sweep lease under a
live sweep (`Sweep.BreakingTheLeaseLosesACancel`). Also assumed, without such a run: tokens are fresh, round numbers are
distinct, the clock of the ticket store does not go back, the queue hands over increasing seqs, and a displaced sweep
really is gone.

Two promises hold only under a condition, which is proved to be exact. Tickets' times are read before the store's lock, so
mints may queue out of order; expiry is exact if and only if the queue is sorted, and otherwise late by no more than the
disorder (`TicketStore.ExactAtEveryMomentIffSorted`, `TicketStore.ExpiryIsNearlyExact`). The display acks a batch after ten
seconds even if it was not handed over, so a notification can be acked unseen or an old one land late
(`NotifierRuns.LateLandingOutlivesAWithdrawal`); an id is wrong only then (`NotifierRuns.StaleHasACause`,
`NotifierRuns.DrainedShowsExactly`).

## Model

| member | source | states |
|---|---|---|
| `Admission.StepKeepsInv` | crates/jkb-api/src/lib.rs:3531-3671 | every step of every interleaving of calls, mints, releases, prunes and restarts keeps the invariant: a call past its lock holds its subagent's one mutex and knows its binding |
| `Admission.RunKeepsInv` | crates/jkb-api/src/lib.rs:3647-3671 | the invariant holds in every state of every run |
| `Admission.WorkerDoesNotHop` | crates/jkb-api/src/rbac.rs:1081-1169 | once a call of an attested subagent has succeeded under a binding to a task, every later task-targeted write admitted to it is in scope of that task and none of its calls binds again |
| `Admission.WorkerStaysOnItsTask` | crates/jkb-api/src/rbac.rs:1081-1169 | the same over the request and the tables: whatever a live ticket of the subagent is admitted to do to a task, the task is the one bound or in its scope, and nothing is bound first |
| `Admission.NoMutexLeaks` | crates/jkb-api/src/lib.rs:3647-3671 | in every reachable state a held mutex is held by a call in flight that is past it |
| `Admission.LocksSurviveExactly` | crates/jkb-api/src/rbac.rs:739-835 | which locks pruning keeps and which a release drops, over the calls, the tickets and the names |
| `Admission.BindingStays` | crates/jkb-api/src/lib.rs:3531-3577 | after such a success the binding is that task in every later state, and no call in flight could undo it |
| `Admission.TargetedSuccessIsBound` | crates/jkb-api/src/lib.rs:3550-3571 | a task-targeted call of an attested subagent that succeeds ran under a binding |
| `Admission.SuccessBindsForGood` | crates/jkb-api/src/lib.rs:3647-3671 | at the moment of success no other call of that subagent has a binding of it to undo |
| `Admission.StepKeepsBinding` | crates/jkb-api/src/lib.rs:3647-3671 | a binding nothing in flight may undo survives every step |
| `Admission.BindAnswersNow` | crates/jkb-core/src/roles.rs:633-676 | in every run a bind finds its subagent unbound: `To` and `Elsewhere` are never answered under the lock |
| `Admission.OverlappingCallsShareMutex` | crates/jkb-api/src/rbac.rs:739-766 | two overlapping calls of one subagent hold the same lock whatever was pruned, and at most one is past it |
| `Admission.CloneKeepsInv` | crates/jkb-api/src/rbac.rs:739-766 | pruning the lock map and cloning an entry never gives a subagent with a call in flight a second lock |
| `Admission.FailedCallRestoresBinding` | crates/jkb-api/src/lib.rs:3647-3671 | a call that ends without succeeding leaves the binding as it found it at its lock if and only if it made none or its undo committed; after an undo that was not committed, or a restart before it, the subagent stays bound to what the call made |
| `Admission.FoundIsKept` | crates/jkb-api/src/lib.rs:3647-3671 | what a call found at its lock is unchanged while it is in flight, whatever other calls do |
| `Admission.DroppingALockInUseUnbinds` | crates/jkb-api/src/rbac.rs:809-835 | the one environment assumption is needed: in a run from an empty daemon whose one other step is a release dropping the lock of a call in flight, a second call succeeds on a task and the subagent is then left unbound |
| `Rbac.Decide` | crates/jkb-api/src/rbac.rs:1012-1169 | over the request, the caller and the tables, exactly who may: the class granted to a role, or a container grant for attestation; a scoped caller only inside its scope and no shared write; a landing only with a lander's role, repeated or open and approved; no unbound review round or move. And exactly when a subagent is bound first |
| `Rbac.ResolveExactly` | crates/jkb-api/src/rbac.rs:929-990 | who a token is: nobody when it or its minter is unknown or revoked, one role at most, never the operator's for a subagent, scoped to its binding or grant |
| `Rbac.AdmitLanding` | crates/jkb-api/src/rbac.rs:1174-1220 | a landing is admitted exactly when a role may land and either it repeats the live landing or the workflow is open and the records approve the head |
| `Rbac.AdmittedLandingIsReviewed` | crates/jkb-api/src/rbac.rs:1174-1247 | a landing admitted to a non-operator repeats its recorded landing with the workflow parked at `landed`, or has an unsettled workflow and an approved head |
| `Rbac.DecideTwice` | crates/jkb-api/src/rbac.rs:1174-1247 | `land`, `land_check` and `landed` asked about in the same state are decided alike, each reading the gate in chunks for itself |
| `TicketStore.Live.constructor` | crates/jkb-api/src/rbac.rs:670-688 | the empty store satisfies the invariant |
| `TicketStore.Live.PopExpired` | crates/jkb-api/src/rbac.rs:690-706 | the loop pops exactly the longest expired prefix of the queue and drops its tickets |
| `TicketStore.Live.Expire` | crates/jkb-api/src/rbac.rs:690-706 | after an expiry every minted, unreleased, young ticket is live and none that expired longer ago than a mint was ever late; with mints in time order, exactly the young ones; the queue is at most twice the live set plus 64 |
| `TicketStore.Live.Get` | crates/jkb-api/src/rbac.rs:719-723 | answers every ticket minted, not released and younger than the backstop, and none older by more than a mint was ever late: with mints in time order, exactly those |
| `TicketStore.Live.Mint` | crates/jkb-api/src/rbac.rs:773-805 | whatever order the times come in: refused only when the daemon or the session is at its cap, granted only below both, the invariant and both caps kept, and how late the mint came remembered |
| `TicketStore.Live.Release` | crates/jkb-api/src/rbac.rs:809-835 | leaves exactly the tickets that are not of that call, else of that agent, else of that session, and counts the live ones it drops |
| `TicketStore.LiveExactly` | crates/jkb-api/src/rbac.rs:678-706 | what is live and of a session, over ages and fields |
| `TicketStore.SurvivesExactly` | crates/jkb-api/src/rbac.rs:690-706 | in any queue, sorted or not, a token survives an expiry exactly when it or something queued before it is young |
| `TicketStore.ExpiryIsNearlyExact` | crates/jkb-api/src/rbac.rs:690-706 | an expiry leaves every young ticket and none expired by more than the queue is out of order |
| `TicketStore.SortedExpiryIsExact` | crates/jkb-api/src/rbac.rs:690-706 | in a sorted queue an expiry leaves exactly the young tickets |
| `TicketStore.ExactAtEveryMomentIffSorted` | crates/jkb-api/src/rbac.rs:678-706 | a queue of live tickets expires exactly at every moment if and only if it is sorted |
| `TicketStore.UnsortedQueueKeepsAnExpiredTicket` | crates/jkb-api/src/rbac.rs:1731-1766 | times are read before the lock, so the order of pushes is an assumption: out of order, an expired ticket stays live |
| `TicketStore.MintKeepsCaps` | crates/jkb-api/src/rbac.rs:773-805 | minting below the caps keeps both of them |
| `TicketStore.RetainKeeps` | crates/jkb-api/src/rbac.rs:690-706 | compaction keeps exactly the entries of live tokens, sorted and without duplicates |
| `LandGate.ReviewFindings` | crates/jkb-api/src/sessions.rs:827-924 | counts each finding once over the union of its namespaces, lists open must-fixes up to its cap, rounds sorted by filing; an error past 64 namespaces |
| `LandGate.Merge` | crates/jkb-api/src/review_gate.rs:160-178 | the merged answer adds the counts up, joins the open lists without duplicates and sorts all rounds |
| `LandGate.BranchState` | crates/jkb-api/src/review_gate.rs:190-211 | whatever order the records are visited in, the merged record names exactly their namespaces, and is reviewed or waived at the head exactly when one of them is |
| `LandGate.Landing` | crates/jkb-api/src/review_gate.rs:220-256 | reading in chunks of at most 64 and merging, a landing passes exactly when the records approve the head |
| `LandGate.JudgedTasks` | crates/jkb-api/src/review_gate.rs:220-246 | the tasks judged, over the tags: the task alone, or with every task that carries the branch and shares a repository with it |
| `LandGate.LandingRule` | crates/jkb-api/src/review_gate.rs:107-256 | the whole rule over branches, repositories, records, rounds and items: whose records count, what is open, which round is the newest |
| `LandGate.OffTheBranchAlone` | crates/jkb-api/src/review_gate.rs:230-235 | a task that does not carry the branch is judged on its own record, whatever any other task's record or tags are |
| `LandGate.OneOpenMustFixRefuses` | crates/jkb-api/src/review_gate.rs:180-189 | a must-fix open under the record of any task of the group refuses a head nobody waived |
| `LandGate.FindingsAre` | crates/jkb-api/src/sessions.rs:811-924 | which items are findings and which are open, over the tables |
| `LandGate.RuleOfOpen` | crates/jkb-api/src/sessions.rs:811-924 | nothing is open exactly when every recorded must-fix is finished and no unfinished one of priority 1 lies under an unrecorded namespace |
| `LandGate.EditsDoNotClose` | crates/jkb-api/src/sessions.rs:811-819 | with every namespace recorded, placement and priority change nothing of what is open |
| `LandGate.VerdictExactly` | crates/jkb-api/src/review_gate.rs:107-154 | which refusal a landing gets |
| `LandGate.ChunkingPreservesVerdict` | crates/jkb-api/src/review_gate.rs:249-256 | every chunking of the namespaces gives the verdict of reading them at once, up to the counts it names |
| `LandGate.MergedCountsCover` | crates/jkb-api/src/review_gate.rs:160-178 | merged counts may double-count but never fall below the true ones |
| `LandGate.GatePassesExactlyWhenApproved` | crates/jkb-api/src/review_gate.rs:107-154 | the gate passes exactly when the head is waived, or some task was reviewed at it, findings exist, no must-fix is open in any round and the newest round has none |
| `LandGate.ChunkedGateDecides` | crates/jkb-api/src/review_gate.rs:220-256 | the same, for any record and any chunked, merged reading of it |
| `LandGate.PassedExactly` | crates/jkb-api/src/review_gate.rs:107-154 | the exact condition on one merged answer and record |
| `LandGate.SortSorts` | crates/jkb-api/src/sessions.rs:827-924 | sorting rounds by filing orders and permutes them |
| `LandGate.SortedLastIsNewest` | crates/jkb-api/src/review_gate.rs:107-130 | the last of the sorted rounds is the newest |
| `LandGate.Chunks` | crates/jkb-api/src/review_gate.rs:249-256 | the chunks concatenate to the list and none is empty or over 64 |
| `KbWalk.Budget.Take` | crates/jkb-api/src/kb.rs:79-93 | an entry is charged exactly when it fits what is left; once one has not, none does |
| `KbWalk.Tree` | crates/jkb-api/src/kb.rs:940-965 | on any graph, cyclic or not, the answer is the first nodes in pre-order of the tree with no budget and no cap that fit both, or the failure of a read that comes before that; at most one read a node and one more. Uncut, its roots are the rows of the path, and a node has the rows listed for it exactly when it has children, is within the depth asked (48 at most) and is not on its own path |
| `KbWalk.FullOpensExactly` | crates/jkb-api/src/kb.rs:1014-1023 | the same of the tree with no budget and no cap |
| `KbWalk.TreeWalk.Level` | crates/jkb-api/src/kb.rs:997-1031 | the same for the level at the end of the ancestor stack, which is distinct and restored; the reads are counted |
| `KbWalk.TreeWalk.Children` | crates/jkb-api/src/kb.rs:997-1031 | the loop over one level's children, stopping at the first that does not fit |
| `KbWalk.TreeWalk.Visit` | crates/jkb-api/src/kb.rs:1001-1028 | one child: stopped at by the cap or the budget, or listed with what is below it |
| `KbWalk.TreeWalk.Nested` | crates/jkb-api/src/kb.rs:1014-1023 | a child is opened only when it is a container, within depth and none of its ancestors |
| `KbWalk.AnswerIsAPrefix` | crates/jkb-api/src/kb.rs:940-1031 | the listing is a prefix of the unbounded one; `Whole` exactly when the trees are equal; no more than the cap is listed nor than the budget charged; a budget cut is at a node that did not fit |
| `KbWalk.UnlimitedIsWhole` | crates/jkb-api/src/kb.rs:940-965 | with room and budget enough the answer is the unbounded tree |
| `KbWalk.PrunedListing` | crates/jkb-api/src/kb.rs:984-1031 | keeping the first nodes of a tree keeps a prefix of its pre-order listing |
| `KbWalk.FullOpensNoAncestor` | crates/jkb-api/src/kb.rs:1014-1023 | no root-to-node path opens one reference twice |
| `KbWalk.PrunedOpensNoAncestor` | crates/jkb-api/src/kb.rs:1014-1023 | nor does one of a bounded tree |
| `KbWalk.FitsIsLongest` | crates/jkb-api/src/kb.rs:79-93 | what a sticky budget lists is the longest prefix within it |
| `KbWalk.Ls` | crates/jkb-api/src/kb.rs:895-929 | recursive `ls` answers, of its unlimited depth-first listing followed to any depth its budget could not reach, the rows that fit, or the first failing read before that |
| `KbWalk.Lister.Walk` | crates/jkb-api/src/kb.rs:902-925 | one level and what is below it, appended to the accumulator |
| `KbWalk.Lister.WalkKids` | crates/jkb-api/src/kb.rs:910-924 | the loop over one level's children, which ends without a further read once a row did not fit |
| `KbWalk.ListingIsAPrefix` | crates/jkb-api/src/kb.rs:79-93 | a budgeted listing is a prefix of the unlimited one, and stopped exactly when something was dropped |
| `KbWalk.ListingFailsExactly` | crates/jkb-api/src/kb.rs:895-929 | a listing fails exactly when everything before the first failing read fits |
| `KbWalk.FirstItems` | crates/jkb-api/src/kb.rs:895-929 | following namespaces that list each other any deeper changes none of the first items |
| `KbWalk.DeeperIsTheSame` | crates/jkb-api/src/kb.rs:895-929 | so the answer does not depend on the depth the unlimited listing is followed to |
| `KbWalk.LsFlat` | crates/jkb-api/src/kb.rs:895-929 | not recursive, the listing is the children of the path in order, or the failure to read them |
| `KbWalk.LsFollows` | crates/jkb-api/src/kb.rs:910-924 | recursive, a namespace's row is followed at once by what it lists, or the failure to read it |
| `KbWalk.LsRowsAreListed` | crates/jkb-api/src/kb.rs:910-924 | every row is a child of the parent it names, which is the path asked for or a namespace listed before |
| `KbWalk.Grep` | crates/jkb-api/src/kb.rs:1052-1116 | an empty pattern is an error; else every item is counted whatever the budget, and the hits are, piece by piece, those of the unlimited answer that fit |
| `KbWalk.Collect` | crates/jkb-api/src/kb.rs:1083-1113 | the loop over items, counting on after the budget is spent |
| `KbWalk.HitLines` | crates/jkb-api/src/kb.rs:1096-1109 | the matching lines of one item as far as they fit |
| `KbWalk.MatchingExactly` | crates/jkb-api/src/kb.rs:1096-1109 | exactly the matching lines, numbered from one, in order |
| `KbWalk.HitsExactly` | crates/jkb-api/src/kb.rs:1083-1113 | one hit an item in order, with lines only when asked, none for a count |
| `KbWalk.NeedleExactly` | crates/jkb-api/src/kb.rs:1066-1077 | a line matches when it holds the pattern, both folded if case is ignored |
| `KbWalk.GrepIsAPrefix` | crates/jkb-api/src/kb.rs:1052-1116 | the hits are the first of the unlimited ones, the last perhaps with its first lines only, and the budget stopped exactly when something was dropped |
| `KbWalk.PrefixOfPieces` | crates/jkb-api/src/kb.rs:1083-1113 | pieces determine hits: a prefix of the pieces is a prefix of the hits |
| `Notices.Fold` | macos/notifier/main.swift:286-300 | the loop keeps the last action of each id, in the order the ids first appear |
| `Notices.BatchInFirstOrder` | macos/notifier/main.swift:286-300 | a batch is in the order its ids were first named |
| `Notices.ActionsDoWhatTheySay` | macos/notifier/main.swift:383-411 | a post shows its note, a removal hides its id, and neither touches another |
| `Notices.FoldPreservesMeaning` | macos/notifier/main.swift:286-300 | from any screen the folded batch leaves what every message applied once in order leaves |
| `Notices.LastActionDecides` | macos/notifier/main.swift:286-300 | applying messages in order shows for each id what its last action says |
| `Notices.DistinctActionsDecide` | macos/notifier/main.swift:286-300 | actions on distinct ids may be applied in any order |
| `StreamConsumer.Consumer.Receive` | macos/notifier/main.swift:460-467 | the lines handled are the complete lines of what was kept and what arrived, the rest is kept, and the history grows by their events |
| `StreamConsumer.Consumer.Handle` | macos/notifier/main.swift:469-499 | one line takes the consumer to its specified state |
| `StreamConsumer.Consumer.Flush` | macos/notifier/main.swift:501-509 | a batch starts exactly when a burst ended, none is on screen and a seq is pending |
| `StreamConsumer.Consumer.Done` | macos/notifier/main.swift:509-515 | a completion acks its own batch, moves it to the displayed and starts a burst that ended meanwhile |
| `StreamConsumer.SplittingIsHarmless` | macos/notifier/main.swift:460-467 | bytes may arrive in any pieces: lines and remainder are those of the whole |
| `StreamConsumer.LinesRebuild` | macos/notifier/main.swift:460-467 | the lines with their newlines and the remainder are the bytes |
| `StreamConsumer.NoNewlineLeft` | macos/notifier/main.swift:460-467 | and no newline is left in a line or the remainder |
| `StreamConsumer.EventOfEachLine` | macos/notifier/main.swift:469-499 | one event a line, in order |
| `StreamConsumer.TwoChunksAreOne` | macos/notifier/main.swift:460-467 | two chunks leave what their bytes in one chunk leave |
| `StreamConsumer.AnySplitting` | macos/notifier/main.swift:460-467 | over any sequence of chunks and completions, joining neighbouring chunks changes nothing |
| `StreamConsumer.SameStreamSameState` | macos/notifier/main.swift:460-467 | so two splittings of one stream leave the same consumer |
| `StreamConsumer.FeedsStayOk` | macos/notifier/main.swift:460-515 | any chunks and completions keep the consumer's invariant |
| `StreamConsumer.AnyFeedsAckInOrder` | macos/notifier/main.swift:460-515 | whatever chunks and completions a new consumer was given, a seq an end has come for keeps it displaying until acked; the next ack exceeds every earlier one and covers only displayed messages; and if more is owed the next batch is everything else received |
| `StreamConsumer.StreamStaysOk` | macos/notifier/main.swift:460-515 | over every stream of increasing seqs and completions, received is displayed, on screen and pending in that order, and the acks separate them |
| `StreamConsumer.AckCoversDisplayed` | macos/notifier/main.swift:501-515 | acks strictly increase, and when one is sent every message received with a seq up to it was in a batch whose display has completed |
| `StreamConsumer.EndedSeqNeverWedges` | macos/notifier/main.swift:479-515 | over every stream, once a `caught_up` or an unreadable row has come at or after a seq, the seq is acked or a batch is on screen |
| `StreamConsumer.CompletionStartsWhatIsOwed` | macos/notifier/main.swift:509-515 | a completion starts the next batch when an end has come for a seq past its ack |
| `StreamConsumer.BatchIsEverythingReceived` | macos/notifier/main.swift:501-509 | a batch that starts is the fold of every message received and not displayed, acked up to the newest seq |
| `StreamConsumer.StartsAfterAnEnd` | macos/notifier/main.swift:501-509 | no batch starts before an end has come since the last one started |
| `StreamConsumer.EndBeforeTheMessageDoesNotFlush` | macos/notifier/main.swift:476-491 | a message after an end that found nothing pending waits for the next end |
| `StreamConsumer.UnreadableRowNeverWedges` | macos/notifier/main.swift:479-491 | over every stream, from the moment an unreadable row is handled until it is acked a batch is on screen |
| `NotifierRuns.StepKeepsInv` | macos/notifier/main.swift:361-515 | every delivery, display of one action, completion, deadline, late landing, commit, signal, restart and crash keeps the invariant: each id shows what the action that last landed for it leaves |
| `NotifierRuns.LifetimeKeepsInv` | macos/notifier/main.swift:541-682 | the invariant holds over every lifetime of the notifier |
| `NotifierRuns.IdShowsItsLastMessage` | macos/notifier/main.swift:501-515 | with crashes, partly displayed batches and redelivery after the last committed ack, once the current run has displayed the log an id shows its last message, if since it was last shown no deadline overtook an action of it and no late one landed |
| `NotifierRuns.ScreenIsEveryMessageOnce` | macos/notifier/main.swift:501-515 | if that is so of every id, the screen is each message applied once in order |
| `NotifierRuns.NoDeadlineNoCause` | macos/notifier/main.swift:361-378 | it is so when every batch was handed over before its deadline |
| `NotifierRuns.StaleOnlyBy` | macos/notifier/main.swift:361-378 | an id falls behind only at a deadline that overtakes its action or when a late action of it lands |
| `NotifierRuns.StaleHasACause` | macos/notifier/main.swift:361-378 | over every lifetime, an id is behind only if one of these happened since it was last shown |
| `NotifierRuns.ShowFreshens` | macos/notifier/main.swift:501-515 | showing an action brings its id up to date and leaves the others |
| `NotifierRuns.LateWasOvertaken` | macos/notifier/main.swift:361-378 | every late action is one a deadline overtook |
| `NotifierRuns.OvertakenIsStale` | macos/notifier/main.swift:361-378 | a deadline does leave behind every id it overtakes that was not shown those rows before |
| `NotifierRuns.DrainedShowsExactly` | macos/notifier/main.swift:501-515 | with the log displayed, an id shows what the log leaves if and only if it is not behind, or the rows it missed leave what it shows |
| `NotifierRuns.DeadlineAcksUnseen` | macos/notifier/main.swift:366-378 | a run from the start in which the deadline acks a notification never shown: the log is displayed and the screen empty |
| `NotifierRuns.LateLandingOutlivesAWithdrawal` | macos/notifier/main.swift:366-410 | the same run continued: the late action lands after its withdrawal and stays up |
| `NotifierRuns.DrainedMeansDisplayed` | macos/notifier/main.swift:501-515 | that is exactly when nothing is undelivered, pending or on screen |
| `NotifierRuns.OnlyNewestRunShows` | macos/notifier/main.swift:653-682 | a batch on screen is the newest run's: of an earlier run only an action its deadline overtook can still land |
| `NotifierRuns.OneRestartPerRun` | macos/notifier/main.swift:653-682 | whatever order the end signals arrive in, a run schedules exactly one restart, once all have arrived and its consumer is idle; no other run is active; the delay is 1 to 30 seconds |
| `NotifierRuns.DelayDoubles` | macos/notifier/main.swift:660-682 | over every lifetime the delay is one second after the first failure in a row and doubles for each further one, up to 30 |
| `NotifierRuns.OverStaysOver` | macos/notifier/main.swift:541-565 | a finished run's consumer never becomes busy again |
| `NotifierRuns.BatchDecides` | macos/notifier/main.swift:286-300 | the rows of a batch decide what each id they name shows |
| `NotifierRuns.LateAckLosesAWithdrawal` | macos/notifier/main.swift:581-602 | why a dead subscription must not commit, in a run from the start: it outlives a crash, commits its ack late, and a second crash leaves a withdrawn notification up |
| `Filing.Trim` | crates/jkb-api/src/review.rs:51-62 | cut to the last character boundary that leaves room for the marker, and whether it was cut |
| `Filing.CutIsGood` | crates/jkb-api/src/review.rs:51-62 | a cut text is valid UTF-8, a prefix of the original and exactly one marker, within the limit, and wastes at most three bytes |
| `Filing.TrimmingTwice` | crates/jkb-api/src/review.rs:51-62 | trimming at one allowance and then a smaller one is trimming once at the smaller |
| `Filing.BoundaryCuts` | crates/jkb-api/src/review.rs:55-59 | the one-byte boundary test finds only places where both sides are valid (section 4 of RFC 3629) |
| `Filing.CutsAreBoundaries` | crates/jkb-api/src/review.rs:55-59 | and every such place passes the test |
| `Filing.BoundaryNear` | crates/jkb-api/src/review.rs:55-59 | backing up ends within three bytes |
| `Filing.Marker` | crates/jkb-api/src/review.rs:48-48 | the marker is 66 bytes of valid UTF-8 |
| `Filing.TrimAll` | crates/jkb-api/src/review.rs:72-80 | the first pass puts every text within its own limit, and says whether one was over |
| `Filing.TrimDetails` | crates/jkb-api/src/review.rs:82-89 | one round of the ladder leaves each scenario and fix as one trim of its original |
| `Filing.Fit` | crates/jkb-api/src/review.rs:69-91 | in place: every text is one trim of its original, scenarios and fixes at the allowance settled on; true exactly when something changed |
| `Filing.Settled` | crates/jkb-api/src/review.rs:81-89 | that allowance is the largest of the ladder at which the filing fits, or the floor |
| `Filing.FittedExactly` | crates/jkb-api/src/review.rs:69-91 | the allowance over sizes: the first of the ladder at which the filing is within 768 KiB, or 256 |
| `Filing.LimitedExactly` | crates/jkb-api/src/review.rs:72-89 | each finding is the original with each of its four texts trimmed once, and nothing else changed |
| `Filing.FittedIsWithinLimits` | crates/jkb-api/src/review.rs:69-91 | every text is valid and within its limit, and the filing is within its size or every scenario and fix is at most 256 bytes |
| `Filing.FittingTwice` | crates/jkb-api/src/review.rs:69-91 | fitting is idempotent |
| `Claims.Store.ClearIf` | crates/jkb-core/src/claim.rs:155-170 | drops a claim only while exactly that owner holds it |
| `Claims.Store.ClaimFor` | crates/jkb-core/src/claim.rs:90-137 | takes a claim that is free or byte-identical and starts the task; an error on a finished one |
| `Claims.Store.PerformStart` | crates/jkb-core/src/transition.rs:86-149 | refused on a finished task and on one another owner holds; an error when the holder only parses as the asker; else started |
| `Claims.Store.PerformAbandon` | crates/jkb-core/src/transition.rs:86-149 | reopens an unfinished task and drops its claim |
| `Claims.Store.PerformOwnerGone` | crates/jkb-core/src/transition.rs:86-149 | records the loss of the owner and drops the claim stored in its canonical spelling |
| `Claims.Store.Commit` | crates/jkb-api/src/lib.rs:3373-3395 | an error, or a task line that would no longer read back, rolls everything back |
| `Claims.Store.Swap` | crates/jkb-api/src/sessions.rs:277-304 | nothing unless the claim is what the caller judged; an error on a finished task; else the owner's |
| `Claims.Store.Start` | crates/jkb-api/src/sessions.rs:335-375 | start as one transaction: taken or kept, located and in the history, or nothing |
| `Claims.Store.Take` | crates/jkb-api/src/sessions.rs:407-424 | the place is tried and undone, then the claim swapped |
| `Claims.Store.Locate` | crates/jkb-api/src/sessions.rs:456-481 | the place is set, and noted when the history does not say it, only while the owner holds the claim |
| `Claims.Store.Abandon` | crates/jkb-api/src/sessions.rs:525-586 | releases exactly the observed claim and reopens, or leaves the task alone |
| `Claims.Store.Claim` | crates/jkb-api/src/tasks.rs:970-1002 | `task.claim` as one transaction, step by step as the lifecycle takes it |
| `Claims.Store.Release` | crates/jkb-api/src/tasks.rs:1009-1019 | drops exactly the named owner's claim |
| `Claims.Store.Judge` | crates/jkb-api/src/claims.rs:158-172 | sorts the owners into those the asker can have proved gone and those it cannot |
| `Claims.Store.Reclaim` | crates/jkb-api/src/claims.rs:144-206 | frees exactly the provable, writable, unfinished claims of the dead owners, reports the rest, all or nothing |
| `Claims.StepChangesClaims` | crates/jkb-api/src/sessions.rs:277-586 | a step ends a claim only by naming its owner, and begins one only by taking it and answering yes |
| `Claims.NoChangesNothing` | crates/jkb-api/src/sessions.rs:277-586 | an operation that errors or answers no changes nothing |
| `Claims.ClaimEndsOnlyByName` | crates/jkb-api/src/sessions.rs:277-304 | over every run, a claim held by an owner ends only at a step that named exactly it as displaced, observed, releasing or dead |
| `Claims.NoSilentTakeover` | crates/jkb-api/src/sessions.rs:277-304 | two owners both take a task only if a step in between named the first |
| `Claims.TakingHolds` | crates/jkb-api/src/sessions.rs:277-304 | a taker answered yes holds the task, unfinished before and in progress now, with its start ending the history; the claim it found was free, its own or named |
| `Claims.OnlyItsTask` | crates/jkb-api/src/sessions.rs:277-586 | an operation on one task leaves every other task alone |
| `Claims.ClaimAnswersExactly` | crates/jkb-api/src/tasks.rs:970-1002 | over the stored task: yes exactly when it is unfinished, free or byte-equal to the owner, and its line still reads back; which errors, and the task it leaves |
| `Claims.TakeAnswersExactly` | crates/jkb-api/src/sessions.rs:407-424 | yes exactly when the place fits, the claim is free or its own, or exactly the displaced owner's, and the task is unfinished; the task it leaves |
| `Claims.StartAnswersExactly` | crates/jkb-api/src/sessions.rs:335-375 | the same for a start that takes; one that keeps, exactly while the named owner holds the task |
| `Claims.LocateAnswersExactly` | crates/jkb-api/src/sessions.rs:456-481 | yes exactly while the named owner holds the task; a note only when the history does not say the place |
| `Claims.ReleaseAnswersExactly` | crates/jkb-api/src/tasks.rs:1009-1019 | yes exactly when its owner held the task, which is then free |
| `Claims.AbandonAnswersExactly` | crates/jkb-api/src/sessions.rs:525-586 | the task it leaves: freed and reopened, freed, or untouched |
| `Claims.RefusalsExactly` | crates/jkb-api/src/sessions.rs:335-586 | what each operation answers to a bad owner or place, a missing task and one it may not write |
| `Claims.ProvableExactly` | crates/jkb-api/src/claims.rs:112-142 | an external owner is never proved gone, nor by a client a process of the daemon's host or a checkout it cannot see |
| `Claims.ReclaimAnswersExactly` | crates/jkb-api/src/claims.rs:144-206 | which claims are reported freed, which unwritable and which owners refused |
| `Claims.ReclaimErrsExactly` | crates/jkb-api/src/claims.rs:144-206 | it errs, changing nothing, exactly for too many or malformed owners or a line that would break |
| `Claims.LatestBranchExactly` | crates/jkb-core/src/transition.rs:294-299 | the branch the history names |
| `Claims.LandTargetExactly` | crates/jkb-core/src/transition.rs:310-329 | the land target the history names since the last abandon |
| `Claims.ReleasedExactlyWhenFree` | crates/jkb-api/src/sessions.rs:525-586 | `abandon` answers `released` exactly when the task is unclaimed afterwards, and exactly when it was unclaimed or held by the observed owner |
| `Claims.ReclaimFreesExactly` | crates/jkb-api/src/claims.rs:176-205 | a claim reported freed is freed if and only if it was stored in canonical spelling; the loss is in its history; every other task is untouched |
| `Claims.RespelledClaimIsReportedFreed` | crates/jkb-api/src/claims.rs:176-205 | a claim stored as `host:007` is reported freed and still held |
| `Claims.RunKeepsCanonical` | crates/jkb-api/src/tasks.rs:236-246 | claims taken through these operations stay in canonical spelling over every run |
| `Claims.CanonicalReclaimIsHonest` | crates/jkb-api/src/claims.rs:144-206 | with canonical claims the ones reported freed are exactly the ones freed |
| `Claims.HistoryNamesThePlace` | crates/jkb-api/src/sessions.rs:335-481 | after a start or a locate that answers yes the history names the branch and land target |
| `Sweep.Removals.Add` | crates/jkb-core/src/removal.rs:126-151 | a new record, pending or already archived, under an id never used before |
| `Sweep.Removals.Reachable` | crates/jkb-api/src/removals.rs:180-186 | yes exactly when a record of that id exists and may be named, an error exactly when one exists and may not, no exactly when none does |
| `Sweep.Removals.CancelPending` | crates/jkb-core/src/removal.rs:231-236 | drops a record only while it is pending |
| `Sweep.Removals.Cancel` | crates/jkb-api/src/removals.rs:251-292 | refused while the sweep lease is held; else drops exactly the named pending records the caller may name and no other, counts each once, and skips exactly the forbidden ones |
| `Sweep.Removals.Archived` | crates/jkb-api/src/removals.rs:193-206 | archives exactly a pending record the caller may name, once |
| `Sweep.Removals.ListAll` | crates/jkb-core/src/removal.rs:171-203 | the pages, read one after the other, are all the records |
| `Sweep.PageExactly` | crates/jkb-core/src/removal.rs:171-186 | a page is the next 64 records at most, full when there are more |
| `Sweep.Removals.LeaseTake` | crates/jkb-api/src/removals.rs:345-354 | taken when free, or while held by exactly the displaced holder; no changes nothing |
| `Sweep.Removals.LeaseRelease` | crates/jkb-api/src/removals.rs:360-368 | dropped only by its holder |
| `Sweep.StepKeepsInv` | crates/jkb-api/src/removals.rs:193-368 | every step keeps the invariant: a sweep in flight holds the lease, lists nothing cancelled and has missed no record as far as its pages go |
| `Sweep.RunKeepsInv` | crates/jkb-api/src/removals.rs:193-368 | it holds in every state of every run |
| `Sweep.OneSweepAtATime` | crates/jkb-api/src/removals.rs:340-354 | at most one sweep is in flight, and it holds the lease |
| `Sweep.CancelledNeverSwept` | crates/jkb-api/src/removals.rs:239-292 | a record a cancel dropped is never again in the store, in a sweep's list, or archived |
| `Sweep.LastPageListsAll` | crates/jkb-core/src/removal.rs:171-186 | records added and dropped meanwhile, a sweep's last page leaves it with every record then in the store |
| `Sweep.BreakingTheLeaseLosesACancel` | crates/jkb-api/src/removals.rs:370-397 | in a run from an empty store, with the lease broken under the live sweep, a cancelled record is still in its list |

## Left out

- The request and response enums and their classification tables; a request here carries its permission class, target and shape.
- The lifecycle, workflow, message-queue, design and investigation engines, beyond the contracts the modelled callers rely on; so also the lifecycle's finishing moves (land, cancel, a stated status), which end a claim by ending the task.
- Concurrent calls, the notifier's supervisor (`Run`, `Subscription`) and sweeps in flight are step relations over values, not classes: aliasing and mutex poisoning are not captured.
- A display that completes from inside the call that starts the batch (`Once` itself is the rule that a batch leaves the screen once, by its completion or its deadline).
- LandGate.ReviewFindings: does not model the error past the size limit on findings examined, because that limit refuses the whole reading and decides nothing about what is counted.
- Liveness: that a batch completes, a restart happens or a lease is released is not claimed.
- How a note is rendered (age, subtitle, banner) and which messages carry no action: a message has an action or none.
- The branch-name, size and text checks of requests.
- Failing database reads and writes inside an operation that would roll it back, except where a failed read decides the answer (`kb.rs`) and a failed undo (`Admission`).
- `kb.tree`'s and `kb.ls`'s choice and order of children: the children of a path are any relation.
- Unicode case folding in `grep` and the splitting of content into lines: parameters.
- Machine integers: byte counts, seqs and ids are unbounded, so saturation near the word size is not modelled.
- The operator's `lease.break`, land leases beyond taking and releasing them, and the record fields a removal carries for git.
- `task.review_file`, `review_record`, sessions' facts and branch listings, sync, ingest, search, staging, timelines and health: conversion or calls into code outside the core.
- Wording of refusals: the kind is modelled, the text is not.
