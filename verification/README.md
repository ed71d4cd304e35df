# Verification of the index, queue and library logic

A Dafny 4.11 project that models the repository's stateful logic and proves what it promises. It stands beside the
code: nothing here is compiled into the product. `dafny verify dfyconfig.toml` checks all of it.

## What is modelled

**The job queue** (`packages/jobqueue`). `JobTypes`, `JobScripts` and `JobInvariants` hold the store's keys, the three
Lua scripts as functions on them, and one invariant of the keys. `JobCreate`, `JobUnsubscribe` and `JobTransition` prove
what each script means and keeps. `JobSystem` is the protocol: clients, any number of workers and any number of
recoveries interleave between the atomic steps, with the stale reads of the Go code as part of a worker's state.
`JobSafety`, `JobSubscriptions`, `JobLogs` and `JobSession` prove its invariants over all runs, the last one for a single
process that starts, crashes and restarts; `JobTraces` shows by concrete runs why its hypotheses are needed. `JobStore`,
`JobRunner` and `JobDrain` are the same scripts, methods and worker loop as classes that change their state in place,
proved against those functions. `JobResolution` is the executor of resolutions (`apps/worker`) and what a delivery to it
comes to. `JobService` adds the canonical request in front. `JobExpiry` is a second, timed model of
the keys of one fingerprint.

**The media rename** (`library_backend.py`). `FileTree` is a file system as a map from paths to nodes, with renames;
`RenamePlanning`, `RenameEffects`, `RenameOutcome` and `RenameSuccess` are about plans, what carrying one out does, the
rows afterwards and when a plan succeeds; `LibraryRename` is the service with its lock, the steps, the faults that can
strike at any of them and the reverse undo.

**Two bounded explorers.** `WorkflowModel`, `WorkflowHelpers`, `WorkflowVisits`, `WorkflowTraversal` and
`WorkflowGuarantees` model the priority-ordered traversal of `workflow_analyzer.py`; `DeliveryDiscovery` models the breadth-first search of
`custom_authorized_source.py`. Pages, responses, label patterns and the clock are arbitrary functions.

**Structures that must agree with a simple meaning.** `HtmlSelection` and `HtmlTree` (tree building and descendant
selectors), `Grouping`, `AggregationPass`, `Aggregation` and `VariantLookup` (search rows to titles, variants and
sources), `LruCache`, `JellyfinItems`, `JellyfinPaging` and `JellyfinRepository` (paged snapshot, cache, views), and
`Retention`. `Wrappers`, `Collections`, `Arithmetic`, `Trimming`, `StableSorting` and `NewestFirst` are shared.

## Findings

These are places where the code does less than one might expect. The code is modelled as it is; each has its concrete
case and, where there is one, the exact condition.

- Partial departures and expiry: a subscriber who leaves a live job to others gives the job the terminal time but not its
  coalesce entry. If that time reaches past the entry's, and only then, a second live job with the fingerprint becomes
  possible; if it is shorter than what the job had left, the job is gone early for the remaining subscribers
  (`JobExpiry`).
- A crash of recovery between its pop and its push loses a live job for good (`JobTraces.RecoveryCanLose`,
  `JobTraces.DyingInHandLoses`, `JobTraces.LostForever`).
- A resolution that was interrupted after its first report is not resumed: delivered again, it fails at that same report,
  whatever its sources would answer (`JobResolution.ProcessResolution`).
- Two processes at once can take a job's log backwards, because the table is checked on an old read
  (`JobTraces.TwoWritersBreakTheTable`, `JobTraces.LateWriteFollowsExactly`).
- A folder rename can fail although the plan found every name free, because the moved folder brings a file along that
  occupies one (`RenameSuccess.FolderMoveCanBlock`); rows of other items, and inactive rows, that named files in the
  moved folder are left stale (`RenameSuccess.BystandersGoStale`, `RenameSuccess.FolderMoveLeavesAStaleRow`).
- The depth limit of the workflow is checked after redirects have been queued, so only the node limit bounds a chain of
  redirects (`WorkflowGuarantees.FollowRedirects`, `WorkflowGuarantees.DeepVisitsOnlyRedirect`).
- Titles whose identities differ only in case or outer spaces share an identifier, and the later one can be left without
  variants (`VariantLookup.CapitalsClash`, `AggregationPass.ClashesLeaveATitleEmpty`). Listed variants are not always found
  again by their identifiers (`VariantLookup.SeasonZeroIsShadowed`, `VariantLookup.SecondTitleIsNotSearched`).
- A padded view name passes the check of the repository's `List` and then lists nothing
  (`JellyfinRepository.PaddedNamesListNothing`); the HTTP route trims it before, so it does not show there.

## Model

| member | source | states |
|---|---|---|
| JobTypes.TransitionTable | packages/jobqueue/store.go:488-508 | The transition table only moves forward, never leaves a terminal state, and always lets a live job fail or be cancelled. |
| JobTypes.TableByRank | packages/jobqueue/store.go:488-508 | Exactly which steps the table permits, by rank: failing or cancelling any live job, ending in part once started, verified or blocked once a source is being checked, else one or two ranks up, and from searching also to the browser. |
| JobTypes.ChangesAreBounded | packages/jobqueue/store.go:488-508 | Along any log that follows the table every state change raises the rank, so there are at most six. |
| JobCreate.LookupsExact | packages/jobqueue/store.go:120-131 | The script's two lookups find exactly the job a key is subscribed to and the live job of a fingerprint; a stale coalesce entry never exists. |
| JobCreate.CreateOrJoinKeeps | packages/jobqueue/store.go:115-192 | Creating, joining, repeating and being refused all keep the store's invariant and undo nothing that was settled. |
| JobCreate.CreateOrJoinMeans | packages/jobqueue/store.go:115-192 | The outcome is decided exactly by the key's subscription, the fingerprint's live job and the room in the queue; a join and a creation leave the stated record, subscribers, event, entries and queue, and the other outcomes change nothing. |
| JobCreate.JoinAdds | packages/jobqueue/store.go:133-151 | A key without an entry is never in the subscriber set, so the branch of a join that adds nothing is unreachable without expiry. |
| JobUnsubscribe.SubscribedByEntry | packages/jobqueue/store.go:325-331 | An entry names a job exactly when its key subscribes to it, so the branch in which SREM removes nothing is unreachable without expiry. |
| JobUnsubscribe.UnsubscribeKeeps | packages/jobqueue/store.go:317-356 | Every departure keeps the store's invariant and undoes nothing. |
| JobUnsubscribe.UnsubscribeMeans | packages/jobqueue/store.go:317-356 | Who is missing, who is not subscribed and who leaves; the record, the set, the entry, the flag, the release and the event after each, the last three only for the last subscriber of a live job. |
| JobTransition.TransitionKeeps | packages/jobqueue/store.go:396-433 | Every write, from however old a read, keeps the store's invariant; it never touches an ended job. |
| JobTransition.TransitionMeans | packages/jobqueue/store.go:396-433 | A write is refused exactly for a missing, a cancelled or an ended job and then changes nothing; otherwise it leaves the stated record and event and, if it ends the job, the release. |
| JobSafety.StepKeeps | packages/jobqueue/store.go:115-561 | Each step of clients, any number of workers and any number of recoveries keeps the one system invariant and undoes nothing. |
| JobSafety.RunKeeps | packages/jobqueue/store.go:404-418 | Along every run a job that has ended keeps its state, progress, result and log for good, and a log's last event is the stored state and progress. |
| JobSafety.NothingLostOrDoubled | packages/jobqueue/store.go:518-561 | In every reachable state a live job is in exactly one of queue, processing and the hands of recoveries, and no identifier is anywhere twice. |
| JobSafety.OneLiveJobPerFingerprint | packages/jobqueue/store.go:115-192 | In every reachable state two live jobs never share a fingerprint. |
| JobSubscriptions.SubscriptionsMatchEntries | packages/jobqueue/store.go:322-351 | In every reachable state subscriptions and idempotency entries are the same relation, a live job has a subscriber, and all subscriber counts add up to the number of entries. |
| JobLogs.MoveFollows | packages/jobqueue/store.go:435-508 | A log that moves from its state to one the table allows goes on following the table. |
| JobSession.SessionKeeps | packages/jobqueue/runner.go:38-100 | Starting, recovering, serving, stopping and crashing, one process at a time, keep the bounds, the single holders and the logs. |
| JobSession.SessionBounds | packages/jobqueue/runner.go:38-100 | With one process at a time no job is held by two workers, at most eight are in flight, and queue and flight together never exceed the limit by more than eight, though recovery ignores the limit. |
| JobSession.SessionLogs | packages/jobqueue/runner.go:121-151 | With one process at a time every job's log follows the transition table over any crashes and redeliveries, so its state changes at most six times. |
| JobTraces.TwoWritersBreakTheTable | packages/jobqueue/store.go:442-448 | A reachable run with two processes in which a late write takes a job backwards: the single writer is needed. |
| JobTraces.LateWriteFollowsExactly | packages/jobqueue/store.go:404-418 | A log that follows the table goes on following it after a write exactly if the job has ended or the table allows the written state after the stored one. |
| JobTraces.LostForever | packages/jobqueue/store.go:536-561 | A job that nobody has and that is nowhere on its way is never delivered again, whatever happens afterwards. |
| JobTraces.DyingInHandLoses | packages/jobqueue/store.go:539-556 | Dying with an identifier in hand, before or after its job was read, loses nothing exactly if the job has ended, and abandons it exactly if no worker has it. |
| JobTraces.RecoveryCanLose | packages/jobqueue/store.go:539-556 | Reachable runs to both points at which a death abandons a live job. |
| JobStore.Store.CreateOrJoin | packages/jobqueue/store.go:194-241 | An invalid request is refused and changes nothing; otherwise the method does what the script's meaning says and returns the job it read back or the full-queue error. |
| JobStore.Store.Unsubscribe | packages/jobqueue/store.go:358-394 | An invalid key is refused and changes nothing; otherwise the method does what the script's meaning says and reports exactly the errors of its outcomes. |
| JobStore.Store.Transition | packages/jobqueue/store.go:435-486 | Undisturbed, a transition succeeds exactly when its arguments are valid, the job exists and the table allows it; otherwise nothing changes. |
| JobStore.Store.Claim | packages/jobqueue/store.go:518-527 | The newest identifier moves from the end of the queue to the front of processing. |
| JobStore.Store.Ack | packages/jobqueue/store.go:529-534 | One occurrence leaves processing, and nothing else. |
| JobStore.Store.Recover | packages/jobqueue/store.go:536-561 | Processing is emptied and exactly its live jobs are put, in order, at the far end of the queue. |
| JobStore.RequestsAreWritten | packages/jobqueue/types.go:126-145 | When a request is valid: fingerprint, key and payload. |
| JobStore.KeysAreWritten | packages/jobqueue/types.go:48 | Which characters and lengths a subscriber key has. |
| JobStore.NewestIsClaimedFirst | packages/jobqueue/store.go:179 | A created job is the next one claimed, whatever was waiting: the queue is newest-first. |
| JobRunner.Runner.Process | packages/jobqueue/runner.go:102-152 | Processing a claimed identifier is a run of the worker machine that writes, for a live job, exactly the acceptable reports of its executor and then, only if they left it live, the forced failure: one event each, in order, and the record of the last; a returned job has ended and is acknowledged, and an interrupted live one stays in processing. |
| JobRunner.Runner.Execute | packages/jobqueue/runner.go:121-134 | The executor's reports are written one after the other, exactly those the store accepts after the ones before; the refused ones change nothing. |
| JobRunner.EveryReportIsHeard | packages/jobqueue/runner.go:178-190 | If each report is acceptable after the ones before it, all of them are written. |
| JobRunner.OrdinaryResolution | apps/worker/internal/resolution/executor.go:57-115 | A resolution that reports the cache, the preferred source and a verified result ends verified, with that result and nothing forced. |
| JobResolution.TrySources | apps/worker/internal/resolution/executor.go:77-146 | Sources are tried in order up to the first good one; the backup state is reported once, before the second try; the end is verified exactly if one is good, with the link of the first such, and blocked exactly if all are refused for safety, and every report is accepted. |
| JobResolution.Resolve | apps/worker/internal/resolution/executor.go:42-147 | What the executor reports for every kind, state, request and selection; it goes on after its first report exactly for a queued job. |
| JobResolution.ProcessResolution | packages/jobqueue/runner.go:102-173 | After one undisturbed delivery a fresh resolution has the state and result its sources decide, and every other one has failed: also one delivered again after it had reported anything. |
| JobRunner.CancelledIsAcknowledged | packages/jobqueue/runner.go:121-133 | An executor can return as cancelled exactly if it asked after the job was flagged; the delivery is then acknowledged without another look. |
| JobRunner.Runner.Settle | packages/jobqueue/runner.go:135-173 | After an executor returns or fails the job is ended, by force if need be, unless it is gone, which is the only error; undisturbed the forced transition never fails. |
| JobDrain.DownIsAtRest | packages/jobqueue/runner.go:38-100 | Whenever the process is down, every live job is on one of the two lists, once. |
| JobDrain.ReachableAtRest | packages/jobqueue/store.go:518-561 | After any race every live job is on one of the two lists, once, as soon as no recovery has anything in hand. |
| JobDrain.Turn | packages/jobqueue/runner.go:81-100 | One turn of the worker loop ends the job of one identifier and takes it off the queue for good, whatever else is being processed. |
| JobDrain.Drain | packages/jobqueue/runner.go:81-173 | From such a state, recovery and one sequential loop with a returning executor end with both lists empty and every stored job ended, in as many turns as there were deliveries. |
| JobService.CanonicalMeans | apps/api/internal/jobs/service.go:53-65 | A request is refused exactly for a blank identifier or a blank quality that it has; otherwise its fields are kept but for the white space around them. |
| JobService.PaddedRequestsAreTheSame | apps/api/internal/jobs/service.go:53-65 | Spaces around the fields of a request, each its own, change neither whether it is accepted nor its canonical form. |
| JobService.RequestsShareExactly | apps/api/internal/jobs/service.go:35-72 | Two accepted requests with live jobs share one job exactly if they are equal up to surrounding spaces. |
| JobService.AnswerMatchesRequest | apps/api/internal/jobs/service.go:35-51 | Whatever job answers a request, created, joined or its own earlier one, carries that request's canonical payload. |
| JobExpiry.DefaultTimes | packages/jobqueue/store.go:61-79 | The job and terminal times that hold when none, or too long a terminal time, is given. |
| JobExpiry.TimesGiven | packages/jobqueue/store.go:115-433 | Which deadline the hash, the set, the events, the entry and the slot get on arriving, going on, ending and leaving. |
| JobExpiry.TerminalCanOutlast | packages/jobqueue/store.go:61-79 | The normalised terminal time exceeds the job time exactly when jobs live under ten minutes and the given terminal time is missing or longer than theirs. |
| JobExpiry.StepKeepsTogether | packages/jobqueue/store.go:143-146 | At every step a job's hash, event list and non-empty subscriber set share one deadline, and no event list is left without one. |
| JobExpiry.StepKeepsCover | packages/jobqueue/store.go:352-354 | A step keeps every live job covered by its coalesce entry exactly if it is not a departure that gives the job a time past the entry's. |
| JobExpiry.RunKeepsDeadlines | packages/jobqueue/store.go:352-354 | Along every run that holds; and as long as nobody leaves a live job to others, the coalesce entry shares the very deadline. |
| JobExpiry.OneLiveWithoutOverreach | packages/jobqueue/store.go:115-192 | With expiry and any number of departures, runs in which none reaches past the entry never have two live jobs with one fingerprint. |
| JobExpiry.DepartureSplitsDeadlines | packages/jobqueue/store.go:352-354 | After an early departure, the first or a later one, a second live job can be made, after some wait, exactly when the terminal time reaches past the entry's deadline. |
| JobExpiry.DepartureCutsLifeShort | packages/jobqueue/store.go:352-354 | It removes the job early, unended, from its other subscribers exactly when the terminal time is shorter than what the job had left. |
| JobExpiry.TwoLiveJobs | packages/jobqueue/store.go:352-354 | A run with the default times that ends with two live jobs of one fingerprint. |
| FileTree.RelocateMoves | library_backend.py:799 | Renaming a file or folder moves every node below it and nothing else; nothing is lost, overwritten or merged. |
| FileTree.RelocateBack | library_backend.py:822-828 | Renaming back restores the tree exactly. |
| FileTree.OsRenameMeans | library_backend.py:799 | A rename on disk succeeds exactly if there is something to rename and the new name lies in a folder, outside it, and is free, a file for a file, or an empty folder for a folder; then everything below moves, the rest stays, and only what gave way is lost. |
| RenamePlanning.DecimalIsInjective | library_backend.py:757 | Different duplicate numbers are written differently. |
| RenamePlanning.DecimalSpells | library_backend.py:757 | The number in a duplicate name is written in decimal digits that spell it, without leading zeros. |
| RenamePlanning.ChooseDestination | library_backend.py:754-758 | The search for a free name ends, because the names tried differ and only finitely many are occupied, and finds the first free one. |
| RenamePlanning.PlanGuarantees | library_backend.py:738-760 | Planned destinations lie in the target folder, differ pairwise, and each is free unless the file is already there. |
| RenamePlanning.PlanIsUnique | library_backend.py:712-761 | A tree, its rows and the item leave one plan. |
| RenameEffects.EverythingIsSomewhere | library_backend.py:798-810 | After any number of steps every node of the old tree is found unchanged in its own place, and nothing else is there. |
| RenameEffects.RowsUpdated | library_backend.py:814-816 | The updates change exactly the rows of the plan, each to its own destination. |
| RenameOutcome.RowsNameTheirFiles | library_backend.py:811-817 | After a rename that went through, every row of the item names the file it named before, with its content. |
| RenameOutcome.SharedFilesGoWrong | library_backend.py:739-760 | Two rows that named one file cannot both name it afterwards. |
| RenameSuccess.SucceedsExactlyWhenClear | library_backend.py:784-810 | A plan for distinct files whose folder is free to move can be carried out exactly when at each file's turn its destination is its own place, was free in the moved folder, or has been vacated. |
| RenameSuccess.InPlacePlansSucceed | library_backend.py:791-810 | Without a folder move every plan for distinct files goes through. |
| RenameSuccess.FolderMoveCanBlock | library_backend.py:756 | A concrete library in which the plan takes a name for free that the moved folder then brings along, so that the rename fails undisturbed. |
| RenameSuccess.BystandersFollowTheFolder | library_backend.py:799 | Files that are not renamed move with the folder and only with it. |
| RenameSuccess.BystandersGoStale | library_backend.py:814-817 | A row that is not updated but named a file in the moved folder names nothing afterwards. |
| RenameSuccess.FolderMoveLeavesAStaleRow | library_backend.py:798-817 | Two items in one folder: the first one's rename goes through, and the second one's row, unchanged, names nothing afterwards. |
| LibraryRename.LibraryService.Execute | library_backend.py:794-832 | It goes through exactly when the plan can be carried out and no fault strikes; on a fault at any step, folder, file, stat or database, tree, rows and item are exactly as before. |
| LibraryRename.LibraryService.Undo | library_backend.py:818-831 | Undoing the renames made so far in reverse restores the tree before them. |
| LibraryRename.LibraryService.Revalidate | library_backend.py:784-792 | In place, the second look refuses exactly when some destination is another existing file. |
| LibraryRename.LibraryService.RenameLocked | library_backend.py:771-792 | A writable item with a plan is refused for its folder exactly when the plan moves it and the target exists; a refusal of any kind changes nothing. |
| LibraryRename.LibraryService.RenamePlan | library_backend.py:712-761 | The loop that grows `used` and `moves` yields the unique plan, or the error of the first thing that is missing. |
| LibraryRename.LibraryService.RenameMatchedFiles | library_backend.py:767-834 | All or nothing for the whole call, the lock given back in every case; success exactly when unlocked, writable, executable and undisturbed. |
| WorkflowModel.RedirectStatuses | workflow_analyzer.py:538 | Which answers are followed as redirects. |
| WorkflowModel.SameVisit | workflow_analyzer.py:509-512 | When two actions are one visit: address, method, source page and state. |
| WorkflowHelpers.PickChooses | workflow_analyzer.py:161-171 | Picking takes only actions that pass, repeats none, and below its maximum leaves out only repetitions. |
| WorkflowHelpers.FirstFewIsPick | workflow_analyzer.py:161-171 | There is one choice of passing actions in order in which each identity appears once and something is left out only as a repetition or after as many as allowed: the one that picking makes. |
| WorkflowHelpers.PickActions | workflow_analyzer.py:161-171 | The loop with its seen-set computes that choice. |
| WorkflowHelpers.MergeKeepsAll | workflow_analyzer.py:174-184 | Merging loses no action and repeats none. |
| WorkflowHelpers.MergeActions | workflow_analyzer.py:174-184 | The loop over groups computes that merge. |
| WorkflowHelpers.MergeTwo | workflow_analyzer.py:571 | A visit's merge of server and rendered actions is the loop's merge of those two groups. |
| WorkflowHelpers.OverallMeans | workflow_analyzer.py:627-639 | The overall status is success exactly if some result is one, and blocked exactly if all of a non-empty list are. |
| WorkflowTraversal.TakeBest | workflow_analyzer.py:507-508 | The entry taken is the first of those with the best priority, and the others keep their order within each priority. |
| WorkflowTraversal.Traverse | workflow_analyzer.py:497-625 | The loop ends; its results are those of its visits, plus one exactly when entries are left; entries come off by priority and, within one, in the order found, each key being visited the first time; with nothing left waiting the visits are closed under what they find. It times out exactly at the first late look at the clock, and stops with entries left only then or at the node limit. |
| WorkflowTraversal.LimitsAreReported | workflow_analyzer.py:619-625 | Entries left waiting are reported as nothing found, with the limit that was reached. |
| WorkflowVisits.VisitGoesOn | workflow_analyzer.py:547-617 | A timely visit whose page does not block queues one entry for each wanted action of the branch, in order, one deeper, with its own quality or the inherited one; it ends instead only with a file behind the download control, on a failed page without actions, at the depth limit, or for want of such an action. |
| WorkflowVisits.WantedActionsAreTaken | workflow_analyzer.py:608-612 | Next entries are suitable actions of the page that lead elsewhere in the wanted quality, at most eighteen; below that number no such action is missed. |
| WorkflowVisits.BlockedExactly | workflow_analyzer.py:542-569 | A visit is blocked exactly if it got a page and that page, as fetched or as rendered, blocks, and then says by what. |
| WorkflowVisits.VisitStops | workflow_analyzer.py:513-541 | Forms are not submitted, late visits end the traversal, final files are reported and end it only at the best priority, and redirects are followed one deeper in the same quality. |
| WorkflowVisits.FileTypes | workflow_analyzer.py:269-300 | Which answered type is a final file, under which further evidence, and that nothing outside 2xx is one. |
| WorkflowVisits.PagesAreNoFiles | workflow_analyzer.py:269-300 | A type that mentions HTML is never a final file. |
| WorkflowVisits.RootsMean | workflow_analyzer.py:477-497 | The roots are a HubCloud page's own step, or the first twelve labelled links of the wanted quality, or for want of those the first twelve download links of no other quality; each with its own, the selected or the unknown quality. |
| WorkflowGuarantees.SuccessesAreVerified | workflow_analyzer.py:527-537 | Every success carries an address that passed the final-file test, and no other result carries one. |
| WorkflowGuarantees.EveryVisitAccountedFor | workflow_analyzer.py:513-617 | Every visit either reports exactly one result or is expanded. |
| WorkflowGuarantees.ReportCounts | workflow_analyzer.py:601-625 | Results are the visits that were not expanded, and one more exactly when entries are left; then the whole is never called blocked. |
| WorkflowGuarantees.DepthIsBounded | workflow_analyzer.py:538-540 | The i-th visit is at most i deep, and an entry past the depth limit was found by a redirect. |
| WorkflowGuarantees.DeepVisitsOnlyRedirect | workflow_analyzer.py:604-607 | At the depth limit and below it a visit finds something exactly if it is a timely request, no final file and a redirect with a target. |
| WorkflowGuarantees.FollowRedirects | workflow_analyzer.py:538-541 | A web of redirects in which every never-late traversal makes as many visits as the node limit allows, at depths from zero up and so past the depth limit, and reports only that limit. |
| WorkflowGuarantees.RedirectRunsAreChains | workflow_analyzer.py:500-541 | In it the visits of a traversal that is not late are the addresses of the chain in order, and the next address is always waiting. |
| WorkflowGuarantees.RedirectsPassTheLimit | workflow_analyzer.py:538-541 | The chain up to any length within the node limit is a trail the traversal's rules allow. |
| WorkflowGuarantees.QualityNeverDrifts | workflow_analyzer.py:608-617 | Everything that is ever queued, visited, left or dropped, carries the one wanted quality exactly if all roots do, and then so does every report. |
| WorkflowGuarantees.OrdinaryRootsMatch | workflow_analyzer.py:477-497 | The roots of every page that is not a HubCloud page carry it. |
| DeliveryDiscovery.DepthLimits | custom_authorized_source.py:655 | Two levels when not configured, else what is configured between none and three. |
| DeliveryDiscovery.BestLinks | custom_authorized_source.py:672-684 | At most twelve new links are followed, without repetition, matches first and otherwise in the order of the page; whatever is left out comes after all of them, and nothing is left out below twelve. |
| DeliveryDiscovery.Discover | custom_authorized_source.py:655-688 | Visited addresses are distinct, nondecreasing in depth and each at the least depth it was enqueued at; at most 1+12+144+1728; an answer ends at a match, and everything nearer was swept before it. |
| DeliveryDiscovery.WorkIsBounded | custom_authorized_source.py:655 | The work bound for every depth the configuration allows. |
| DeliveryDiscovery.SearchIsExact | custom_authorized_source.py:647-688 | Where no page within reach has more than twelve different links, an answer is found exactly when some address within the limit delivers, and it is one nearest to the start. |
| HtmlSelection.DescendantsMean | custom_authorized_source.py:91-96 | The recursive descendants of a node are exactly the nodes below it in the tree. |
| HtmlSelection.SelectAll | custom_authorized_source.py:124-138 | The picked nodes are, each once, exactly those reached by a chain of strict descendants that matches some selector's parts. |
| HtmlTree.SelfCloseKeeps | custom_authorized_source.py:73-76 | A self-closing tag adds one node and leaves the current node current, void or not. |
| HtmlTree.NearestIsAbove | custom_authorized_source.py:78-83 | What an end tag closes is the nearest open node with its tag, never the root. |
| HtmlTree.TreeBuilder.StartTag | custom_authorized_source.py:67-71 | Adds a child to the current node and keeps the tree linked with a current, non-void node. |
| HtmlTree.TreeBuilder.EndTag | custom_authorized_source.py:78-83 | The climbing loop closes that nearest node, or nothing. |
| HtmlTree.MarkupIsReadBack | custom_authorized_source.py:61-88 | Feeding well-nested markup yields a tree that is that markup, numbered in document order, and nothing else. |
| Grouping.MissingCompletes | content_aggregation.py:163-174 | Adding what is missing keeps the list and appends exactly the non-empty values it lacks, each once and in order of first appearance. |
| Grouping.GroupedSources | content_aggregation.py:167-171 | A variant's sources are the first rows with each source identifier among those of its title and key, priorities strictly rising. |
| Grouping.LongerInputExtends | content_aggregation.py:145-179 | More rows keep the earlier titles in their places, each with its identifier and heading; languages, variants and each variant's qualities and sources are the beginning of the new ones. |
| Aggregation.Aggregate | content_aggregation.py:136-179 | The one pass gives the group-by of the rows, in order of first appearance, exactly when no two titles share an identifier and a variant key; in any case each title lists, in order and under their identifiers, the keys it was the first to use, says what its rows and those of its variants say, sources rise in priority and totals count distinct adapters. |
| Aggregation.TitlesSayTheirRows | content_aggregation.py:148-174 | Clash or not, a title has the heading of its first row and lists exactly the non-empty languages of its rows, each once, in order of first appearance. |
| Aggregation.VariantsSayTheirRows | content_aggregation.py:158-171 | Clash or not, a listed variant has the size and first qualities of the first row with its title identifier and key, then exactly what the later ones add, none twice, in order; its sources are the first rows with each source identifier. |
| Aggregation.SourcesSayTheirRows | content_aggregation.py:167-171 | Each listed source is made from the row at its priority, which has its variant's key and title identifier. |
| AggregationPass.ClashesLeaveATitleEmpty | content_aggregation.py:158-166 | A title ends up without a variant exactly if each of its rows uses a key that another title with its identifier used first. |
| VariantLookup.SecondTitleIsEmpty | content_aggregation.py:158-166 | For instance the second of two clashing titles with one row each. |
| VariantLookup.CapitalsClash | content_aggregation.py:15-17 | Identifiers fold case, so one film whose media type is capitalised in one of two rows does clash. |
| VariantLookup.FindVariant | content_aggregation.py:207-211 | The first variant with its identifier in the first title with its own, if there is one. |
| VariantLookup.ListedVariantsAreFound | content_aggregation.py:207-211 | In the grouping a listed variant is found again exactly when no earlier title of the rows makes its content identifier and no earlier key of its title its variant identifier. |
| VariantLookup.AggregatedVariantsAreFound | content_aggregation.py:207-211 | Of what aggregation lists for any rows, clash or not, a variant is found again exactly when no earlier title of the rows makes its content identifier and none of the earlier keys its title was the first to use makes its variant identifier. |
| VariantLookup.SeasonZeroIsShadowed | content_aggregation.py:15-17 | A release of season zero is listed beside one without a season, but looking it up finds the other, because the identifier writes both numbers alike. |
| VariantLookup.SecondTitleIsNotSearched | content_aggregation.py:207-211 | The release of the second of two titles that share an identifier is listed, but looking it up finds nothing. |
| VariantLookup.Failover | content_aggregation.py:214-222 | Tries sources in priority order, which is their listed order, up to the first that verifies, and marks exactly the tried ones. |
| LruCache.HitsAreCurrent | runtime_support.py:21-60 | After any run a cache is within its limit with distinct keys, and every hit is the value last set. |
| LruCache.SmallerIsIncluded | runtime_support.py:21-60 | For one shared run of set, get, delete and clear the smaller cache is an order-preserving part of the larger one, with equal values. |
| LruCache.RecentlyUsedIsKept | runtime_support.py:26-37 | A value that was set, or read and found, stays available while fewer than the limit of other keys have been used since. |
| LruCache.BoundedCache.SetItem | runtime_support.py:32-37 | The in-place update and eviction loop leaves exactly the newest rows. |
| LruCache.BoundedCache.GetItem | runtime_support.py:26-30 | Gives the value and makes its row the newest; a missing key changes nothing. |
| LruCache.BoundedCache.DeleteItem | runtime_support.py:39-41 | Removes the row; a missing key is refused and changes nothing. |
| JellyfinItems.ValidItemsMean | apps/api/internal/library/model.go:51-94 | Which items are valid: names, dates, state and missing flag, numbers by type, server data. |
| JellyfinItems.MappedItemsAreValid | apps/api/internal/library/jellyfin_map.go:8-70 | A supported record is refused exactly for an unusable identifier, title or number; the closing validation never refuses, and every item made passes it. |
| JellyfinItems.MappedItemsTell | apps/api/internal/library/jellyfin_map.go:21-63 | What an item says of its record: type, title, season and episode by type, year, dates, identifiers and server reference. |
| JellyfinPaging.PagesAccepted | apps/api/internal/library/jellyfin_client.go:213-225 | A page is accepted exactly if it is the one asked for, is no longer than asked for and stays within an allowed total. |
| JellyfinPaging.WhatIsRead | apps/api/internal/library/jellyfin_client.go:90-101 | Without configured libraries the whole server is read as one; otherwise the configured ones are. |
| JellyfinPaging.ReadLibrary | apps/api/internal/library/jellyfin_client.go:101-128 | One library takes at most as many requests as its allowed items need pages, whatever the server answers; a fixed one that fits is read completely. |
| JellyfinPaging.Snapshot | apps/api/internal/library/jellyfin_client.go:90-145 | From a fixed server it succeeds exactly when every library and the items together fit and no record is broken, having read every record; the list is sorted and within the limit, each of its items says what the last record with its identifier says, and every such record has one. |
| JellyfinPaging.CollectIsTheLast | apps/api/internal/library/jellyfin_client.go:108-119 | The items are those of the supported records, each by the last record with its identifier. |
| JellyfinPaging.RecordsAreListed | apps/api/internal/library/jellyfin_client.go:108-139 | Of accepted records, the listed items are those of the last supported record with each identifier, and say what it says. |
| JellyfinPaging.ListingIsUnique | apps/api/internal/library/jellyfin_client.go:130-139 | Whatever order the map gives its items in, the sorted list is the same. |
| JellyfinPaging.ListedItemsPass | apps/api/internal/library/jellyfin_client.go:130-139 | Every listed item is valid and no identifier is listed twice. |
| JellyfinRepository.ClientAnswersArePresentable | apps/api/internal/library/jellyfin_repository.go:80-92 | What the client reads always passes the repository's own checks. |
| JellyfinRepository.Repository.Snapshot | apps/api/internal/library/jellyfin_repository.go:64-100 | The source is asked exactly when the cache is not fresh; only a presentable answer replaces the cache, and a failure leaves it as it was. |
| JellyfinRepository.Repository.List | apps/api/internal/library/jellyfin_repository.go:33-62 | A listing holds exactly the included items of the cached answer, each once and in the view's order, with their summary. |
| JellyfinRepository.ResponseIsForced | apps/api/internal/library/jellyfin_repository.go:41-61 | An answer leaves one response to a view's name. |
| JellyfinRepository.Summarize | apps/api/internal/library/repository.go:210-223 | The counts are those of the views; movies and television part the items. |
| JellyfinRepository.NamesStandForViews | apps/api/internal/library/repository.go:88-103 | A name stands for a view exactly if, trimmed, it is one of the four. |
| JellyfinRepository.ViewsList | apps/api/internal/library/repository.go:225-238 | Which valid items each view lists. |
| JellyfinRepository.ViewsAreSorted | apps/api/internal/library/repository.go:240-252 | The recent view is newest first, ties and all other views in order of folded title and then of identifier. |
| JellyfinRepository.PaddedNamesListNothing | apps/api/internal/library/repository.go:90-103 | A name with surrounding spaces is accepted and lists nothing; names list what their view includes exactly when they have none. |
| Retention.KindsOfBackup | apps/api/internal/recovery/recovery.go:22-29 | The four kinds of artifact. |
| Retention.ArtifactsMean | apps/api/internal/recovery/recovery.go:163-180 | An artifact is accepted exactly with a valid name, kind and digest and no negative size, and only its digest changes, to lower case. |
| Retention.NamesAndDigests | apps/api/internal/recovery/recovery.go:163-187 | Which characters and lengths identifiers and digests have. |
| Retention.NormalizePlan | apps/api/internal/recovery/recovery.go:61-87 | A plan is accepted exactly when its fields and artifacts are valid and artifact names differ; its artifacts come out in lower-case digests, in order of name. |
| Retention.LimitsOfPlans | apps/api/internal/recovery/recovery.go:61-110 | Acceptable plans and policies by their limits. |
| Retention.NormalizingTwice | apps/api/internal/recovery/recovery.go:61-87 | Normalising a normalised plan changes nothing. |
| Retention.PlanRetention | apps/api/internal/recovery/recovery.go:89-130 | Accepted exactly for a valid policy, a time and acceptable plans with distinct identifiers; keep and delete together are the newest-first order, kept exactly among the newest few or the young enough. |
| Retention.ListingOrderIsIrrelevant | apps/api/internal/recovery/recovery.go:113-118 | The order in which plans are given changes nothing. |
| Retention.DecisionIsForced | apps/api/internal/recovery/recovery.go:120-129 | The order, the policy and the time leave one decision. |
| Retention.PlanningAgainAgrees | apps/api/internal/recovery/recovery.go:89-130 | Deleting and planning again later keeps what planning later on everything would; at the same time nothing more is deleted. |

## Left out

- Redis transport, network errors between two calls, context timeouts and JSON decoding: a script or list command happens or it does not.
- Expiry in the main queue model: all keys stay, except in `JobExpiry`, which has one fingerprint and neither queue nor cancel flags.
- SHA-256, JSON encoding and random identifiers: encodings and digests are arbitrary functions, injective where a statement says so, and new identifiers are fresh.
- JobStore.Store.Transition: the white space and the length of messages are not normalised, and validity of JSON is an arbitrary predicate.
- JobStore.Store.CreateOrJoin: validity of JSON is an arbitrary predicate, and lengths are counted in characters.
- JobTraces.LostForever: the crash between recovery's pop and push is not a step of `JobSession`; its theorems hold without it, and this trace shows what it costs.
- JobSession.SessionBounds: one process at a time; `JobSafety` has no such hypothesis, and `JobTraces` shows where it is needed.
- JobRunner.Runner.Process: an executor that claims a cancellation is acknowledged as in the code, but is no run of the worker machine, in which it must have been told; undisturbed nobody tells it.
- JobResolution.ProcessResolution: undisturbed, so no cancellation and no interruption strikes; the fields of a result are the state, the attempts and the link, and whether a code asks for a quality is only in the message.
- JobDrain.Drain: no clients and no second worker while it runs.
- Symlinks, case-insensitive file systems and processes that change files during a rename; the checks of `rename_matched_files` that only concern symlinks.
- RenameEffects.RowsUpdated: the size, time and fingerprint columns that the update also writes.
- RenameSuccess.InPlacePlansSucceed: the renames on disk; the row update can still fail, for instance on the unique fingerprint column, and is then undone like any other fault.
- LibraryRename.LibraryService.Revalidate: the symlink and root-escape checks of the same loop.
- LibraryRename.LibraryService.WriteRows: the size, time and fingerprint columns and the scan time are not modelled; a transaction takes effect as a whole or not at all.
- LibraryRename.LibraryService.Undo: an undo rename that itself fails is not modelled; the promise to restore is for undo renames that succeed.
- Safe media names, suffixes and extensions: a row comes with its stem and its extension.
- Library scans, which can leave old rows active and move fingerprints between items.
- The execution log, the sizes and file metadata of workflow results and the message of a successful overall report.
- Label patterns, HTML tokenising, quality, size and language detection: arbitrary functions or fields of a row.
- Fetching, rendering, DNS checks and the browser worker: arbitrary answers.
- DeliveryDiscovery.Discover: the redirect chain that is appended to the reported trail, and the kind of the answer.
- HtmlTree.TreeBuilder: nodes are numbers into one list that the builder replaces, not linked objects, so sharing of nodes is not captured.
- HtmlSelection.SelectAll: selectors come split at commas and spaces, and matching one part against one node is an arbitrary predicate.
- Aggregation.Aggregate: titles and variants are values in lists, updated at their places, not shared objects; the deriving of identity, key and labels from a row's text is outside.
- The old clients' one-tile projection of aggregated titles.
- LruCache.BoundedCache: the lock is held throughout each call, so calls are taken one after another.
- JellyfinItems.MapItem: provider identifiers, of which a map with two spellings of one key could give either, come looked up; lengths are counted in characters where the code counts bytes.
- JellyfinPaging.Snapshot: transport, status codes and decoding are one refusal; a page comes decoded.
- The fixture and legacy library repositories, HTTP handlers, admin, audit, health and diagnostics: small validators without a hard property.
- Restore plans and artifact verification: each is one check after another.
- `web_app.py`: routes, host-specific resolvers and prefetch slots.
