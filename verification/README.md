# Etok in Dafny

Etok runs terraform on Kubernetes. A *workspace* has a queue of *runs*; two controllers, one for workspaces
and one for runs, see to it that one state-changing command at a time works on a workspace. Around that sit an
archiver that ships a terraform module to the cluster, a backup of terraform state, and a GitHub app that turns
pull-request checks into runs.

This project models those parts and proves what they are for. Operations that the source carries out by changing
objects or slices are methods and classes here, each proved equal to a function on values; the theorems are about
those functions, over every input or over every state a system of interleaved steps can reach.

| area | modules |
|---|---|
| queue of a workspace | `Slices`, `Commands`, `CombinedQueue`, `WorkspaceQueue`, `Approvals`, `WorkspaceController` |
| life of a run | `Conditions`, `RunLifecycle`, `RunOutcomes`, `RunController` |
| both controllers together | `Cluster`, `Fifo`, `ApprovalGate`, `Timeouts`, `Streaming`, `LivePods`, `LivePodsWitness`, `StaleReads` |
| ignore files | `Regex`, `Glob`, `IgnoreRules`, `GlobLaws` |
| archive | `Paths`, `Modules`, `Archive`, `ArchiveLaws`, `ModuleArchive` |
| GitHub checks | `Text`, `CheckRun`, `CheckRunProtocol`, `CheckRunUpdate` |
| state backup | `StateBackup` |
| clone cache | `RepoManager` |

`dafny verify dfyconfig.toml` checks everything.

## How the systems are set up

`Cluster` has one workspace under study and any number of runs, also of other workspaces. Its steps are: create and
delete a run, set an annotation, delete the workspace, let the workspace controller's cache catch up with one run,
reconcile the workspace from that cache, reconcile a run from *any* earlier status of the workspace or from its not
being there yet, change a pod, and let time pass. Writes of status may fail. `LivePods` adds that the run controller's
view of the workspace does not go backwards; nothing else needs that.

`CheckRunProtocol` lets any number of reconciles and webhook handlers hold copies of any earlier version, and
commits only copies of the latest. A reconcile sends after it has committed, and GitHub announces a created check run
only after a create has been made. `StateBackup` interleaves reconciles,
with every call failing or not, with terraform's own writes and with deletion and re-creation of the workspace; a read
may be out of date, and a write based on such a read is refused. `RepoManager` interleaves clones and sweeps, each of
which holds the lock.

## What turned out otherwise than one might think

- A run whose pod is pending too long is failed, but the pod stays and may start later. So two unfinished pods of runs
  that contend for one workspace are possible (`LivePodsWitness.TwoUnfinishedPods`). What holds is exclusion among runs
  that are not done (`Cluster.MutualExclusion`), and for pods this is the only exception: a contending run that is not
  the active one has an unfinished pod only if it failed that way (`LivePods.StrayPod`).
- The run controller reads a run twice and writes over the second reading what it computed from the first. If its cache
  catches up in between, it computes from an earlier version of the run, and three things are not safe. A done run can
  come back, whatever run it is (`StaleReads.DoneCanBeLost`); it stays done exactly when the earlier version meets one of
  the guards that end a run (`StaleReads.DoneSurvives`). A pending run's timeout clock can be set back to the present
  (`StaleReads.ClockCanRestart`), exactly when the earlier version was not marked yet (`StaleReads.MarkAfter`). And a run
  that has made way for another can return beside it (`StaleReads.ExclusionLost`); exclusion is safe exactly for runs
  that have not (`StaleReads.ExclusionSurvives`), and the invariant of `Cluster` exactly for runs not seen done by the
  workspace's controller that have not (`StaleReads.InvSurvives`).
- All timeouts count from the moment the run was first marked incomplete, because a change of reason does not move a
  condition's transition time. A run that waited long in the queue fails the first time its pod is seen pending
  (`RunLifecycle.PendingFailure`, `Timeouts.TimeoutsCountFromFirstMark`). As that time is stored in whole seconds, a
  timeout can come up to a second early.
- A run read before its workspace shows in the run controller's cache is failed, although the workspace
  exists (`LivePodsWitness.FailedTooSoon`).
- The conclusion sent to GitHub looks at the first condition only. Runs failed by a timeout have the incomplete mark
  first, so they get none, although `api/etok.dev/v1alpha1/check_run_types.go:65` requires one, and "timed_out" is
  never sent (`CheckRunUpdate.ConclusionOfReachable`, and a state where it happens: `CheckRunUpdate.TimeoutUnreported`).
- A notice from GitHub that arrives after a request to apply leaves the iteration as it is but turns its command into a
  plan (`CheckRun.ApplyOnlyWhileLast`). An apply requested right after an apply is given a plan file that no script of its check
  run writes (`CheckRun.ApplyHasPlan`).
- The webhook handler retries a refused update without reading again. Such a retry never succeeds, and the event is lost
  (`CheckRunProtocol.StaleNeverCommits`).
- A create that is committed but never made is not repeated: after the mark nothing is sent until an id arrives
  (`CheckRunProtocol.NoSecondCreate`).
- Nesting of module paths is decided by string prefix: `m1` swallows its sibling `m10`, whose files are then not packed
  (`Archive.SiblingSwallowed`). Nothing is lost exactly when, for each module, the shortest module that is a string
  prefix of it is truly above it (`Archive.CoverageExact`).
- Modules outside the base directory are packed under names that lead upwards, and unpacked outside the destination.
  Nothing is exactly when all that is archived lies in the base (`Archive.NothingEscapes`; for one that does:
  `Archive.Upwards`).
- The walk over module calls keeps no record of where it has been. If everything it can reach loads, it goes on for ever
  exactly when it can reach a cycle (`Modules.DivergesExact`); if not, a module that does not load may end it first
  (`Modules.BadModuleFirst`). As the calls of a module come in no particular order, what counts is whether some order
  makes it go on for ever, and that is so exactly when it can reach a cycle, whatever loads (`Modules.DivergesInSomeOrder`,
  and with another order at each visit `Modules.MayDivergeExact`).
- In an ignore file, a line of spaces or a lone `!` crashes the reader, and a pattern ending in a backslash loses its
  end anchor (`IgnoreRules.ReadRules`, `IgnoreRules.FinalBackslash`). A line that is a lone slash ignores everything
  (`GlobLaws.DirectoryPatternLine`).
- An annotation key that begins with the approval prefix but has no slash crashes pruning (`Approvals.PruneApprovals`).
- A pod that has ended without a record of its runner's end crashes the reconcile of its run (`RunController.ManagePod`).
- A status write that fails after an upload leaves the recorded backup serial wrong (`StateBackup.RecordedExact`,
  `StateBackup.RecordLost`), but
  the next clean reconcile repairs it (`StateBackup.CleanBacksUp`). A state rewritten under its recorded serial is never
  backed up (`StateBackup.ReusedSerialIgnored`).
- Restoring does not look at `Ephemeral`, although `api/etok.dev/v1alpha1/workspace_types.go:72-74` says that it turns
  restoring off (`StateBackup.RemadeRestores`).
- At this commit only a test starts the reaper of the clone cache; what is proved of it holds whenever it is started.

## Model

| member | source | states |
|---|---|---|
| Slices.StringIndex | pkg/util/slice/slice.go:41-48 | the first index holding the string; -1 exactly when it is absent |
| Slices.ContainsString | pkg/util/slice/slice.go:19-27 | true exactly when the string is in the slice |
| Commands.ScanQueueable | pkg/commands/commands.go:108-115 | the scan answers true exactly for commands listed as queueable |
| Commands.QueueableExact | pkg/commands/commands.go:9-115 | the thirteen commands that have to wait their turn |
| WorkspaceQueue.EligibleNamesExact | pkg/controllers/workspace_queue.go:17-42 | a name passes the filter exactly when some listed run of that name is of this workspace, not done, queueable, and approved if its command is privileged |
| WorkspaceQueue.Workspace.UpdateCombinedQueue | pkg/controllers/workspace_queue.go:13-67 | the in-place backwards loop yields the survivors of the old queue in their order, then the newcomers in list order, split into active run and queue; and these are exactly the names of listed runs of this workspace without a true condition, with a queueable command, and with their approval annotated if the command is privileged |
| WorkspaceQueue.Workspace.Filter | pkg/controllers/workspace_queue.go:17-42 | the filtering loop yields exactly the names of listed runs of this workspace without a true condition, with a queueable command, and with the annotation of their own approval set to "approved" if the command is privileged |
| WorkspaceQueue.NamesInOrder | pkg/controllers/workspace_queue.go:17-42 | those names come in the order of the list |
| WorkspaceQueue.Reorder | pkg/controllers/workspace_queue.go:44-59 | the backwards loop, cutting entries out and putting them in front, yields survivors in their old order and then newcomers; of a repeated old entry the first place counts |
| CombinedQueue.MoveToFront | pkg/controllers/workspace_queue.go:46-59 | one turn of the loop extends the specification by one old entry: skipped if no longer eligible, otherwise moved to the front |
| CombinedQueue.NextQueueDistinct | pkg/controllers/workspace_queue.go:9-13 | the new queue holds exactly the eligible runs, each once |
| CombinedQueue.NextQueueIdempotent | pkg/controllers/workspace_queue.go:9-13 | recomputing against the same runs, in any list order, changes nothing |
| CombinedQueue.HeadStays | pkg/controllers/workspace_queue.go:44-66 | an active run that is still eligible stays active |
| CombinedQueue.AheadNext | pkg/controllers/workspace_queue.go:44-59 | relative order of surviving runs is unchanged both ways; a newcomer is behind every survivor |
| CombinedQueue.NewcomersInOrder | pkg/controllers/workspace_queue.go:44-59 | of two newcomers the one ahead is the one ahead in the list |
| CombinedQueue.PositionNext | pkg/controllers/workspace_queue.go:44-59 | those ahead of a survivor afterwards are exactly those ahead before that also survive; its position does not grow |
| Approvals.KeyRoundTrip | api/etok.dev/v1alpha1/run_types.go:93-101 | decoding an approval key gives back the run name if and only if the name has no slash |
| Approvals.PruneApprovals | pkg/controllers/workspace_controller.go:309-340 | removes exactly the approvals of runs that are gone or completed; crashes exactly on a prefixed key without a slash |
| Approvals.PrunedExact | pkg/controllers/workspace_controller.go:309-340 | a key under the prefix stays exactly if the run named by its second component exists and is not completed; other keys and all values stay |
| Approvals.MalformedExact | api/etok.dev/v1alpha1/run_types.go:99-101 | pruning trips over exactly the keys under the prefix that have no slash |
| Approvals.PruningSpares | pkg/controllers/workspace_controller.go:307-340 | pruning never changes whether a present, uncompleted run is approved |
| WorkspaceController.ReconcileRuns | pkg/controllers/workspace_controller.go:148-168 | prune, then recompute the queue with what is left; nothing changes when pruning crashes |
| WorkspaceController.AbsentActiveIgnored | pkg/controllers/workspace_queue.go:15 | seeding the loop with the empty name of an absent active run makes no difference |
| WorkspaceController.ReconcileIn | pkg/controllers/workspace_controller.go:124-171 | in every state satisfying the invariant the methods do what the transition system takes a reconcile to do |
| Conditions.Set | pkg/controllers/run_controller.go:280-284 | after setting, the kind has the given truth and reason; its time, in whole seconds, moves only when the truth changes |
| Conditions.SetOthers | pkg/controllers/run_controller.go:280-284 | conditions of other kinds are left as they are, in their order; a new kind goes to the end |
| RunController.RunObject.constructor | api/etok.dev/v1alpha1/run_types.go:115-123 | a new run has no conditions, no phase and no exit code |
| RunController.PodStore.Create | pkg/controllers/run_controller.go:257-260 | creating a pod fails exactly when it exists, and then changes nothing |
| RunController.ManageQueue | pkg/controllers/run_controller.go:180-223 | bails exactly when the run is queueable and not active; then marks it queued or unqueued and applies the two waiting timeouts, an error being returned exactly when one has run out |
| RunController.ManagePod | pkg/controllers/run_controller.go:226-298 | creates the pod if missing, otherwise takes over its phase and exit code and applies the pending timeout; an error exactly when the pod cannot be read or created or lacks its runner's status, a crash exactly when that status lacks the record of its end |
| RunController.Reconcile | pkg/controllers/run_controller.go:84-130 | the new status, the pods, the error and the crash are those of the functions on values; a done run is left alone; losing the workspace leaves the phase |
| RunLifecycle.ReconciledSound | pkg/controllers/run_controller.go:69-130 | every reconcile keeps: one of four condition lists, exit code exactly when completed, phase in step with conditions, timeouts run out before a timeout failure |
| RunLifecycle.ShapeFacts | api/etok.dev/v1alpha1/run_types.go:130-141 | of a reachable condition list: done means completed or failed, never both |
| RunLifecycle.ClockFixed | pkg/controllers/run_controller.go:191-219 | the time of the incomplete mark is that of the first marking, in whole seconds, and survives later reconciles |
| RunLifecycle.PendingFailure | pkg/controllers/run_controller.go:286-295 | following its pod fails a run exactly when the pod is seen pending more than the limit after the run's first mark, however young the pod |
| RunLifecycle.ConcludesExact | pkg/controllers/run_controller.go:84-127 | a reconcile ends with a done run exactly when it was done, its workspace is gone, its pod has ended with an exit code or is pending past the limit, or it has waited past the limit |
| RunOutcomes.LeftAlone | pkg/controllers/run_controller.go:84-87 | a run with a true condition keeps its whole status, and neither pod nor error comes of it |
| RunOutcomes.LosesWorkspace | pkg/controllers/run_controller.go:92-99 | without its workspace an unfinished run gets one more condition, the failure, and keeps phase and exit code |
| RunOutcomes.WaitsItsTurn | pkg/controllers/run_controller.go:180-223 | a queueable run that is not active: condition, phase and error, with an hour in the queue and ten seconds outside it, counted from the first mark |
| RunOutcomes.MakesPod | pkg/controllers/run_controller.go:247-262 | a run that may start and has no pod gets one and is marked so |
| RunOutcomes.SeesEnd | pkg/controllers/run_controller.go:267-284 | a final pod with an exit code completes the run with that code, for reason PodSucceeded exactly if the pod succeeded |
| RunOutcomes.SeesProgress | pkg/controllers/run_controller.go:280-314 | a pending, running or undetermined pod: condition and phase for each, and failure when pending more than a minute after the mark |
| RunOutcomes.LearnsNothing | pkg/controllers/run_controller.go:248-274 | an unreadable, uncreatable or silent pod: an error, conditions kept, phase brought up to date by the table of phases |
| RunOutcomes.CrashesUnrecorded | pkg/controllers/run_controller.go:316-322 | a final pod without the record of its runner's end: a crash, with nothing written |
| RunOutcomes.CompletesExact | pkg/controllers/run_controller.go:226-284 | a reconcile completes an unfinished run if and only if it may start and sees a final pod with an exit code |
| RunOutcomes.VerdictIsThePods | pkg/controllers/run_controller.go:267-284 | in every reachable state a completed run has its pod, final; reason and exit code are the pod's |
| Cluster.StepPreserves | pkg/controllers/run_controller.go:69-130 | every step of either controller or the environment keeps the invariant |
| Cluster.TraceInv | pkg/controllers/run_controller.go:69-130 | the invariant holds in every reachable state |
| Cluster.PruneKeepsMembers | pkg/controllers/workspace_controller.go:307-340 | pruning from a lagging cache takes no approval a queued run depends on |
| Cluster.ActiveStays | pkg/controllers/workspace_queue.go:13-67 | recomputing the queue from a lagging cache keeps an active run that is neither done nor deleted |
| Cluster.WorkspaceReconcilePreserves | pkg/controllers/workspace_controller.go:124-171 | a whole workspace reconcile, its status write failing or not, keeps the invariant |
| Cluster.RunReconcilePreserves | pkg/controllers/run_controller.go:69-130 | a run reconcile from any earlier workspace status, its write failing or not, keeps the invariant |
| Cluster.MutualExclusion | pkg/controllers/run_controller.go:180-263 | in every reachable state a queueable run with a pod that is not done is the active run; so there is at most one |
| Cluster.NoPreemption | pkg/controllers/workspace_queue.go:44-66 | along every trace an active run stays active until done or deleted |
| Fifo.NeverReturns | pkg/controllers/workspace_queue.go:17-42 | a run that has left the queue never comes back |
| Fifo.OrderKept | pkg/controllers/workspace_queue.go:44-59 | two runs queued at two moments are in the same order at both |
| Fifo.NoOvertaking | pkg/controllers/workspace_queue.go:44-59 | a run queued later is behind every run that was queued before it |
| Fifo.AheadAreThoseLeft | pkg/controllers/workspace_queue.go:44-59 | at any later moment those ahead of a run are exactly those ahead at first that have not left; its position never grows |
| Fifo.ActiveWhenAllAheadLeft | pkg/controllers/workspace_queue.go:44-66 | a queued run is active if and only if all that were ahead of it have left |
| ApprovalGate.ActiveWasApproved | pkg/controllers/workspace_queue.go:35-39 | over every trace: a run that has ever been active is of the workspace and queueable, and if its command is privileged its approval was annotated in some state no later |
| ApprovalGate.PodWasApproved | pkg/controllers/workspace_queue.go:35-39 | likewise of every privileged, queueable run of the workspace that is active now or has a pod |
| Timeouts.DoneIsAbsorbing | pkg/controllers/run_controller.go:84-87 | once done, a run keeps its status unchanged for as long as it exists |
| Timeouts.MarkOrigin | pkg/controllers/run_controller.go:197-201 | the transition time in any state is the clock, in whole seconds, of the step that first marked the run |
| Timeouts.MarkKept | pkg/controllers/run_controller.go:197-201 | all marked versions of a run have the same mark, and a run once marked keeps it as its first condition |
| Timeouts.FailOrigin | pkg/controllers/run_controller.go:203-219 | a run failed for a timeout has been so since one step that found it not done |
| Timeouts.TimeoutsCountFromFirstMark | pkg/controllers/run_controller.go:28-39 | that step is later than the limit after the first mark taken in whole seconds, and so at most a second early |
| Timeouts.LifecycleShapes | pkg/controllers/run_controller.go:84-127 | the four condition lists any run ever shows, with exit code and phase |
| Streaming.ScanStreamable | api/etok.dev/v1alpha1/run_types.go:144-155 | the scan finds exactly the runs whose completion condition has a reason that comes from a started pod |
| Streaming.BecomesStreamable | pkg/controllers/run_controller.go:267-284 | a reconcile makes a run streamable only by having found its pod |
| Streaming.StreamableAfterLook | api/etok.dev/v1alpha1/run_types.go:144-155 | after a look at its pod a run is streamable exactly if the pod runs or has ended |
| Streaming.StreamableHasPod | cmd/github/check_run_controller.go:111-122 | in every reachable state a run whose logs are asked for has a pod |
| LivePods.StrayPod | pkg/controllers/run_controller.go:286-298 | a contending run other than the active one has an unfinished pod only if it failed by the pending timeout; deletion of the workspace makes no exception |
| LivePods.UnfinishedPods | pkg/controllers/run_controller.go:286-298 | of two unfinished pods of contending runs one belongs to a run that failed that way |
| LivePodsWitness.TwoUnfinishedPods | pkg/controllers/run_controller.go:286-298 | and they do occur: a trace that gets there |
| LivePodsWitness.FailedTooSoon | pkg/controllers/run_controller.go:89-99 | a reachable state in which a run has failed for want of a workspace that exists |
| StaleReads.DoneSurvives | pkg/controllers/run_controller.go:76-141 | after a reconcile computed from an earlier version of a run it is done exactly when that version meets a guard that ends a run |
| StaleReads.DoneCanBeLost | pkg/controllers/run_controller.go:132-141 | every done run can come back, by a reconcile of its first version |
| StaleReads.DoneVersion | pkg/controllers/run_controller.go:84-87 | a version that was done already changes nothing |
| StaleReads.MarkAfter | pkg/controllers/run_controller.go:191-219 | the mark's time afterwards: that of every marked version if the earlier version was marked, the present if it was not |
| StaleReads.ClockCanRestart | pkg/controllers/run_controller.go:191-219 | so the clock of any run can be set back to the present |
| StaleReads.InvSurvivesOne | pkg/controllers/run_controller.go:76-141 | one such reconcile keeps the cluster's invariant exactly when that version meets a guard that ends a run, or the run has gone unnoticed: not seen done by the workspace's controller, and not displaced by another |
| StaleReads.InvSurvives | pkg/controllers/run_controller.go:76-141 | all of them keep it if and only if the run has gone unnoticed |
| StaleReads.PendingUnnoticed | pkg/controllers/run_controller.go:132-141 | which a run that is not done always has |
| StaleReads.ExclusionSurvives | pkg/controllers/run_controller.go:132-141 | all of them keep exclusion if and only if the run is not a contending one that has been active and has made way |
| StaleReads.ExclusionLost | pkg/controllers/run_controller.go:132-141 | exclusion does get lost: from a reachable state, by one such reconcile |
| Glob.Compile | pkg/archive/terraformignore.go:114-188 | the scanner loop produces the rendering of the pattern's tokens between anchors |
| Glob.ParseRendered | pkg/archive/terraformignore.go:128-181 | the produced text, read by the rules of regular-expression syntax, is the intended expression |
| Glob.MeaningPreserved | pkg/archive/terraformignore.go:128-181 | that expression accepts exactly the paths the tokens stand for |
| Glob.CompileMeaning | pkg/archive/terraformignore.go:114-188 | for every supported pattern and path the compiled text matches if and only if the pattern does, where `*` and `?` stop at slashes and `**` does not |
| IgnoreRules.ReadRules | pkg/archive/terraformignore.go:30-75 | defaults followed by the rules of the lines; defaults alone after a read error; a crash exactly on a blank pattern |
| IgnoreRules.ParseLine | pkg/archive/terraformignore.go:36-65 | skipping, trimming, exclusion, directory and root markers of one line, and its crashes |
| IgnoreRules.Match | pkg/archive/terraformignore.go:102-112 | a rule matches when its expression compiles and accepts the path |
| IgnoreRules.MatchIgnoreRule | pkg/archive/terraformignore.go:77-93 | ignored exactly when the last matching rule exists and is not an exclusion |
| IgnoreRules.DirectoryLine | pkg/archive/terraformignore.go:54-64 | line `n/` matches exactly the paths with a directory named n |
| IgnoreRules.NameLine | pkg/archive/terraformignore.go:58-64 | line `n` matches exactly the paths whose last component is n |
| IgnoreRules.RootLine | pkg/archive/terraformignore.go:58-60 | line `/n` matches exactly the path n |
| IgnoreRules.DefaultsMeaning | pkg/archive/terraformignore.go:197-210 | the defaults ignore exactly what is under `.git` or `.terraform` but not under `.terraform/modules` |
| IgnoreRules.FinalBackslash | pkg/archive/terraformignore.go:160-174 | a pattern ending in a backslash matches every path that begins with the rest and a dollar sign |
| GlobLaws.TextLaw | pkg/archive/terraformignore.go:175-177 | plain text in front of any pattern stands for itself |
| GlobLaws.StarLaw | pkg/archive/terraformignore.go:149-151 | `*` in front of any pattern stands for any text without a slash |
| GlobLaws.QuestionLaw | pkg/archive/terraformignore.go:153-155 | `?` in front of any pattern stands for one character that is no slash |
| GlobLaws.DeepLaw | pkg/archive/terraformignore.go:130-148 | `**`, with or without a slash, before more pattern stands for nothing or for text that ends in a slash |
| GlobLaws.RestLaw | pkg/archive/terraformignore.go:140-142 | `**` at the end, with or without a slash, stands for everything |
| GlobLaws.EscapeLaw | pkg/archive/terraformignore.go:170-171 | an escaped character of punctuation in front of any pattern stands for itself |
| GlobLaws.DanglingLaw | pkg/archive/terraformignore.go:172-174 | a lone backslash stands for a dollar sign and whatever follows |
| GlobLaws.EmptyLaw | pkg/archive/terraformignore.go:114-181 | the empty pattern stands for the empty path; with the laws above, every pattern they apply to is determined |
| GlobLaws.StarBetween | pkg/archive/terraformignore.go:149-151 | `a*b` matches exactly the paths that are a, then text without a slash, then b |
| GlobLaws.QuestionBetween | pkg/archive/terraformignore.go:153-155 | `a?b` matches exactly the paths that are a, then one character that is no slash, then b |
| GlobLaws.DeepBetween | pkg/archive/terraformignore.go:130-148 | `a**/b` and `a**b` match exactly the paths that are a, then nothing or text that ends in a slash, then b |
| GlobLaws.EscapeBetween | pkg/archive/terraformignore.go:160-174 | an escaped character between a and b stands for itself |
| GlobLaws.PaddedLine | pkg/archive/terraformignore.go:41-42 | white space around a line does not matter |
| GlobLaws.BlankLine | pkg/archive/terraformignore.go:37-44 | a line of white space crashes the reader, the empty line is skipped |
| GlobLaws.CommentLine | pkg/archive/terraformignore.go:43-46 | a line that starts with `#` is skipped |
| GlobLaws.ExclusionLine | pkg/archive/terraformignore.go:49-53 | `!` in front of a line turns its rule into an exclusion and changes nothing else; alone it crashes the reader |
| GlobLaws.PatternLine | pkg/archive/terraformignore.go:58-64 | a pattern applies below every directory, with a slash in front at the root only |
| GlobLaws.DirectoryPatternLine | pkg/archive/terraformignore.go:54-64 | a pattern with a slash behind it applies to everything below such a directory; a lone slash to everything |
| GlobLaws.StarLine | pkg/archive/terraformignore.go:30-75 | line `a*b` is about exactly the paths that end, after a slash or from the start, in a, text without a slash, and b |
| GlobLaws.LastLine | pkg/archive/terraformignore.go:77-93 | a line more decides the paths its rule matches, for or against, and leaves the others as they were |
| GlobLaws.LastNameWins | pkg/archive/terraformignore.go:77-93 | a file named by the last line is ignored, one named after `!` is not, whatever the lines before say |
| Paths.UpdateUnnested | pkg/util/path/path.go:61-87 | given that no kept path is a prefix of another, the loop with its early returns adds the candidate, drops it, or replaces what it nests |
| Paths.AddPath | pkg/util/path/path.go:48-55 | comparing with the kept paths only is as good as comparing with all paths so far |
| Paths.RemoveNestedPaths | pkg/util/path/path.go:49-55 | the result is the prefix-minimal paths of the list, in order, with repetitions |
| Paths.RemoveNestedMeaning | pkg/util/path/path.go:48-55 | kept paths are inputs, none a proper prefix of another, and every input has a kept prefix |
| Paths.RemoveNestedCounts | pkg/util/path/path.go:48-87 | each path is kept as often as it was given, or not at all |
| Modules.Walk | pkg/archive/modwalker.go:14-39 | whenever some depth of calls is enough, the walk ends with what that depth gives: the modules reachable by local calls, or a failure exactly when one of them does not load |
| Modules.EdgeExact | pkg/archive/modwalker.go:21-48 | a call leads on exactly if its source starts with `./` or `../` |
| Modules.ExploreMeaning | pkg/archive/modwalker.go:14-39 | at every depth that is enough, what is found is exactly what is reachable, and failure is exactly a module that does not load |
| Modules.EndsWithoutCycle | pkg/archive/modwalker.go:14-39 | without a reachable cycle the number of modules plus one is enough |
| Modules.ChainBound | pkg/archive/modwalker.go:14-39 | since no chain of calls is longer than that |
| Modules.DivergesExact | pkg/archive/modwalker.go:14-39 | if everything reachable loads, no depth is enough if and only if a cycle can be reached |
| Modules.DivergesInSomeOrder | pkg/archive/modwalker.go:21-38 | whatever loads, no depth is enough in some order of the calls if and only if a cycle can be reached |
| Modules.BadModuleFirst | pkg/archive/modwalker.go:31-35 | with a cycle in reach one order ends in a load error and another does not end |
| Modules.ExploreMay | pkg/archive/modwalker.go:21-38 | the walk is one of those that take any order at each visit |
| Modules.MayDivergeExact | pkg/archive/modwalker.go:21-38 | of those some goes on for ever if and only if a cycle can be reached |
| Modules.MayExploreMeaning | pkg/archive/modwalker.go:14-39 | each that ends finds exactly the reachable modules, and fails exactly when one does not load |
| Archive.PackPath | pkg/archive/archive.go:139-266 | a directory entry exactly for directories other than the base whose absolute path with a slash is not ignored, a file entry exactly for regular files whose path relative to the base is not, wherever they lie; with name and content |
| Archive.Pack | pkg/archive/archive.go:90-128 | the entries are exactly those of the archived paths within the kept modules; fails exactly when a kept module does not exist |
| Archive.Unpack | pkg/archive/archive.go:281-364 | the loop computes the function on entry lists, failing on an empty name, a file where a directory has to be, or the reverse |
| Archive.UnpackConsistent | pkg/archive/archive.go:291-363 | entries free of conflicts unpack without failure in any order and with repetitions, to exactly their files |
| ArchiveLaws.UnpackFailsExact | pkg/archive/archive.go:301-347 | for any entries: unpacking fails if and only if one has no name, has an earlier file above it, or is a file where an earlier entry needs a directory |
| ArchiveLaws.UnpackedFiles | pkg/archive/archive.go:333-354 | otherwise there is a file for exactly the targets of file entries |
| ArchiveLaws.LastWrites | pkg/archive/archive.go:333-354 | and it holds what the last entry for that target holds |
| ArchiveLaws.RelativeExact | pkg/archive/archive.go:301-306 | a slash in front of a name and one behind it make no difference to the target |
| ArchiveLaws.RelResolves | pkg/archive/archive.go:154-157 | the name of an entry, followed from the base, leads to the path it was made from, inside the base or outside it |
| Archive.RoundTrip | pkg/archive/archive.go:90-364 | unpacking a pack gives exactly the files within kept modules that are not ignored, with the same content at the same relative path |
| Archive.CoverageExact | pkg/archive/archive.go:102-104 | dropping nested modules loses no path if and only if, for each module, the shortest one that is a string prefix of it is truly above it |
| Archive.NestedCoverage | pkg/archive/archive.go:102-104 | that is so when modules related by string prefix are truly nested |
| Archive.SiblingSwallowed | pkg/util/path/path.go:68-72 | of siblings `m1` and `m10` the second is lost |
| Archive.EscapesOutside | pkg/archive/archive.go:154-160 | the relative path of an entry leads upwards exactly for paths outside the base |
| Archive.NothingEscapes | pkg/archive/archive.go:301-306 | nothing is extracted outside the destination if and only if all that is archived lies in the base |
| Archive.Upwards | pkg/archive/archive.go:154-160 | a module beside the base is packed under a name that leads upwards |
| ModuleArchive.PackModules | pkg/archive/archive.go:68-128 | from root module to archive: the entries are those of the kept ones of the root and the modules it reaches; if no needed module is lost by string prefix and all lie in the base, unpacking gives exactly their wanted files |
| ModuleArchive.PackedShips | pkg/archive/archive.go:366-383 | the same of any pack of the root and the modules it reaches |
| ModuleArchive.EveryModuleHasKeptPrefix | pkg/archive/archive.go:102-104 | the root and each reachable module have a kept module as string prefix |
| CheckRun.CheckRunObject.FindId | cmd/github/check_run.go:17-24 | the id of the first created event, if any |
| CheckRun.CheckRunObject.CountIterations | cmd/github/check_run.go:76-83 | the number of events that start an iteration |
| CheckRun.CheckRunObject.SetIterationStatus | cmd/github/check_run.go:86-94 | fills up missing iterations and sets the current one |
| CheckRun.CheckRunObject.Prepare | cmd/github/check_run_controller.go:135-147 | a create is to be sent exactly if the log has no created event and none was requested before, an update of an id exactly if the first created event has it; the mark, report, conclusion and iterations as written |
| CheckRun.CheckRunObject.AppendEvent | cmd/github/app.go:134 | the event goes to the end of the log and nothing else changes |
| CheckRun.IdStable | cmd/github/check_run.go:16-24 | an id, once in the log, is not changed by any later event |
| CheckRun.IdExact | cmd/github/check_run.go:17-24 | the id is that of the first created event |
| CheckRun.LogStep | cmd/github/check_run.go:76-103 | what each kind of event does to the current iteration and to the command |
| CheckRun.PlanScript | cmd/github/check_run.go:106-130 | a plan writes to the file of its own iteration |
| CheckRun.ApplyUsesPreviousPlan | cmd/github/check_run.go:96-116 | an apply belongs to iteration 1 or later and is given the plan file the log pointed to before the request |
| CheckRun.ApplyReadsPlan | cmd/github/check_run.go:119-130 | the script of an apply applies the very file the script of the plan before it writes |
| CheckRun.ApplyHasPlan | cmd/github/check_run.go:106-116 | the file an apply is given is one that some script of the check run writes if and only if the command before was a plan |
| CheckRun.PlanFilesApart | cmd/github/check_run.go:106-116 | plans of different check runs or iterations are written to different files |
| CheckRun.ApplyOnlyWhileLast | cmd/github/check_run.go:96-103 | an iteration asked to apply does so exactly while no notice follows the request |
| CheckRun.RunNameInjective | pkg/builders/check_run.go:45-50 | suite, rerequest number, workspace and iteration can be read off the run name |
| CheckRun.ReconciledIterations | cmd/github/check_run.go:85-94 | after an update entry i names run i, there are as many as iterations begun, earlier entries are untouched, new ones before the current are not completed, and the current is completed exactly if so reported |
| CheckRunProtocol.StepPreserves | cmd/github/check_run_controller.go:135-158 | every step of every process keeps the protocol's invariant |
| CheckRunProtocol.AtMostOneCreate | cmd/github/check_run_controller.go:135-158 | over all interleavings at most one create is handed over, and at most one is made |
| CheckRunProtocol.IdNeverChanges | cmd/github/check_run.go:17-24 | the committed log only grows; an id once committed stays, and every update sent is for it |
| CheckRunProtocol.UpdatesAfterId | cmd/github/check_run_update.go:98-115 | once an id is committed, whatever any process still has to send is an update of that id |
| CheckRunProtocol.SendsAfterId | cmd/github/check_run_update.go:98-115 | along every trace all that is handed over from then on is updates of that id |
| CheckRunProtocol.CommitEntitles | cmd/github/check_run_controller.go:135-158 | over every trace: a commit entitles its process to the create if and only if it reconciles a version without id and mark, and to an update of an id if and only if it reconciles a version whose first created event has it |
| CheckRunProtocol.MarkStep | cmd/github/check_run_controller.go:135-158 | a step sets the mark if and only if it entitles a process to the create, and then one process only |
| CheckRunProtocol.OneGrant | cmd/github/check_run_controller.go:135-158 | over every trace: the mark is there if and only if a process has been entitled to the create, and no two have been |
| CheckRunProtocol.Delivers | cmd/github/check_run_controller.go:135-158 | in every reachable state a reconcile of the latest version that is left alone hands over the create, or the update of the id, or, with mark and no id, nothing |
| CheckRunProtocol.CreatedThenUpdated | cmd/github/check_run_controller.go:135-158 | a trace in which the check run is created, its id arrives, and it is updated |
| CheckRunProtocol.NoSecondCreate | cmd/github/check_run_controller.go:135-142 | after the mark no reconcile asks for a create, and none sends anything before an id is there |
| CheckRunProtocol.ReconcileCommitIterations | cmd/github/check_run_controller.go:144-151 | what a reconcile commits has exactly current iteration plus one entries, entry i naming run i |
| CheckRunProtocol.SupersededFrozen | cmd/github/check_run.go:76-94 | across committed versions the current iteration never falls and superseded entries never change |
| CheckRunProtocol.StaleNeverCommits | cmd/github/app.go:136-141 | a process whose copy is out of date can retry for ever without effect |
| CheckRunUpdate.ConclusionOfReachable | cmd/github/check_run_update.go:176-216 | for every reachable run: completed exactly when done, a conclusion exactly when the first condition is true, never "timed_out" |
| CheckRunUpdate.ConclusionIsTheVerdict | cmd/github/check_run_update.go:196-216 | over every trace: success is concluded exactly of completed runs whose pod succeeded, failure exactly of completed runs whose pod failed and of runs that lost their workspace without ever being marked |
| CheckRunUpdate.ReportOfReachable | cmd/github/check_run_update.go:176-194 | for every reachable run: in progress exactly while its pod was last seen pending or running, queued with no condition or any other mark |
| CheckRunUpdate.UnmarkedConclusion | cmd/github/check_run_update.go:196-216 | were the failure the first condition, the two waits would be concluded as timeouts and all else as failures |
| CheckRunUpdate.TimeoutUnreported | cmd/github/check_run_update.go:196-216 | a reachable run that is reported completed without a conclusion |
| CheckRunUpdate.MakeDetails | cmd/github/check_run_update.go:253-300 | never longer than the limit; nothing but white space is cut if the text fits; slices out of range exactly without room for fences and message; otherwise a contiguous tail that starts after a line break if there is one, without line breaks around it |
| CheckRunUpdate.CutFills | cmd/github/check_run_update.go:274-288 | the cut is placed so that what follows it would fill the field exactly |
| CheckRunUpdate.TrimSpace | cmd/github/check_run_update.go:270-272 | what is cut off both ends is encoded white space, and none is left there |
| CheckRunUpdate.SpaceEncoded | cmd/github/check_run_update.go:271 | the bytes taken for white space are the encodings of the white-space characters and no others |
| CheckRunUpdate.DefaultLimitHasRoom | cmd/github/check_run_update.go:21-24 | the default limit has room for every log shorter than 2 to the 63rd |
| StateBackup.ManageState | pkg/controllers/workspace_controller.go:238-296 | status, secret, bucket and error are those of the function on values, for every answer of the cache and every failure |
| StateBackup.Restore | pkg/controllers/workspace_controller.go:342-373 | likewise for a restore |
| StateBackup.StateReported | pkg/controllers/workspace_controller.go:268-278 | every reconcile that reads the current, parseable state and can update its secret reports its serial and its outputs, whatever the provider, the workspace and the upload are like |
| StateBackup.FoundExact | pkg/controllers/workspace_controller.go:251-293 | with a secret read: secret, serial, outputs, bucket, backup serial and error, each with its condition |
| StateBackup.MissingExact | pkg/controllers/workspace_controller.go:342-373 | without one: the backup is brought back if and only if there is a provider, a backup, no secret and no failure; each field and the error with its condition |
| StateBackup.RecordedExact | pkg/controllers/workspace_controller.go:280-292 | a step makes the recorded backup serial wrong if and only if it overwrites the bucket without recording it |
| StateBackup.RecordLost | pkg/controllers/workspace_controller.go:280-292 | a history in which that happens |
| StateBackup.TraceRecorded | pkg/controllers/workspace_controller.go:280-292 | when uploads are recorded, the recorded serial is in every reachable state that of the backup |
| StateBackup.TraceSafe | pkg/controllers/workspace_controller.go:238-296 | under rising serials, whatever failed: a recorded serial is at most the state's, and if equal the bucket holds that state |
| StateBackup.CleanBacksUp | pkg/controllers/workspace_controller.go:238-296 | after any history a reconcile without error leaves the bucket holding the current state, all serials equal, and the state's outputs in the status |
| StateBackup.ReusedSerialIgnored | pkg/controllers/workspace_controller.go:282-283 | a state under the serial already recorded is never uploaded by later reconciles |
| StateBackup.RemadeRestores | pkg/controllers/workspace_controller.go:342-373 | delete, remake, reconcile: the same state is back, the next reconcile uploads nothing; ephemeral or not |
| StateBackup.BackupThenRemake | pkg/controllers/workspace_controller.go:238-373 | a state backed up by a clean reconcile comes back in the remade workspace |
| RepoManager.Manager.Clone | cmd/github/repo_manager.go:51-71 | hands out the managed clone with its lease renewed, or clones afresh; a failed clone is not managed |
| RepoManager.Manager.DoClone | cmd/github/repo_manager.go:73-114 | the directory after each way of failing or succeeding, and a fresh record only on success |
| RepoManager.AfterCloneExact | cmd/github/repo_manager.go:73-114 | what each outcome leaves in the directory, below it and elsewhere |
| RepoManager.Manager.Reap | cmd/github/repo_manager.go:116-142 | one sweep, in any order of the map, does what the specification says |
| RepoManager.PathsApart | cmd/github/repo_manager.go:75 | directories of different commits differ and are not nested |
| RepoManager.SweptExact | cmd/github/repo_manager.go:128-135 | a sweep removes exactly the clones overdue when visited and leaves the others and their directories alone |
| RepoManager.SweepBounds | cmd/github/repo_manager.go:128-135 | what was overdue when the sweep began is gone, what is not overdue when it ends is there |
| RepoManager.SweptDisk | cmd/github/repo_manager.go:128-135 | on disk a sweep adds nothing, removes the overdue directories it can with all below them, and leaves everything outside them alone |
| RepoManager.SweptLeaves | cmd/github/repo_manager.go:128-135 | what was overdue before a sweep has left the disk after it, unless its removal failed |
| RepoManager.TraceAgrees | cmd/github/repo_manager.go:51-142 | in every reachable state each managed clone is under its own sha, in its own directory, complete on disk |
| RepoManager.LeaseHonoured | cmd/github/repo_manager.go:116-142 | a managed clone stays, on disk and unchanged, until its time to live is up |
| RepoManager.ClonedLease | cmd/github/repo_manager.go:49-71 | a clone handed out is there for a full time to live, whatever is cloned or swept meanwhile |

## Left out

- Kubernetes, GitHub, GCS, S3 and git clients: they appear as maps, sequences and outcomes that any call may have.
- Assumptions on the cluster: run names are not empty, have no slash and are not used twice; a deleted workspace is not made again (except in `StateBackup`); privileged commands do not change; approvals of live runs are removed by pruning only; each controller is the only writer of its resource's status and starts from its own latest write (for the run controller see `StaleReads`); a pod is deleted only with its run.
- A run reconcile is one step of `Cluster`: deletion of the run between its reads and its writes is not modelled.
- RunController.Reconcile: one reading of the run; what a second, later one overwrites is the matter of `StaleReads`.
- Timeouts.DoneIsAbsorbing: for reconciles that start from the run's latest status; for others see `StaleReads.DoneSurvives`.
- Timeouts.MarkOrigin: likewise, see `StaleReads.MarkAfter`.
- Timeouts.TimeoutsCountFromFirstMark: likewise, see `StaleReads.ClockCanRestart`.
- Condition messages, events, owner references of runs, config maps, roles, volumes and the workspace's own pod and ready phase.
- The optional secret and service account that a run's pod may use, and errors reading them (they look like errors reading the pod).
- Liveness: nothing says that a controller is ever called again.
- Regex.ParseRegexp: covers the syntax that patterns without brackets, braces, plus, bar, caret or escaped letters compile to; other patterns pass into the regular expression as they are and are not given a meaning.
- Glob.CompileMeaning: about paths without a line break, which the expressions' dot does not match; so are the lemmas of `IgnoreRules` and `GlobLaws`.
- IgnoreRules.ReadRules: takes lines as given; a byte-order mark and bytes that are not UTF-8 are not modelled.
- Windows path separators.
- Archive.Pack: does not model symbolic links, the size limit, compression, file modes and times, read errors in the middle of a walk, or the root directory of the file system as base.
- Archive.Unpack: does not model entries of other kinds, nor what lies outside the destination, where names that lead upwards go; names are taken as clean; directories are created only for the files and entries below them, and empty ones do not come back, as in the source.
- Modules.Walk: does not model how a module's calls are parsed, and takes the directory of each call as given; its calls come in one order, other orders being the matter of `Modules.MayExplore`.
- CheckRunUpdate.MakeDetails: does not model the removal of "refreshing" lines, which the reconciler never switches on, and is about bytes, each character of a log standing for one.
- Name, actions, title and summary of a check run update, parsing of plan output, and the creation of a check run's run and archive.
- The asynchronous client is taken to make each call once, in the order handed over, or not at all.
- RepoManager.Manager.Clone: does not model what git fetches; a finished clone is recorded as the branch and address asked for.
- StateBackup.ManageState: keeps outputs as a map, where the source keeps a list in no particular order.
- Small helpers (chunking, environment files, handshakes, argument handling), command-line tools, terminal attachment, log streaming, the webhook server and templates: they would add only easy members.
