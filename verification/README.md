# Open Walnut: a Dafny model of its stateful edges

Open Walnut is a local server with a browser console; a Mac app finds, starts, attaches to, replaces and updates
that server, and two scripts repair its databases. This project models the parts whose behaviour comes from state
that changes over time, and proves what they keep over every run. Run `dafny verify dfyconfig.toml` here.

Each component is one or more modules: a specification on values, proofs about it, and, where the source is an
object or a script that changes things in place, a class whose methods are proved against that specification.

* **Starting the server** (`ServerStart`, `ServerStartTermination`, `ServerStartRuns`, `ServerStartPolls`,
  `ServerStartEffects`, `ServerStartFates`, `ServerStartOrigins`, class `AppDelegate`). The app's fields, and every
  callback it still waits for: probes, asks, stops, children, polls, timers. A step is one pending callback arriving,
  in any order. The machine is written event by event; it is proved against a second statement of it, outcome by
  outcome: for every event at once, exactly when a server is stopped, started, asked, waited for or attached to.
  A lexicographic measure (the launch's one replacement and whether
  anything that can attach is pending, then rediscoveries and restarts left, then the weight of what is pending)
  falls at every step of a run in which no server stays healthy and every attach leaves nothing pending. Without
  that last condition the code's five-restart limit does not bound a launch: an attach resets the counts but does
  not cancel a restart that is already scheduled.
* **Updating the app** (`Version`, `SemVer`, `UpdateMachine`, `UpdaterMachine`, `UpdaterRuns`, `UpdaterAnswers`, class
  `AppUpdater`).
  The version order against an independent statement of SemVer's; the pure reducers; and the controller, whose
  one-action reservation is what makes the reducers' status trustworthy.
* **Upgrading the runtime** (`RuntimeUpgrade`): the never-downgrade rule, over the version that is read back from
  the link the installer makes.
* **Repairing links** (`RepairLinks`, `RepairLinksProofs`, class `Databases` in `RepairScript`): sessions whose task
  is gone are re-pointed, and sessions missing from a task's list are listed.
* **Merging duplicates** (`DuplicateGroups`, `DuplicateSurvivor`, `TaskMerge`, `TaskMergeProofs`, `DuplicateRun`,
  class `Cleanup` in `CleanupScript`): the two grouping passes, the survivor of each group, and the merge of
  `src/core/task-manager.ts` they call, with its row writes one by one and a failure between any two.
* **Removing the old checkout** (`CheckoutClone`, `CheckoutFiles`, `CheckoutStatus`, `CheckoutReport`,
  `CheckoutRemoval` with class `Disk`): what git's files and `git status` must say, read back from what git prints,
  and a rename-then-delete that may be cut short anywhere.
* **The page watchdog** (`WebContentPolicy`, `WatchdogMachine` with class `WebContentWatchdog`, `WatchdogRuns`,
  `WatchdogSamples`): a rate limit kept on a pruned list, decided at one time and recorded at a later one.
* **Streams and codecs** (`LineSplitter`, `OutputReader`, `Base64`, `ApprovalText`, `ApprovalReadings`,
  `PercentCoding`, `AgentPaths`): section 4 of RFC 4648 and section 2.1 of RFC 3986 are the standards used.

## Where the code and what is written about it differ

The model follows the code. Each difference is a lemma.

* `AppUpdateVersion.compare` traps on a text that is empty or only hyphens where the version should be
  (`Version.CompareTrapsIff`); "01" and "1" are each newer than the other (`Version.LeadingZeroNewerBothWays`), so
  two apps can take turns downgrading a runtime, exactly with such versions
  (`RuntimeUpgrade.LaunchesNeverDowngradeIff`, `RuntimeUpgrade.TakingTurns`); a number is above a word of a hyphen and
  digits (`SemVer.HyphenNumberMisordered`; exactly where the two orders differ: `SemVer.CompareIsPrecedenceIff`).
* The restart limit does not bound a launch (`ServerStartRuns.RestartsWithoutBound`); the give-up on a
  server that says it listens and never answers is not retried, unless its poll was overtaken by another server's
  (`ServerStartPolls.GiveUpOfTrackedPollIsNeverRetried`, `ServerStartPolls.UntrackedGiveUpIsRetried`); "replaced at most
  once per launch" can be twice (`ServerStartRuns.TwoReplacements`).
* The stage's marker is neither removed before an unpack nor with a moved stage (`UpdaterRuns.MovedStageKeepsItsMarker`),
  so after a crash a copy nobody verified can be handed over (`UpdaterRuns.CrashThenHandsOverIff`).
* The repair script returns before its back-link sweep when nothing dangles (`RepairLinksProofs.LiveRunRepairs`).
* A title group can be replaced by a remote-id group and title keys can collide (`DuplicateGroups.AGroupIsLost`,
  `DuplicateGroups.TitleKeysCollide`). A merge can drop an archived session that no task names
  (`TaskMergeProofs.ArchivedSessionLostIff`), and makes a kept copy that was the victim's child its own parent
  (`TaskMergeProofs.ParentsFollow`).
* A removal can be settled with its staging copy still on disk (`CheckoutRemoval.LeftoverIff`).
* Unsaved work is logged at every sample (`WatchdogRuns.UnsavedIsAlwaysLogged`), and a recycle that replaces nothing
  stops the sampling (`WatchdogRuns.WaitsForItsAttach`).
* A newline in an approval's unencoded fields can forge a field (`ApprovalText.NewlinesForgeAField`; exactly when:
  `ApprovalReadings.ForgeableIff`).
* Agent ids that differ in case alone share a directory where the file system ignores case (`AgentPaths.CaseBlindIff`).

## Model

| member | source | states |
|---|---|---|
| ServerStartTermination.StepLowers | desktop/main.swift:932-1158 | with no healthy server, every step attaches, makes the launch's one replacement, or lowers budget then weight lexicographically |
| ServerStartTermination.CalmStepDescends | desktop/main.swift:1266-1565 | the whole measure falls at every step whose attaches leave nothing pending |
| ServerStartTermination.CalmRunsEnd | desktop/DesktopDiagnostics.swift:212-232 | every such run is finite, so it starts finitely many servers |
| ServerStartTermination.EndlessRunsAttachWhilePending | desktop/main.swift:1100-1111 | the only endless runs attach again and again while a restart, wait or start is still pending |
| ServerStartRuns.NoLaunchIsStranded | desktop/main.swift:1506-1521 | in every reachable state a callback that moves the launch on is pending, or the error is shown, or the port is known and shown or polled |
| ServerStartRuns.BudgetsHold | desktop/DesktopDiagnostics.swift:215-227 | never more than five restarts and three rediscoveries in a row, in any reachable state |
| ServerStartRuns.RestartsWithoutBound | desktop/main.swift:1100-1111 | for every n a launch starts n+1 servers none of which stays healthy: an attach does not cancel a pending restart |
| ServerStartPolls.GiveUpRetriesIff | desktop/main.swift:1506-1521 | a give-up is retried exactly with no lock holder, the recovering flag up and a restart left; with no holder and no retry it ends on the error screen |
| ServerStartPolls.StepQuiet | desktop/main.swift:1523-1531 | every step keeps it so that no tracked poll is pending while the app recovers |
| ServerStartPolls.GiveUpOfTrackedPollIsNeverRetried | desktop/main.swift:1591-1596 | in every reachable state the give-up of the poll started last is never retried, whatever its comment promises, and exactly when another poll's is |
| ServerStartPolls.UntrackedGiveUpIsRetried | desktop/main.swift:1574-1596 | a launch in which an older, untracked poll's is |
| ServerStartRuns.ReplacesAgainIff | desktop/main.swift:1036-1048 | a second replacement happens exactly when a first ask was already out at the first one |
| ServerStartRuns.TwoReplacements | desktop/main.swift:1030-1035 | a launch that replaces two servers |
| ServerStartEffects.QueuesIff | desktop/main.swift:932-1158 | in any step, of everything but polls, exactly what the app begins to wait for: a probe of the next port, an ask, the stop of its own recorded orphan or of a server found of an ended session, a child on the port that is due |
| ServerStartFates.StepIff | desktop/main.swift:932-1565 | every step has at most one outcome (waits for another Walnut, restarts, gives up, fails, attaches, starts a child, cannot run it), exactly where its condition over all events holds, and the whole state is then its bookkeeping and that outcome |
| ServerStartOrigins.EveryStopWasEarned | desktop/main.swift:1121-1182 | in every reachable state each server still to be stopped was met by a look as the recorded child of this app, running its own command, or found of an ended session by an ask: never one started by someone else |
| ServerStartOrigins.RecordIsOurs | desktop/main.swift:1386-1420 | in every reachable state the recorded pid is one this launch started or the record it began with |
| ServerStartOrigins.EveryWaitIsForAnother | desktop/main.swift:944-957 | whomever a launch waits for was, when it began to, a live Walnut on the lock that is neither the app, its last server nor its orphan |
| AppDelegate.AppDelegate.Launch | desktop/main.swift:932-942 | the first startServer makes the object valid: counts within their limits, something behind the loading screen, no tracked poll while it recovers |
| AppDelegate.AppDelegate.Deliver | desktop/main.swift:932-1603 | whatever the run loop delivers, the object's methods make the machine's step, so all that is proved of steps and launches holds of it, and keep it valid |
| Version.CompareTrapsIff | desktop/AppUpdateMachine.swift:226-232 | compare traps exactly when what is left of either text is empty or only hyphens |
| Version.CompareAntisymmetricIff | desktop/AppUpdateMachine.swift:233-249 | swapping flips the sign, except exactly where the first different identifiers are one number written two ways |
| Version.LeadingZeroNewerBothWays | desktop/AppUpdateMachine.swift:240-242 | two versions each newer than the other |
| Version.ParseVersionText | desktop/AppUpdateMachine.swift:227-236 | a version's text is read back as its core and prerelease, whatever its build |
| Version.ParseTagText | desktop/AppUpdateMachine.swift:227-228 | a release tag, a v and the version, is read as that version |
| Version.CompareIsPreorder | desktop/AppUpdateMachine.swift:226-249 | on every text it does not trap on: transitive, zero exactly for one core and prerelease, unreadable texts lowest, and two texts are ordered, with the sign flipping, exactly when not ambiguous |
| Version.CanonicalNeverAmbiguous | desktop/AppUpdateMachine.swift:236-244 | versions without needless zeros never are ambiguous |
| SemVer.CompareIsPrecedenceIff | desktop/AppUpdateMachine.swift:223-249 | on SemVer texts compare is zero exactly for one precedence of sections 9 to 11 of SemVer 2.0.0, stated independently, and puts one above or below the other as SemVer does exactly where the first different identifiers are ordered as meant |
| SemVer.IdOrderIff | desktop/AppUpdateMachine.swift:238-246 | for two different identifiers, exactly when the code's order is SemVer's |
| SemVer.NumberAgainstHyphenNumber | desktop/AppUpdateMachine.swift:240-242 | a number against a hyphen-number never is, but for 0 after -0 |
| SemVer.HyphenNumberMisordered | desktop/AppUpdateMachine.swift:240-242 | two version texts that compare puts the other way round |
| UpdateMachine.PercentIs | desktop/AppUpdater.swift:214 | the percentage is the share of the image that is here, and 100 exactly once all of it is, however much more a server sends |
| UpdateMachine.PushesIff | desktop/AppUpdateMachine.swift:209-212 | bytes are pushed exactly when they cross a multiple of ten percent or end the download |
| UpdateMachine.EachStepIsPushedOnce | desktop/AppUpdater.swift:211-220 | below 100% each step the download comes into is pushed once and in turn and nothing else is, and the page shows the last push, or 100% once reached |
| UpdateMachine.PushedBuckets | desktop/AppUpdater.swift:211-220 | what the page last saw is in the 10% step of the download, for any non-decreasing byte counts |
| UpdateMachine.DownloadPushesAtMostNine | desktop/AppUpdateMachine.swift:209-212 | at most nine pushes below 100% in one download |
| UpdaterRuns.EveryDownloadCompletesOnce | desktop/AppUpdater.swift:175-278 | every accepted download completes once and in turn, for any order of URLSession events, and the one still reserved has its ending in exactly one place |
| UpdaterRuns.StepInv | desktop/AppUpdater.swift:354-449 | the controller's invariant is kept by every event |
| UpdaterRuns.ReachableStates | desktop/AppUpdater.swift:72-124 | status and reservation agree, a reserved download has a running task or its preparation pending, a downloaded version is the offered one at 100%, every version handed to the swap is verified and newer |
| UpdaterRuns.GoodRunUpdates | desktop/AppUpdater.swift:99-406 | a check, a download and an install in order end with exactly the offered version handed over, where it was not marked before |
| UpdaterRuns.DisabledNeverMoves | desktop/AppUpdater.swift:72-94 | a copy whose updates are off never changes |
| UpdaterRuns.StrayBytesBreakStatusIff | desktop/AppUpdater.swift:211-220 | a byte count outside its download breaks the agreement: the reducers alone do not keep it |
| UpdaterRuns.CrashInPrepareSoundIff | desktop/AppUpdater.swift:259-290 | a crash inside prepare keeps the cache sound exactly when no old marker meets a bad copy of a version still offered |
| UpdaterRuns.MarkedCopyIsHandedOver | desktop/AppUpdater.swift:183-207 | a marked copy is reused by download and handed over by install, whatever it is |
| UpdaterRuns.SafeToStartFromIff | desktop/AppUpdater.swift:316-325 | a launch can hand over nothing but verified newer copies exactly when the cache it finds is sound |
| UpdaterRuns.CrashThenHandsOverIff | desktop/AppUpdater.swift:259-325 | exactly which crashes inside prepare let the next launch hand over a copy nobody verified |
| UpdaterRuns.MovedStageKeepsItsMarker | desktop/AppUpdater.swift:354-406 | an install that moves its stage leaves the marker behind |
| UpdaterAnswers.LatestIff | desktop/AppUpdater.swift:129-166 | an offer exactly for a redirect to a newer version whose image is up; nothing new exactly where a server said so; a failure exactly where none said anything |
| UpdaterAnswers.CheckShowsIff | desktop/AppUpdater.swift:99-125 | what a check ends on, exactly: up to date, an error with its message and a retry, an offer, or the download that was there |
| UpdaterAnswers.UpToDateWasSaid | desktop/AppUpdater.swift:110-119 | in every reachable state "up to date" is what a server said, and an error what a check met, at the time shown |
| UpdaterAnswers.DownloadShowsIff | desktop/AppUpdater.swift:175-283 | a download ends as downloaded exactly when it was staged or its copy passes, as offered again with what went wrong exactly when a part of it failed, and runs on exactly otherwise |
| UpdaterAnswers.StartsIff | desktop/AppUpdater.swift:354-374 | exactly when a check, a download and an install start, and when an install offers the download again |
| UpdaterAnswers.InstallEndsIff | desktop/AppUpdater.swift:376-404 | the staged copy is handed over exactly when it was placed and the script started; otherwise it stays downloaded, with what went wrong |
| UpdaterAnswers.DownloadedIsStaged | desktop/AppUpdater.swift:259-325 | in every reachable state of an app that has not quit, what is shown as downloaded is staged |
| AppUpdater.AppUpdater.Configure | desktop/AppUpdater.swift:72-94 | a fresh object over a sound cache becomes valid |
| AppUpdater.AppUpdater.Deliver | desktop/AppUpdater.swift:99-449 | whatever arrives in URLSession's order, the object's methods make the machine's step, so all that is proved of steps and runs holds of it, and keep the controller's invariant |
| RuntimeUpgrade.LinkedVersionIff | desktop/BundledRuntime.swift:66-75 | a link names v exactly when it is the installer's own or one with v's full path |
| RuntimeUpgrade.InstallShReadBack | desktop/BundledRuntime.swift:77-120 | what the installer links is read back as the file at that version |
| RuntimeUpgrade.LayoutIff | desktop/BundledRuntime.swift:77-120 | a file counts as installed exactly when the link names it and it is there, an archive exactly when none does |
| RuntimeUpgrade.LaunchInstallsIff | desktop/AppUpdateMachine.swift:334-340 | exactly when a launch puts its own file in: over nothing readable, over an older file, over an archive that is not newer |
| RuntimeUpgrade.LaunchReachesFixpoint | desktop/AppUpdateMachine.swift:334-348 | after one install that worked nothing is reinstalled and setup keeps what it finds |
| RuntimeUpgrade.LaunchDowngradesIff | desktop/AppUpdateMachine.swift:334-340 | one launch installs something older exactly when its install works over a file whose version is ambiguous with the carried one |
| RuntimeUpgrade.LaunchesNeverDowngradeIff | desktop/main.swift:186-200 | for a set of releases, no launches of apps carrying them, in whatever order, ever lower the installed version, exactly when no two are ambiguous |
| RuntimeUpgrade.TakingTurns | desktop/AppUpdateMachine.swift:334-340 | two ambiguous releases that replace each other in turn |
| RepairLinksProofs.ResolvesIff | scripts/repair-orphaned-session-links.ts:103-161 | a session resolves exactly when a current task holds one of the dead task's remote ids, to the first holder of the first id held |
| RepairLinksProofs.NewestBackupWins | scripts/repair-orphaned-session-links.ts:93-102 | the dead task's row comes from the newest backup that has it |
| RepairLinksProofs.RemoteIdsInOrder | scripts/repair-orphaned-session-links.ts:52-63 | exactly which remote ids are tried, in which order, and that a local task has none |
| RepairLinksProofs.HoldsIff | scripts/repair-orphaned-session-links.ts:106-121 | the query finds a task by exactly the remote ids it is known by |
| RepairLinksProofs.SqlNameIff | scripts/repair-orphaned-session-links.ts:106-121 | the source as the query names it differs from the row's exactly when it holds a double quote |
| RepairLinksProofs.LiveRunRepairs | scripts/repair-orphaned-session-links.ts:82-190 | only dangling sessions move, no list loses an entry, and every session is listed exactly when something dangled or none was missing |
| RepairLinksProofs.MovedToAHolder | scripts/repair-orphaned-session-links.ts:142-170 | a session moves exactly when it dangled and resolves, to an existing task holding a remote id of its dead one |
| RepairLinksProofs.UnresolvedIff | scripts/repair-orphaned-session-links.ts:142-161 | a run reports exactly the dangling sessions that do not resolve, each once, in order, with its dead task and why |
| RepairLinksProofs.CountsIff | scripts/repair-orphaned-session-links.ts:142-197 | repaired and unresolved together are the dangling sessions, and back-linked are the sessions their existing task did not list |
| RepairLinksProofs.ListsGainOwn | scripts/repair-orphaned-session-links.ts:133-190 | every entry added to a list is a session under the very task it is linked to |
| RepairLinksProofs.ListedOnce | scripts/repair-orphaned-session-links.ts:131-140 | no session is listed more often than it was, and a new one once |
| RepairLinksProofs.DryRunPredictsLive | scripts/repair-orphaned-session-links.ts:65-195 | the dry run's counts and failures are the live run's, and it writes nothing |
| RepairLinksProofs.SecondRunWritesNothing | scripts/repair-orphaned-session-links.ts:65-195 | a second live run changes nothing |
| RepairScript.Databases.FindDangling | scripts/repair-orphaned-session-links.ts:82-91 | exactly the sessions on a missing task, in order |
| RepairScript.Databases.RepairSession | scripts/repair-orphaned-session-links.ts:133-170 | the whole effect of one dangling session on both tables, the counters and the report |
| RepairScript.Databases.SweepSession | scripts/repair-orphaned-session-links.ts:181-190 | the whole effect of one row of the sweep |
| RepairScript.Databases.RunScript | scripts/repair-orphaned-session-links.ts:65-195 | the loops compute the specified run |
| DuplicateGroups.EachTaskInOneGroup | scripts/cleanup-mstodo-duplicates.ts:71-94 | no task is in two groups, and one is in none exactly when no other task holds its remote id and a shared remote id makes its title's key |
| DuplicateGroups.ShareAGroupIff | scripts/cleanup-mstodo-duplicates.ts:71-94 | exactly which two tasks are treated as copies |
| DuplicateGroups.SameTitleKeyIff | scripts/cleanup-mstodo-duplicates.ts:88 | exactly which different projects and titles share a key |
| DuplicateGroups.ColonFreeProjectsDiffer | scripts/cleanup-mstodo-duplicates.ts:88 | projects without a colon are never confused |
| DuplicateGroups.TitleKeysCollide | scripts/cleanup-mstodo-duplicates.ts:88 | two different tasks with one key |
| DuplicateGroups.OnlyRemoteIdProjectsLoseTheirGroup | scripts/cleanup-mstodo-duplicates.ts:92-94 | only tasks of a project named remote-id... can lose their group |
| DuplicateGroups.AGroupIsLost | scripts/cleanup-mstodo-duplicates.ts:92-94 | two copies that are never merged |
| DuplicateSurvivor.SurvivorIsFirstBest | scripts/cleanup-mstodo-duplicates.ts:103-109 | no copy has more links than the survivor, or as many and is older, or is as old with a lower id; and it is the first listed of those no copy beats |
| DuplicateSurvivor.SurvivorIgnoresOrderIff | scripts/cleanup-mstodo-duplicates.ts:103-109 | the survivor does not depend on the listing order exactly when one copy beats every other on links, age and id rank, and then it is that copy |
| DuplicateSurvivor.RankedIdsIgnoreOrder | scripts/cleanup-mstodo-duplicates.ts:103-109 | so it never does where the collation ranks the copies' ids apart |
| DuplicateSurvivor.WholePlanIsSound | scripts/cleanup-mstodo-duplicates.ts:100-128 | every copy but its group's survivor is merged once, and no survivor is merged away |
| TaskMergeProofs.MergedMentions | src/core/task-manager.ts:5824-5846 | the kept copy names what both named, the victim's own sessions and its own newest, and nothing else |
| TaskMergeProofs.MergedTaskIs | src/core/task-manager.ts:5821-5851 | which one session is kept (the survivor's newest, its free slot, the victim's newest), that every field names it alone, that history holds each once, and the earlier birth |
| TaskMergeProofs.MergeConserves | src/core/task-manager.ts:5802-5924 | a merge, however it fails, loses no session a task names |
| TaskMergeProofs.ParentsFollow | src/core/task-manager.ts:5853-5859 | the victim's children follow, and exactly a survivor that was its child becomes its own parent |
| TaskMergeProofs.StrandsIff | src/core/task-manager.ts:5885-5904 | a session stays on the removed task exactly when the row writes are cut short |
| TaskMergeProofs.Destination | src/core/session-tracker.ts:2634-2719 | where each of the victim's sessions ends |
| TaskMergeProofs.ArchivedSessionLostIff | src/core/session-tracker.ts:2690-2703 | exactly when an archived session ends on no task and named by none |
| TaskMergeProofs.MergeKeepsOneSession | src/core/session-tracker.ts:2690-2703 | no task gets a second active session |
| DuplicateRun.RunConserves | scripts/cleanup-mstodo-duplicates.ts:100-128 | a whole run loses no session a task names and adds none neither store held |
| DuplicateRun.RunRemoves | scripts/cleanup-mstodo-duplicates.ts:113-126 | just the victims whose merge was written go, and the live count is the dry count exactly when none refuses |
| DuplicateRun.RunPlacesIff | scripts/cleanup-mstodo-duplicates.ts:113-126 | a session is left on a removed task exactly when a victim's writes were cut short |
| CleanupScript.OnlyCopiesAreMerged | scripts/cleanup-mstodo-duplicates.ts:63-94 | whatever a run merges is a Microsoft To Do task of the title asked for, into another that shares its remote id or its project and title |
| CleanupScript.LiveRun | scripts/cleanup-mstodo-duplicates.ts:58-128 | all of these together for the script's own plan |
| CleanupScript.Cleanup.GroupTasks | scripts/cleanup-mstodo-duplicates.ts:71-94 | the Map loops compute the specified groups, in insertion order |
| CleanupScript.Cleanup.MergeTaskInto | src/core/task-manager.ts:5802-5924 | the whole new state of both stores after one merge, or none |
| CleanupScript.Cleanup.Run | scripts/cleanup-mstodo-duplicates.ts:58-128 | a live run makes every merge of the plan; a dry run changes nothing and counts them |
| CheckoutStatus.CheckStatus | desktop/AppBuiltCheckout.swift:116-157 | accepts exactly the old build's own state, and names the first entry that is not |
| CheckoutStatus.ForeignEntryKeepsIt | desktop/AppBuiltCheckout.swift:132-150 | one foreign entry anywhere is enough |
| CheckoutStatus.OrderOfChangesIgnored | desktop/AppBuiltCheckout.swift:122-156 | reordering the change entries never changes acceptance |
| CheckoutStatus.ChangeLineReadBack | desktop/AppBuiltCheckout.swift:132-136 | a changed path is read whole, spaces and all |
| CheckoutStatus.EntriesReadBack | desktop/AppBuiltCheckout.swift:122 | NUL-joined entries are read one by one |
| CheckoutReport.AheadReadBack | desktop/AppBuiltCheckout.swift:127-129 | the commits of a checkout's own are read as exactly the number it is ahead, whatever it is behind |
| CheckoutReport.PrintedStatusIff | desktop/AppBuiltCheckout.swift:116-157 | of all that git can print, exactly this passes: on main, tracking origin/main, no commit of its own, the mark deleted, and no change but npm's lockfiles |
| CheckoutReport.ComplaintNames | desktop/AppBuiltCheckout.swift:130-151 | the complaint of a change that is not the old build's names what changed |
| CheckoutClone.Remotes | desktop/AppBuiltCheckout.swift:62-84 | exactly the named remotes, each with its urls in order |
| CheckoutClone.CheckClone | desktop/AppBuiltCheckout.swift:97-111 | passes exactly for a shallow clone with no other remote and a reflog of the clone and pulls |
| CheckoutFiles.PrintedConfigIff | desktop/AppBuiltCheckout.swift:62-84 | of the configurations git writes exactly those pass whose one remote is origin with one url, the repository's |
| CheckoutFiles.PrintedLogIff | desktop/AppBuiltCheckout.swift:87-111 | of the reflogs git writes exactly those of the clone and pulls after it pass |
| CheckoutRemoval.SourceGoesIff | desktop/AppBuiltCheckout.swift:208-314 | exactly when a removal takes the tree, and where it then is |
| CheckoutRemoval.OwnWorkIsNeverTaken | desktop/AppBuiltCheckout.swift:116-157 | no removal takes a tree of which git prints a commit of the user's, another branch, or any change but the old build's |
| CheckoutRemoval.OldPlaceIff | desktop/AppBuiltCheckout.swift:31-40 | the old app's place is exactly source in the data home |
| CheckoutRemoval.OutcomeIff | desktop/AppBuiltCheckout.swift:280-314 | exactly when a removal says it is done, that it keeps the tree, or that it is not done yet, and exactly when the app ends in it |
| CheckoutRemoval.LeftoverIff | desktop/AppBuiltCheckout.swift:300-301 | exactly when a settled removal leaves its staging copy |
| CheckoutRemoval.NextLaunchFinishes | desktop/AppBuiltCheckout.swift:296-314 | after a removal cut short anywhere, one launch without a fault leaves nothing |
| CheckoutRemoval.RunSafe | desktop/main.swift:596-659 | over every run of crashes and edits the tree is whole or absent, and staging holds only what was provably the old app's |
| CheckoutRemoval.UserWorkStays | desktop/main.swift:633-659 | a checkout with anything of the user's in it is never touched |
| CheckoutRemoval.ForgetsOnlyWhenSettled | desktop/main.swift:651-657 | a pending removal is forgotten only when done or disproved |
| CheckoutRemoval.StepIff | desktop/main.swift:596-659 | nothing but the user and a launch with a removal pending touches either place, and exactly what starts and ends one that is pending |
| CheckoutRemoval.PendingUntilGone | desktop/main.swift:633-659 | over every run of launches, cut short anywhere, a provable checkout is not forgotten before it is gone, and while it is pending one launch without a fault leaves nothing |
| CheckoutRemoval.AdoptQueuesIff | desktop/AppBuiltCheckout.swift:163-174 | exactly which setups leave a removal pending |
| CheckoutRemoval.Disk.RemoveIfServed | desktop/AppBuiltCheckout.swift:296-314 | the operations, one by one, have the specified effect and outcome |
| WebContentPolicy.VerdictIff | desktop/WebContentPolicy.swift:122-144 | exactly when a page is replaced, in the sample's own numbers: something asks for it, the process is old enough, nobody is looking for the reason's pause, and the last hour has room; and exactly which gate holds it back otherwise |
| WebContentPolicy.DefaultsInOrder | desktop/WebContentPolicy.swift:105-114 | the thresholds two defaults give, always in order |
| WatchdogSamples.EveryRecycleWasEarned | desktop/WebContentWatchdog.swift:103-176 | in every run each recycle follows an answer of the attached view that nothing was unsaved, to a question a sample asked with the window hidden or the user idle for its reason's pause |
| WatchdogSamples.NoYoungProcessIsReplaced | desktop/WebContentWatchdog.swift:78-131 | in the least age before the sample that asked, no view was attached, no process went away and every sample met this same process |
| WatchdogSamples.HeldExactlyWhile | desktop/WebContentWatchdog.swift:103-176 | in every run sampling pauses exactly while an answer is due or a recorded recycle has not replaced the view |
| WatchdogSamples.LevelLoggedIff | desktop/WebContentPolicy.swift:165-174 | a sample logs its level exactly when the log last gave another, or as the Nth since |
| WatchdogRuns.EveryRunIsLimited | desktop/WebContentWatchdog.swift:103-176 | in every run no hour holds more recycles than the limit, and two are a process's least age apart |
| WatchdogRuns.EveryDecisionCountsTheHistory | desktop/WebContentPolicy.swift:153-160 | the pruned list counts as the whole history would |
| WatchdogRuns.StepKeeps | desktop/WebContentWatchdog.swift:45-176 | the invariant over attach, sample, process loss and answers of any web view |
| WatchdogRuns.UnsavedIsAlwaysLogged | desktop/WebContentWatchdog.swift:161-168 | an unsaved-work answer is logged every time |
| WatchdogRuns.SameGateIsLoggedOnce | desktop/WebContentPolicy.swift:178-187 | a gate that stays shut is logged once |
| WatchdogRuns.QuietSamples | desktop/WebContentPolicy.swift:165-174 | after a report the next of quiet samples is the Nth |
| WatchdogRuns.WaitsForItsAttach | desktop/WebContentWatchdog.swift:103-176 | in every run, once a recycle is recorded nothing is sampled, logged or recycled until the next attach |
| WatchdogMachine.WebContentWatchdog.OnTick | desktop/WebContentWatchdog.swift:103-159 | the whole new state of a sample |
| WatchdogMachine.WebContentWatchdog.OnAnswer | desktop/WebContentWatchdog.swift:159-175 | an answer of another web view changes nothing; the others are recorded or held back |
| LineSplitter.ChunksDoNotMatter | desktop-windows/src/wsl.ts:25-33 | however the text is cut, the lines are those of the whole text but the unfinished last |
| LineSplitter.LinesRebuild | desktop-windows/src/wsl.ts:29-30 | lines and their endings give the text back |
| LineSplitter.SplitEndingIsOneEnding | desktop-windows/src/wsl.ts:27-30 | a carriage return and its newline in two chunks |
| LineSplitter.NulsAreCut | desktop-windows/src/wsl.ts:31 | a line given loses its NULs and nothing else |
| LineSplitter.Splitter.Feed | desktop-windows/src/wsl.ts:27-32 | what is given and what is left after every chunk |
| OutputReader.ProcessOutputReader.Handle | desktop/DesktopDiagnostics.swift:98-130 | the buffer is the last characters of all text, the end is signalled once and only for an end that comes first |
| OutputReader.ConfirmedOnceWritten | desktop/main.swift:1363-1379 | the port is confirmed as soon as all text so far holds the phrase, when each text and the phrase fit |
| OutputReader.OneMoreCanHideIt | desktop/DesktopDiagnostics.swift:121-124 | one character more and it can be missed |
| Base64.EncodeReadBack | desktop/ApprovalBridge.swift:53 | every octet string is read back |
| Base64.EncodeInjective | desktop/ApprovalBridge.swift:53 | one encoding, one text |
| ApprovalText.SameTextIff | desktop/ApprovalBridge.swift:51-65 | two approvals have one text exactly when the same fields are shown, if either's plain fields hold no newline |
| ApprovalText.NewlinesForgeAField | desktop/ApprovalBridge.swift:56-61 | with newlines two differing approvals share a text |
| ApprovalReadings.ForgeableIff | desktop/ApprovalBridge.swift:51-65 | a text is shared with an approval shown differently exactly when its pieces can be cut at keys another way |
| ApprovalReadings.RereadHasTheText | desktop/ApprovalBridge.swift:51-65 | every other cut is the text of some approval |
| ApprovalReadings.NoOtherKeyNoForgery | desktop/ApprovalBridge.swift:51-65 | newlines forge nothing where no line after one begins with a key |
| ApprovalText.AnswersStandApart | desktop/ApprovalBridge.swift:114-128 | no approval's text is an answer, and an answer fits one digest and decision |
| PercentCoding.ReadBack | desktop/AppLink.swift:28-33 | decoding undoes encoding for every text |
| PercentCoding.StaysIff | desktop/AppLink.swift:28-33 | exactly which texts are left as they are |
| PercentCoding.AcceptsIff | desktop/AppLink.swift:23-26 | exactly which links are the app's |
| PercentCoding.FragmentReadBack | desktop/AppLink.swift:35-39 | the console reads the very link back, with no mark that could end the fragment |
| AgentPaths.SegmentReadBack | src/constants.ts:203-214 | a valid id comes back from its path segment |
| AgentPaths.ValidIdIff | src/constants.ts:194-200 | exactly which agent ids are valid, with and without a plugin |
| AgentPaths.SegmentNamesIff | src/constants.ts:203-214 | a segment names an id exactly when it decodes to a valid one |
| AgentPaths.SegmentIsAComponent | src/constants.ts:194-205 | a segment has no separator and is no dot name |
| AgentPaths.SegmentOfAnotherSpelling | src/constants.ts:208-214 | a segment spelled otherwise can name an agent without being its own |
| AgentPaths.ChatHistoryIsOwn | src/constants.ts:221-224 | two agents share a chat history only when they are one or both the general one |
| AgentPaths.ConversationDirIsOwn | src/constants.ts:232-234 | no two agents share a conversation directory |
| AgentPaths.CaseBlindIff | src/constants.ts:194-205 | where case is ignored they do exactly when their ids differ in case alone |

## Left out

- Timers and deadlines of the server start: a timer is an event that may come at any time, so how long each wait lasts, and answers to a poll whose timer has stopped, are not modelled.
- The clock of ServerRestartPolicy: whether a server had stayed healthy is an input.
- UpdaterMachine.ResolveLatest: the feed's own trap on a malformed version text is an answer like any other; redirects, downloads of other versions and their removal (`removeStaleDownloads`) are not modelled.
- Code signatures, `hdiutil`, `ditto`, `apply-update.sh`, HTTP, Touch ID, the Secure Enclave and SHA-256: each is an answer given to the model.
- `install.sh`: its contract is the link and version directory its callers read back.
- hostArch, appArch and the translation flag of the update state: no step reads them.
- RepairLinks.Column: a `session_ids` column holding JSON that is no list, and malformed `ext` JSON, on which the script stops, are not modelled.
- Remote links of a merged victim (`recordRemoteLink`), the session row's pointer to its former task, event bus messages and the count of re-pointed rows are not modelled; nor is a survivor deleted by someone else during a merge.
- TaskMerge.ByRecency: sessions last active at one time are taken in one fixed order, which SQL leaves open.
- DuplicateSurvivor.Sorted: `Array.sort` is modelled by its result, a stable sort; `localeCompare` is a rank.
- DuplicateGroups.Task: a remote id that is no text is not modelled, and titles and projects come lower-cased and trimmed.
- CheckoutRemoval: a user's edit between the check and the rename of one launch is not modelled; nor are the servers stopped before a move.
- CheckoutClone: lines come split, and white space is blanks and tabs.
- WatchdogMachine: how the served and loaded bundles are learned, crash reload backoff and posting to the server; the bundle's staleness is an input.
- LineSplitter and OutputReader: texts come decoded; a character cut between two chunks is not modelled, and Swift's grapheme clusters are characters here.
- PercentCoding.DecodeComponent: does not check that the octets are UTF-8.
- SemVer.CompareIsPrecedenceIff: the three core numbers fit 64 bits; a version with a larger one is read as no version and is below the others (`Version.CompareIsPreorder`).
- Unicode: strings compare by code, with no canonical equivalence; version texts are ASCII.
- Data races on the updater and reader: their calls come one after another.
- The user interface, recording, links' routing, session hosts, iOS tests, builds and deployment: no property beyond one branch.
