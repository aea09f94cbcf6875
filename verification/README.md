# Codifa's stateful cores and parsers

Codifa is a desktop app in which an agent edits a project. This project models the parts of it that keep
state, share it, or read what others wrote, and proves what they promise.

| file | models |
|---|---|
| `Terminals`, `TerminalProtocol`, `TerminalRuns` | background terminals: one locked registry per app instance, a shared folder of row files, watcher threads, healing and stopping rows of other instances |
| `FileTree`, `Backup`, `Restore`, `RoundTrip` | the filtered backup walk and the restore in two phases: extract to a staging folder, then rename file by file |
| `Browser`, `BrowserRuns` | the shared browser process: tab registry, idle clocks, reaper |
| `HttpReader` | the reader that takes one HTTP response from a socket that stays open |
| `Artifacts` | versioned documents: version files, a history window, an index written last |
| `TraceRuler`, `TraceReport`, `Utf8Prefix` | who pays for a traced model call, which tokens a held cache would have saved, in one run and over all, and the common prefix of two prompts |
| `Slots`, `SlotMeaning` | which provider a slot entry means, and the chain of calls behind it |
| `Keywords`, `KeywordReplies` | reading a model's `name: phrase, phrase` reply back |
| `Jpeg`, `Recovery` | two scripts: the size of an image from its first bytes, and merging lost provider rows |
| `Text`, `FirstOccurrences`, `Sorting`, `Wrappers` | the library operations the others share |

Objects the program updates in place are classes (`Registry`, `RowFiles`, `FileSystem`, `PackList`, `Mover`,
`Session`, `ArtifactDir`, `Usage`, `Ledger`, `Report`); each method is proved against a function or predicate on values, and
the laws are lemmas about those. Loops over hash maps take the keys in an arbitrary order. A failure the operating
system may give at any point is a nondeterministic choice. A `quiet` file system fails only where the operation
cannot succeed, which is what lets the restore be characterised exactly.

The terminal protocol is a state machine. One event is one critical section, one row-file access, one probe or one
signal; any number of instances interleave, an instance may die between any two events, a wait may fail, and pids are
reused as soon as a process is reaped. Its steps use the predicates that the methods of `Registry` are proved
against (`PrunedTo`, `Observed`, `Healed`, `Consistent`).

Where the code and its own comments differ, the model follows the code:

- A failure while packing, be it at the manifest, a folder, a file or the end of the archive, leaves the unfinished
  archive behind (src-tauri/src/backup.rs:318-357); the comment at 271-273 says it is removed. See `Backup.BuildBackup`.
- Fallbacks behind an empty slot entry are walked (src-tauri/src/backend_light.rs:1136-1164); the comment at 1107-1109
  says they are ignored. See `Slots.EmptyEntryIsWalkedOn`, and `Slots.ChainIsTheSlotAlone` for when the slot's own
  rung is the whole chain.
- A root-level file called `backup.json`, which unzipping a backup by hand leaves as the header comment suggests
  (src-tauri/src/backup.rs:1-11), makes every later backup fail: the zip writer refuses a second entry of the
  manifest's name. See `Backup.BuildBackup` and `RoundTrip.Transfer`.
- A provider row with a key and no base URL sends that key to the chat's own endpoint
  (src-tauri/src/backend_light.rs:960-992); the comment at 983-988 guards only the other direction. See
  `Slots.OwnKeysReachParentIff` and `Slots.OwnKeyCanReachParent`.
- A slot set to "main" keeps a provider's endpoint kind if that provider alone lists a model called "main"
  (src-tauri/src/backend_light.rs:1045-1063); the comment at 1036-1044 says the kind is that of the endpoint called.
  See `Slots.KindFollowsRoute` and `Slots.AliasCanStray`.
- Healing a foreign row, or stopping it, writes a row without the real exit code
  (src-tauri/src/agent_terminals.rs:321-323, 391-395). A row file is claimed only never to hold another code. See
  `TerminalRuns.RowFilesCarryNoOtherCode`.
- The browser's own idle clock ignores running turns (src-tauri/src/browser.rs:653-664). See
  `BrowserRuns.ReaperSparesUsedTabs` and, for a run that loses a tab in the middle of a turn,
  `BrowserRuns.TurnDoesNotKeepTheBrowser`.
- Selecting a tab asks nobody whether another chat drives that page (src-tauri/src/browser_driver.rs:1834-1842), so
  two chats can come to share one. See `BrowserRuns.SelectedPageCanBeShared`.
- A save that fails on its attachments has already removed the old ones (src-tauri/src/artifacts.rs:112-127), while
  the index goes on naming them. See `Artifacts.OverLimitLosesAssets` and `Artifacts.AssetsOverARun`.
- A file in the archive below a folder of the staging folder's name is renamed into the folder being walked
  (src-tauri/src/backup.rs:518-533). See `Restore.EntriesBelowStagingCanMix`.
- The walk over a JPEG knows no frame of types 13 to 15, which its comment lists (scripts/attribute-images.py:53-67).
  See `Jpeg.UnlistedFrameIsPassed`.
- A live settings file that repeats a provider id can lose that provider's keys
  (scripts/recover-providers.py:66-69). See `Recovery.KeysAreLostIff`.

## Model

| member | source | states |
|---|---|---|
| Terminals.Registry.Insert | src-tauri/src/agent_terminals.rs:203-206 | a spawned row enters the registry running and with its handle; all other rows stay |
| Terminals.Registry.PruneExited | src-tauri/src/agent_terminals.rs:408-427 | no running row goes, at most ten exited rows stay, and those are the latest started |
| Terminals.Registry.Tick | src-tauri/src/agent_terminals.rs:215-238 | one look of the watcher: an exited child's row loses its flag and its handle and takes the exit code, a failed wait gives -1; every other field stays, and the row to publish is the one stored |
| Terminals.Registry.SignalFor | src-tauri/src/agent_terminals.rs:253-272 | a stop, and its escalation, signal exactly the rows whose handle is still held |
| Terminals.Registry.List | src-tauri/src/agent_terminals.rs:373-404 | own rows and foreign row files of the chat, each once, running first and newest first; a stale foreign row loses its flag, keeps a code it had and is given -1 otherwise; every other file is untouched |
| Terminals.HealForeign | src-tauri/src/agent_terminals.rs:383-397 | exactly the foreign files of the chat whose pid is gone are rewritten, as stopped and otherwise as they were, and what is listed is what is on disk |
| Terminals.RowFiles.Write | src-tauri/src/agent_terminals.rs:94-103 | one row file is replaced, no other |
| Terminals.RowFiles.PruneOld | src-tauri/src/agent_terminals.rs:140-152 | exactly the files of stopped terminals older than a day go |
| Terminals.InListOrder | src-tauri/src/agent_terminals.rs:398-403 | the listed rows are the found ones, sorted |
| TerminalProtocol.StepKeeps | src-tauri/src/agent_terminals.rs:157-427 | every enabled event of any instance keeps the invariant that ties processes, registries, threads, row files, helpers, pids and signals together |
| TerminalProtocol.HelperStepWorks | src-tauri/src/agent_terminals.rs:302-330 | each step of a foreign stop, a heal or an escalation touches one terminal only and never writes a live process as stopped |
| TerminalRuns.InvAlways | src-tauri/src/agent_terminals.rs:157-427 | the invariant holds in every world of every run |
| TerminalRuns.StoppedOnDiskIsDead | src-tauri/src/agent_terminals.rs:217-246 | a row file that says stopped belongs to a reaped process, unless waiting for that process failed |
| TerminalRuns.FailedWaitPublishesALiveProcess | src-tauri/src/agent_terminals.rs:231-236 | from any sound world with a watched live process, one failed wait publishes it as stopped |
| TerminalRuns.StoppedOnDiskCanBeAlive | src-tauri/src/agent_terminals.rs:157-246 | a whole run from the start that ends with a live process stopped on disk, its only look at the child a failed wait |
| TerminalRuns.StoppedOnDiskStaysStopped | src-tauri/src/agent_terminals.rs:206-246 | once a row file said stopped, no spawn, list, heal, foreign stop or watcher write makes it say running again |
| TerminalRuns.ExitedRowsCarryTheirCode | src-tauri/src/agent_terminals.rs:202-238 | in every world of every run an exited registry row is the launched one with the code of that terminal's own exit, or with -1 where a wait for it failed |
| TerminalRuns.PublishedRowsCarryTheirCode | src-tauri/src/agent_terminals.rs:217-246 | so is the row its watcher publishes |
| TerminalRuns.OneExitEach | src-tauri/src/agent_terminals.rs:219-230 | a terminal exits at most once, so that code is the only one |
| TerminalRuns.RowFilesCarryNoOtherCode | src-tauri/src/agent_terminals.rs:217-397 | no row file of any run, healed and foreign-stopped ones included, claims a code but -1 that its process did not exit with |
| TerminalRuns.RunningMeansHandleKept | src-tauri/src/agent_terminals.rs:219-238 | in every registry of every run, running means the handle is kept, and then the process is not reaped |
| TerminalRuns.LocalSignalsReachTheirOwnProcess | src-tauri/src/agent_terminals.rs:253-271 | a stop and its delayed escalation reach their own process and nothing else, although pids are reused |
| TerminalRuns.ForeignSignalsNeedTheirOwnPid | src-tauri/src/agent_terminals.rs:302-330 | a foreign signal that reaches its terminal reaches nothing else, and any foreign signal misses others unless that terminal's own pid was reused |
| TerminalRuns.SignalsReachTheUnreaped | src-tauri/src/agent_terminals.rs:253-330 | a signal reaches its terminal's process if and only if that process is not reaped when it is sent |
| TerminalRuns.RunningRowsAreWatched | src-tauri/src/agent_terminals.rs:202-246 | a registry row is running exactly while its spawn-and-watch thread still has to report |
| TerminalRuns.WatchedRowsAreKept | src-tauri/src/agent_terminals.rs:408-427 | no prune takes a row whose watcher is not done |
| TerminalRuns.DrainedRowsAreExact | src-tauri/src/agent_terminals.rs:215-246 | with its watcher at rest, a row file says running exactly when the process is alive, whether or not the registry still has the row |
| TerminalRuns.Drain | src-tauri/src/agent_terminals.rs:213-246 | from any sound world the watchers can finish all their work, killing nothing |
| TerminalRuns.SchedulesAreBounded | src-tauri/src/agent_terminals.rs:213-246 | no schedule of watcher work, whatever its order, is longer than the work there was |
| TerminalRuns.EverySchedule | src-tauri/src/agent_terminals.rs:213-246 | every schedule of watcher work kills nothing and stops, and where no watcher can go on every terminal of a live instance past its launch, pruned or not, is exact on disk |
| TerminalRuns.NoExitIsLost | src-tauri/src/agent_terminals.rs:202-246 | from every reachable world the pending watcher work leads to exact row files for every terminal of a live instance past its launch, pruned or not |
| Backup.PackList.Collect | src-tauri/src/backup.rs:542-595 | the walk pushes every packable file and folder below a folder once, and nothing else, in whatever order names are listed |
| Backup.FilterIs | src-tauri/src/backup.rs:27-43 | the names of the folders and files a backup passes over, one by one |
| Backup.BuildBackup | src-tauri/src/backup.rs:274-368 | a finished archive holds the manifest and exactly the packable entries with their contents; of all that can go wrong once the file exists only a cancel removes it; undisturbed it succeeds if and only if no root-level file has the manifest's name |
| Restore.Extract | src-tauri/src/backup.rs:417-474 | extraction succeeds only with the staging folder holding exactly what the archive says, and does succeed for a coherent archive on a quiet file system |
| Restore.Mover.CollectStaged | src-tauri/src/backup.rs:507-537 | every staged file below a folder is renamed over its live path and every folder remembered; any stop leaves each file in exactly one place |
| Restore.Mover.MoveAll | src-tauri/src/backup.rs:468-502 | the move phase empties the staging folder, creates empty folders too, and counts what it moved |
| Restore.MovedOne | src-tauri/src/backup.rs:520-533 | one rename keeps the correspondence between live and staged tree |
| Restore.RestoreArchive | src-tauri/src/backup.rs:392-502 | success overlays the archive on the live tree; a failed or cancelled extraction changes nothing, a failed move leaves each file old or new and nothing else touched, staging is gone either way; an archive with a file of the staging folder's name never succeeds; on a quiet file system success holds if and only if there is no such file and archive and tree do not clash |
| Restore.ResumedRestore | src-tauri/src/backup.rs:479-502 | over what any failed move left, the archive fits exactly when it fitted the original tree, and gives the same tree |
| Restore.RestoreAgain | src-tauri/src/backup.rs:392-502 | however many moves failed before, the next attempt that succeeds ends in the tree the first would have made, and one that fails leaves the tree fit for another |
| Restore.EntriesBelowStagingCanMix | src-tauri/src/backup.rs:507-537 | an archive with an entry below the staging folder's name and an order of the walk in which another file arrives with that entry's content, no rename failing |
| RoundTrip.ContentsOfBackup | src-tauri/src/backup.rs:274-368 | an archive of a tree extracts to exactly the tree's kept part |
| RoundTrip.KeptIsSettled | src-tauri/src/backup.rs:542-595 | filtering is settled after one pass |
| RoundTrip.BackupAvoidsStaging | src-tauri/src/backup.rs:373-378 | no archive of a tree reaches into the staging folder; it has a file of its name if and only if the tree has one at its root |
| RoundTrip.BackupOfRestored | src-tauri/src/backup.rs:774-822 | restored onto an empty root a backup gives the kept tree, and backing that up holds the same |
| RoundTrip.Transfer | src-tauri/src/backup.rs:774-856 | backup of one tree and restore over another gives the overlay, with the moved count equal to the packed count; undisturbed it succeeds if and only if the tree has no root-level file called `backup.json` or like the staging folder, nothing blocks the staging folder and the trees do not clash |
| Browser.Session.AlivePort | src-tauri/src/browser.rs:575-612 | the port is up exactly with a browser that has not exited and is not past its time; it keeps its tabs and has its clock restarted with a tab open; otherwise browser and tabs are forgotten |
| Browser.Session.RestartIdleClockIfUnused | src-tauri/src/browser.rs:626-635 | the clock restarts exactly when the last tab has gone |
| Browser.Session.ReapIfIdle | src-tauri/src/browser.rs:653-664 | the browser is killed by its own clock alone |
| Browser.Session.ReapIdleTabs | src-tauri/src/browser.rs:1139-1182 | exactly the entries past their time whose chat runs no turn are dropped and closed |
| Browser.Session.Adopt | src-tauri/src/browser.rs:1041-1086 | a poll leaves a chat on a shown page where it is, and moves any other to the first page that shows something and nobody drives, in the chat's own viewport; it returns what is registered |
| Browser.Session.EnsureTab | src-tauri/src/browser.rs:913-939 | a registered tab in a live browser that answers is kept and touched; otherwise the chat ends with a new tab in the default viewport, in the live browser or one launched for it, or with none, and other chats lose theirs only with a browser that is gone |
| Browser.Session.ExistingTab | src-tauri/src/browser.rs:1109-1114 | looking a tab up touches it and nothing else |
| Browser.Session.CloseTab | src-tauri/src/browser.rs:1195-1209 | closing drops the chat's entry and says whether there was one |
| Browser.Session.StoreViewport | src-tauri/src/browser.rs:1185-1192 | only the chat's own viewport changes |
| Browser.Session.SetTarget | src-tauri/src/browser.rs:2077-2083 | only the chat's own target changes |
| BrowserRuns.OpKeepsOneTabPerChat | src-tauri/src/browser.rs:913-1209 | every operation keeps one tab per chat, whatever targets it is given |
| BrowserRuns.OpKeepsRegistry | src-tauri/src/browser.rs:913-1209 | with a target nobody else drives, every operation also keeps targets apart |
| BrowserRuns.TargetsStayApart | src-tauri/src/browser.rs:913-1209 | in a run whose calls all get such targets no two chats ever drive one page |
| BrowserRuns.SelectedPageCanBeShared | src-tauri/src/browser_driver.rs:1834-1842 | a run from the start in which selecting a page makes two chats drive it |
| BrowserRuns.PointingNeedsAnUnclaimedPage | src-tauri/src/browser.rs:2077-2083 | pointing a chat at a page keeps targets apart if and only if no other chat drives that page |
| BrowserRuns.PollMovesIff | src-tauri/src/browser.rs:1041-1086 | a poll moves a chat to another page if and only if its own page is not shown and some page shows something and is nobody's |
| BrowserRuns.ChatKeepsItsPage | src-tauri/src/browser.rs:1041-1086 | through any calls of any chats a chat keeps the page it is on while its own polls see it shown, its tab is not closed or pointed elsewhere, and the browser process runs |
| BrowserRuns.ReaperSparesUsedTabs | src-tauri/src/browser.rs:653-664 | a tab in use survives a tick if and only if the browser does, whose clock does not look at turns |
| BrowserRuns.TurnDoesNotKeepTheBrowser | src-tauri/src/browser.rs:653-664 | a run in which every tick finds the chat in a turn and spares its tab, until IDLE_REAP after the last call the browser goes with it |
| BrowserRuns.PollsKeepViewports | src-tauri/src/browser.rs:1041-1086 | status and screenshot polls, adoption included, change no viewport |
| BrowserRuns.PollsKeepViewportsAlways | src-tauri/src/browser.rs:1041-1086 | nor do they in any run |
| BrowserRuns.SaneAlways | src-tauri/src/browser.rs:575-664 | in every run clocks never run ahead, launches are numbered apart and each chat has at most one tab |
| BrowserRuns.UnusedBrowserIsReaped | src-tauri/src/browser.rs:575-664 | with no tab open, no sequence of calls keeps a browser past IDLE_REAP plus one reaper interval |
| BrowserRuns.AbandonedBrowserIsReaped | src-tauri/src/browser.rs:1118-1182 | a browser whose tabs nobody touches is gone within TAB_IDLE_TTL + IDLE_REAP + 2 reaper intervals |
| HttpReader.ReadResponse | src-tauri/src/browser.rs:334-371 | the loop stops at the first read after which the announced body is complete, and hands over what follows the header |
| HttpReader.SplitDoesNotMatter | src-tauri/src/browser.rs:334-368 | for any way of announcing a length, every split of an exact response is read whole, with no further read, and yields the body alone |
| HttpReader.HeaderEndOf | src-tauri/src/browser.rs:343-346 | the first blank line of a response is the end of its header block |
| HttpReader.HeaderLinesBack | src-tauri/src/browser.rs:347 | a header block's lines come back one by one |
| HttpReader.AnnouncedResponseIsExact | src-tauri/src/browser.rs:343-360 | header lines with a Content-Length of n, a blank line and n body bytes are an exact response with that body |
| HttpReader.ReadAnnounced | src-tauri/src/browser.rs:334-371 | for every split of such a response into non-empty reads, the reader takes all of them, asks for no more and returns exactly the body (section 6.2 of RFC 9112) |
| HttpReader.SplitMattersOnlyWhenOverlong | src-tauri/src/browser.rs:334-368 | the body is the same for all splits of a stream if and only if it holds no more than announced |
| HttpReader.OverlongDiffers | src-tauri/src/browser.rs:334-368 | an overlong stream has two splits that yield different bodies |
| HttpReader.AnnouncedLengthIsRead | src-tauri/src/browser.rs:347-354 | the number of a length header in any case, with any white space around it, is read back past lines of other names |
| HttpReader.LengthName | src-tauri/src/browser.rs:347-354 | a header name is that of the length if and only if each letter is, small or capital |
| Artifacts.AssetsStayInside | src-tauri/src/artifacts.rs:91-104 | no attached name leaves the assets folder |
| Artifacts.AssetNameIsKept | src-tauri/src/artifacts.rs:91-104 | parts of a path that go somewhere come back as they are, and an empty, `.` or `..` part between any of them is left out |
| Artifacts.SlashesAreAlike | src-tauri/src/artifacts.rs:92-101 | a path with backslashes is read like the one with slashes |
| Artifacts.LastAttachmentIsStored | src-tauri/src/artifacts.rs:128-147 | each attachment is stored under its own name, and of several with one name the last |
| Artifacts.ArtifactDir.WriteAssets | src-tauri/src/artifacts.rs:111-150 | on success the folder holds exactly the request's attachments; a failure leaves some of the old ones, or a first part of the new ones and perhaps one broken off |
| Artifacts.ArtifactDir.Save | src-tauri/src/artifacts.rs:227-309 | refused it changes nothing and says why; finished it makes the next version in the kind and under the title named, or those stored before, and its attachments were within the limits; stopped at the version file, among the attachments or behind them it leaves the old document in front and just what those steps leave of files and attachments |
| Artifacts.ArtifactDir.ExistingAssets | src-tauri/src/artifacts.rs:175-181 | the names are exactly those of the stored attachments |
| Artifacts.ArtifactDir.ReadLatest | src-tauri/src/artifacts.rs:312-327 | reading returns the file the index points at, or nothing when either is missing |
| Artifacts.FileNameIsInjective | src-tauri/src/artifacts.rs:254-257 | no two versions or kinds share a file name |
| Artifacts.SavedKeepsHistory | src-tauri/src/artifacts.rs:254-298 | a finished save leaves index and files in agreement with every save so far |
| Artifacts.StoppedKeepsHistory | src-tauri/src/artifacts.rs:255-298 | stopped between any two writes, the history is sound and the same document is read |
| Artifacts.SavedIsRead | src-tauri/src/artifacts.rs:240-327 | a finished save is what the next read returns, in the kind and under the title it named, or those stored before |
| Artifacts.ReadIsTheLastFinishedSave | src-tauri/src/artifacts.rs:227-327 | after any run of finished, refused and stopped saves the last finished one is read |
| Artifacts.ReadIsNamedByTheRun | src-tauri/src/artifacts.rs:240-270 | after any run the kind read is that of the last finished save that named one, "md" for `md` and `markdown` in any case and padding and "html" for any other word, and "html" if none did; the title is that of the last finished save that named one, else the id |
| Artifacts.StopKeepsAssets | src-tauri/src/artifacts.rs:254-263 | a stopped save that brought no attachments, or never came to them, keeps the stored ones; any stopped save unlists some if and only if it changed their names |
| Artifacts.AssetsOverARun | src-tauri/src/artifacts.rs:227-309 | after any run the index lists the stored attachments if and only if their names are those the last finished save left, and their contents are that save's unless a later one was stopped among its own attachments or behind them |
| Artifacts.OverLimitLosesAssets | src-tauri/src/artifacts.rs:112-127 | a list over the limit never gets saved, and can end with the old document in front, its attachments gone and the index still naming them |
| Artifacts.LeftoverNext | src-tauri/src/artifacts.rs:276-281 | a save leaves unlisted on disk what was before and, when its removal failed, the version it dropped |
| Artifacts.WindowAfterSaves | src-tauri/src/artifacts.rs:272-298 | after n saves the index lists versions max(1, n-19) to n in order, each on disk with its own save's content, and no other version file is on disk if and only if every removal worked |
| TraceRuler.Usage.Add | src-tauri/examples/trace_ruler.rs:89-104 | one row adds its figures, and a cache figure only when it reports one |
| TraceRuler.Ledger.Take | src-tauri/examples/trace_ruler.rs:217-269 | after each row the three totals are, figure by figure, the sums over the calls that main, explore and nobody pay for by the positions of the prompts so far, and each run's rows are filed in order |
| TraceRuler.Attribute | src-tauri/examples/trace_ruler.rs:217-269 | explore pays for exactly the calls whose run was last opened as an explore one, main for those of runs last opened as main and the unattributed ones before the first explore prompt, nobody for the unattributed rest, in every figure; the three together are the bill of all calls, and the calls attributed by run are counted |
| TraceRuler.RoleByPosition | src-tauri/examples/trace_ruler.rs:219-269 | each call has one payer, told by the latest opening of its run before it or by its place |
| TraceRuler.BillsAreConserved | src-tauri/examples/trace_ruler.rs:242-269 | whoever is judged to pay, every figure of the three shares adds up to that of all calls |
| TraceRuler.FiguresAdd | src-tauri/examples/trace_ruler.rs:89-104 | calls, input, output and both cache figures are figures that add up |
| TraceRuler.MeasureRun | src-tauri/examples/trace_ruler.rs:603-630 | the loop over the later calls of a run yields its waste and adds them to the warm total |
| TraceRuler.WasteByPosition | src-tauri/examples/trace_ruler.rs:603-630 | each later call re-bills the smaller of its own and the previous input beyond what its cache served, breaks if that is over a quarter of its input, and counts as shrinking if its input fell |
| TraceReport.Report.AddRun | src-tauri/examples/trace_ruler.rs:595-632 | one run adds its first call to the cold total, the others to the warm one, its breaks to its role and a line to the list |
| TraceReport.BreakDown | src-tauri/examples/trace_ruler.rs:586-632 | the loop over the runs ends with the sums over all of them |
| TraceReport.ColdAndWarmAreTheNumbered | src-tauri/examples/trace_ruler.rs:586-632 | in every figure, first and later calls together are exactly the calls that carry a run |
| TraceReport.ColdAndWarmByPosition | src-tauri/examples/trace_ruler.rs:586-632 | cold are exactly the calls that open their run in the file, warm exactly the later ones, in every figure |
| TraceReport.CausesSplitBreaks | src-tauri/examples/trace_ruler.rs:593-631 | per role, shrinking and growing prompts together account for every break, and their tokens stay within what was avoidable |
| TraceReport.Measure | src-tauri/examples/trace_ruler.rs:189-632 | those laws hold of the report computed from a file's rows, and each run's role is what its latest opening in the file says |
| TraceRuler.UncachedIsGrowthOrAvoidable | src-tauri/examples/trace_ruler.rs:603-628 | later calls pay for at most prompt growth plus avoidable tokens, and both kinds of break stay within avoidable |
| TraceRuler.NothingAvoidableIffCacheHeld | src-tauri/examples/trace_ruler.rs:603-628 | nothing is avoidable if and only if every later call's cache reached the smaller of its own and the previous input |
| Utf8Prefix.CommonPrefixLen | src-tauri/examples/trace_ruler.rs:24-37 | the largest shared prefix that is a character boundary of both strings, at most three bytes below the shared bytes |
| Utf8Prefix.ByteTestIsRight | src-tauri/examples/trace_ruler.rs:33-35 | the look at one byte decides character boundaries of valid UTF-8 (section 4 of RFC 3629) |
| Utf8Prefix.BoundaryIsShared | src-tauri/examples/trace_ruler.rs:31-35 | a boundary of one string inside a shared prefix is one of the other |
| Utf8Prefix.PrefixLenIsSymmetric | src-tauri/examples/trace_ruler.rs:24-37 | swapping the two strings changes nothing |
| Slots.KindOwner | src-tauri/src/backend_light.rs:884-901 | the loop names an owner exactly as the list of matching rows says |
| Slots.OwnerOfModel | src-tauri/src/backend_light.rs:906-929 | the loop with its empty-string marker agrees with the list of matching rows |
| Slots.KindNamesTheSoleRow | src-tauri/src/backend_light.rs:884-901 | a kind names a provider if and only if one and only one row has it, in any map order |
| Slots.ModelNamesTheSoleRow | src-tauri/src/backend_light.rs:906-929 | a model names a provider if and only if it alone lists it, with no empty id beside it |
| Slots.OnlyAnEmptyIdMakesOrderMatter | src-tauri/src/backend_light.rs:906-929 | attribution depends on the map order if and only if one provider lists the model beside a provider with an empty id |
| Slots.EntrySplitsBack | src-tauri/src/backend_light.rs:853-880 | `id/model` names its parts again, slashes in the model and white space around it included |
| Slots.NamedEntryIsRouted | src-tauri/src/backend_light.rs:931-1000 | such an entry is sent to that provider's endpoint, for that model |
| SlotMeaning.EntryMeansItsTarget | src-tauri/src/backend_light.rs:853-1000 | an alias has all four of the parent's fields; a head that is a configured id, or else the kind of exactly one row, is that provider asked for the rest; any other text is asked for whole, of the one provider that lists it, else of the parent; base URL and keys are that row's or the parent's |
| Slots.KeysAreBorrowedIff | src-tauri/src/backend_light.rs:968-992 | own keys always win; the parent's keys go exactly to a keyless row on the parent's endpoint, and a keyless row elsewhere has none |
| Slots.TargetKeysMatchBase | src-tauri/src/backend_light.rs:953-992 | every key of a target is its own row's, sent to that row's base URL or to the parent's where the row names none; or it is the parent's, sent to the parent's |
| Slots.OwnKeysReachParentIff | src-tauri/src/backend_light.rs:955-992 | an entry takes its row's keys to the parent's endpoint if and only if that row has keys and its base URL is no string or the parent's; and the parent's endpoint gets a strange key if and only if one of those keys is not the parent's |
| Slots.OwnKeyCanReachParent | src-tauri/src/backend_light.rs:955-992 | a settings map whose one row has a key and no base URL, and sends it to the parent's endpoint |
| Slots.ChainKeysMatchBase | src-tauri/src/backend_light.rs:1110-1166 | the same account of keys and base URLs holds for every rung of any chain |
| Slots.KindFollowsRoute | src-tauri/src/backend_light.rs:1045-1063 | a rung's kind is that of the provider it is sent to if and only if its entry is neither a claimed alias nor routed to an empty id |
| SlotMeaning.KindOfARow | src-tauri/src/backend_light.rs:1045-1063 | a row's own kind, without white space around it, is the kind of its calls; a row without one leaves the parent's |
| Slots.AliasCanStray | src-tauri/src/backend_light.rs:1045-1063 | a concrete settings map in which the slot "main" gets another provider's kind |
| Slots.ResolveChain | src-tauri/src/backend_light.rs:1110-1166 | the loop, early return included, yields the first rung of each key among slot entry and usable fallbacks |
| Slots.ChainIsFirsts | src-tauri/src/backend_light.rs:1068-1078 | the slot's own rung comes first, fallbacks follow in order, no call is repeated |
| SlotMeaning.ChainMeansItsEntries | src-tauri/src/backend_light.rs:1110-1166 | a chain starts with what its slot entry stands for, and every other rung is what one of the fallbacks stands for |
| SlotMeaning.ChainMakesNoCallTwice | src-tauri/src/backend_light.rs:1068-1166 | no two rungs agree in provider, model and base URL, and none behind the first has a blank model |
| SlotMeaning.ChainHoldsEveryCall | src-tauri/src/backend_light.rs:1136-1166 | every fallback that is not blank and has a model finds its provider, model and base URL in the chain |
| Slots.ChainIsTheSlotAlone | src-tauri/src/backend_light.rs:1110-1166 | the slot's own rung is the whole chain if and only if every usable fallback has that rung's key, whether or not the slot is empty |
| Slots.EmptyEntryIsWalkedOn | src-tauri/src/backend_light.rs:1136-1164 | an empty slot whose one fallback names another model has a chain of two rungs |
| FirstOccurrences.FirstsArePicked | src-tauri/src/backend_light.rs:1138-1164 | the kept rungs are an ordered selection: exactly those whose key did not occur before |
| FirstOccurrences.NoKeyIsLost | src-tauri/src/backend_light.rs:1138-1164 | every call asked for is in the chain under its key |
| FirstOccurrences.OnlyTheFirstStays | src-tauri/src/backend_light.rs:1138-1164 | a walk keeps the first rung alone if and only if all others have its key |
| Slots.ChainIgnoresOrder | src-tauri/src/backend_light.rs:853-1166 | without an empty provider id the whole chain is independent of the map order |
| Keywords.Parse | src-tauri/src/appstate.rs:1091-1159 | the loops over items, lines and phrases read what the line-by-line definition reads |
| Keywords.Keep | src-tauri/src/appstate.rs:1149-1156 | the first six phrases that differ when folded |
| Keywords.AnyReplyIsSound | src-tauri/src/appstate.rs:1091-1159 | whatever the reply, keys are item names and each list has one to six non-empty phrases, no two folding alike |
| KeywordReplies.CleanedLead | src-tauri/src/appstate.rs:1102-1108 | bullets, numbers and space before a line are taken off, and nothing of the line |
| KeywordReplies.LineIsRead | src-tauri/src/appstate.rs:1112-1143 | a line that names its item, a bare list, a line under an invented head, and a line under a head that is neither name nor label, which is all phrases, reach the item they mean |
| KeywordReplies.LabelByWords | src-tauri/src/appstate.rs:1161-1174 | a head of words is a label if and only if it has at most four words and forty characters and no Persian letter |
| KeywordReplies.PersianIsNoLabel | src-tauri/src/appstate.rs:1161-1174 | a head with a Persian letter anywhere is never a label |
| KeywordReplies.ReplyReachesItsItems | src-tauri/src/appstate.rs:1083-1159 | a reply of such lines, bulleted, numbered or quoted, gives each item the first answer it got and nobody else anything |
| KeywordReplies.PlainReplyReadsBack | src-tauri/src/appstate.rs:1091-1159 | printing `name: p1, p2` lines in any order and parsing gives back the first six different phrases of each name |
| Jpeg.Dims | scripts/attribute-images.py:51-69 | the walk ends on every input and yields what following its steps yields |
| Jpeg.FrameSizeIsFound | scripts/attribute-images.py:53-68 | SOI, then any segments, standalone markers and stray bytes, then a listed frame header: its width and height come back whatever the payloads hold (sections B.1.1.4 and B.2.2 of ITU-T T.81) |
| Jpeg.UnlistedFrameIsPassed | scripts/attribute-images.py:63-68 | behind any segments a frame header of type 13, 14 or 15 is passed like one more, whatever follows: the answer is what the walk finds after it |
| Jpeg.ItemsAloneHaveNoSize | scripts/attribute-images.py:56-69 | a file of segments alone, such headers among them, yields no size |
| Jpeg.PngSizeIsFound | scripts/attribute-images.py:51-52 | a PNG's width and height come back from its first chunk |
| Recovery.Merge | scripts/recover-providers.py:62-82 | the two loops yield each id's chosen row, live order first, and report exactly what was added or restored |
| Recovery.ChosenIs | scripts/recover-providers.py:66-81 | the live row wins, else the cache's first; a row without keys gives way to the cache's first one with keys |
| Recovery.LiveOrderIsKept | scripts/recover-providers.py:64-82 | live ids keep their order and come first; added ids were not live |
| Recovery.NewIdsAreNew | scripts/recover-providers.py:75-78 | an id is added once, and only where the live file had none |
| Recovery.ReportByPosition | scripts/recover-providers.py:69-82 | the report has one line for each cached row that is the first of an id the live file has not, or the first with keys of an id whose last live row has none, in their order |
| Recovery.NewIdsByPosition | scripts/recover-providers.py:75-78 | the ids behind the live ones are those of the cached rows that add one, in their order |
| Recovery.KeyedLiveRowStays | scripts/recover-providers.py:79-81 | an id whose live row has keys keeps that row whatever the cache holds |
| Recovery.KeysSurviveIff | scripts/recover-providers.py:66-81 | an id ends with keys if and only if its last live row or some cached row has them |
| Recovery.KeysAreLostIff | scripts/recover-providers.py:66-69 | an id that had keys loses them if and only if the live file repeats it, last without keys, and no cached row has any |
| Recovery.RepeatedIdCanLoseKeys | scripts/recover-providers.py:66-69 | a concrete live file in which that happens |
| Recovery.MergeIsIdempotent | scripts/recover-providers.py:62-82 | merging the result with the same cache changes nothing and recovers nothing |

## Left out

- The HTTP surface, tokens, event streams, provider calls, system prompts and the user interface: input and output around code that is not part of this model.
- Desktop control, schedules, settings persistence and title cleanup: they would only add easy members.
- Terminals: row-file writes are atomic and succeed, the guard on odd row ids, log files, the command line and the Windows branches are not modelled; a run starts with an empty row folder.
- Terminals: a process group is one process, times are natural numbers, and the day-old cut-off is computed without wrap-around.
- Backup and restore: symbolic links, names that are not UTF-8, unreadable entries of a folder listing, the zip encoding and progress events are not modelled; the tree does not change while it is packed, and the destination lies outside it.
- Backup and restore: removing the staging folder succeeds; the staging folder is a tree of its own on the same volume.
- Restore.RestoreArchive: the archive has no folder of the staging folder's name and nothing below it, since such entries are moved inside the folder being walked (`Restore.EntriesBelowStagingCanMix`); `RoundTrip.BackupAvoidsStaging` proves this of all archives built here. A file of that name is allowed and proved never to succeed.
- Restore.RestoreAgain: the same, and the staging folder of the failed attempt is gone, as `RestoreArchive` proves.
- Backup and restore: an entry whose name without its trailing slash is `backup.json` counts as the manifest, folder or not.
- Browser: each operation is one step although some wait inside; page lists, target ids, crashes and launches are parameters; the reaper ticks exactly every interval; finding, starting and downloading a browser is not modelled.
- HttpReader: one character stands for one byte, and white space around a header value is Unicode white space.
- Artifacts: the folder listing gives the set of asset names, not their order; an asset path that is both a file and a folder counts as a write error; letter case is ASCII; a corrupt index file, `list` and `delete` are not modelled; the index write is atomic.
- TraceRuler, TraceReport: only the attribution and the cold and warm loops; percentages, medians, the other sections of the report and reading the file are not modelled; token counts do not wrap around.
- Slots: JSON values other than strings and lists are one value, and `other_slot_entry`, `other_slot_level` and `other_slot_fallbacks` are not modelled.
- Keywords: the folding of Persian letters is an arbitrary function, so the results hold for every folding; the model call itself is not modelled.
- KeywordReplies.LineIsRead: a line under a head that names no item must hold no opening quotes before the head.
- Jpeg: splitting the data URL and decoding base64 are not modelled; fill bytes before a marker are outside the file format of `FrameSizeIsFound`.
- Recovery: ids are strings, a missing id is the empty string, and reading and writing the two files is not modelled.
