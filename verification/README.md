# Verified models of tabit's decision logic

Dafny models of six pieces of tabit that decide something and keep state, with proofs of what each of
them is for. `dafny verify dfyconfig.toml` checks everything.

| modules | what they model |
|---|---|
| `Previews`, `Forests`, `Trees`, `TreeReplay`, `TreeEntries`, `TreeRows`, `SessionTrees` | the client-built session tree of the terminal UI |
| `Streams`, `StreamTrees`, `Modes`, `ModeLaws`, `ModeRuns`, `StreamLives`, `StreamFacts`, `ModeFacts`, `ModeShows`, `ModeSteps`, `InteractiveModes`, `ModeExamples` | the interactive mode: one fold per stream with its session tree, the dock, the subagent list, the panes |
| `Manifests`, `Installs`, `InstallChecks`, `InstallLaws`, `InstallPlans`, `InstallSafety`, `InstallExamples`, `Uninstalls` | the extension installer over a tree of directories, and which packages a scan lists |
| `ArgParser`, `ArgTokens`, `Verdicts`, `GateLaws` | the permission gate's argument parser and its verdicts on shell commands |
| `Providers`, `ModelRefs`, `Toolsets` | config layering, model references, tool-name assembly |
| `CatalogRefresh`, `CatalogProtocol` | one refresh of the model catalog, and many processes doing it at once |
| `Wrappers`, `Sequences`, `Assoc` | options and results, sequence facts, insertion-ordered maps |

Code that changes things in place is a class or a method with loops (`SessionTree`, `StreamState`,
`InteractiveMode`, `View`, `Installer`, `TabitConfig`, `Catalog`, the parser and the checker). Each such
method is proved to compute a function on values, and the laws are lemmas about those functions and about
whole runs of them.

## How the interactive mode is stated

`Modes.Step` folds one wire frame or user action into a value. `InteractiveModes.InteractiveMode` is the
program's shape: it keeps stream objects, updates their fields, and tells its view piecemeal. Every
method of it ensures `State() == Step(old(State()), ...)` and `Told()`: the footer, status line, queue
and skills last told to the view are those of the focused stream, the notice last told is the first of
the most severe with the rest counted, the pane shown is the focused stream's, and no pane is kept for a
stream that is not registered (but the scratch pane and the home of unaddressed notes). `ReportTold()`
says the same of the program status. What the whole run guarantees is then proved of `Step` alone:
`ModeLaws` has the invariant of every step, `ModeRuns`, `StreamLives`, `StreamFacts` and `ModeFacts` the
theorems over whole runs, and `ModeShows` what they make the footer, the status line, the list, the landing
page and the program status say: each is read off the record of the run, not off the functions that fold it.

Every stream carries its session tree, whose steps are those of `Trees`. A tree can throw in the middle of
a handler (`Streams.Throws`, exactly `Trees.Throws`): the frame then ends where it stands, and the list and
the program status are not told. `Step` and `HandleFrame` follow such frames too.

The wire is trusted for three things, stated as `Modes.Legal`: a child is announced once, nothing reaches
a stream after its close (`mode.ts:30-43`), and a checkout names an entry of its stream's session tree
(`session-tree.ts:158-160`). In a run that keeps to them no frame throws (`ModeLaws.NoFrameThrows`) and every
stream's tree is well formed with a head that names an entry (`StreamLives.TreesStayGood`).

## Where the code and its own words differ

The models follow the code. Each promise below fails on a concrete input, and the exact condition under
which it holds is proved.

- `session-tree.ts:158-160` lets a checkout name an entry that the following replay lands. It cannot
  when that replay starts with a new entry: one other than the target throws, and the target itself
  becomes its own parent, so that the walk along the active path never ends
  (`Trees.UnannouncedCheckoutGoesWrong`, `Trees.StepGoesWrongIff`). A replay that starts with a known
  entry repairs the head (`Trees.KnownEntryRepairsHead`). In the running program such a checkout makes a later
  frame throw half-way: the delivered message stays in the queue, and the list and the program status are
  not told (`ModeExamples.UnseenCheckoutThrows`); where checkouts name known entries none does
  (`ModeLaws.NoFrameThrows`).
- `session-tree.ts:35-39` says every write path single-lines a preview. The bare tool name does not go
  through it (`Previews.ToolLabelOneLineIff`).
- `session-tree.ts:49-50` says every row off the root level carries a connector. One is drawn exactly
  where the parent branches (`TreeRows.RowsAreFaithful`); an only child below a branch is indented and
  has none (`TreeRows.ConnectorCanBeMissing`).
- `mode.ts:527-534` says Esc always walks to the parent. It does so exactly when the parent is still
  registered; a parent swept meanwhile leaves Esc dead (`ModeLaws.EscapeWalksIff`,
  `ModeRuns.EscapeCanBeStuck`).
- `mode.ts:473-477` says the sweep runs at every moment a closed stream can become unreachable. A new
  root's announce moves the focus without one (`ModeLaws.NewRootStrandsIff`, `ModeRuns.NewRootCanStrand`).
- `mode.ts:1069-1070` says run terminals close their stream's cards, and `mode.ts:1407` calls them the safety
  net of a card nobody settles. A failed run is no such terminal: its cards stay open, exactly until they are
  settled, answered, asked again, or a run of the stream finishes or aborts (`ModeRuns.CardIsOpenIff`,
  `ModeExamples.FailedRunKeepsItsCard`).
- `mode.ts:812-815` says the landing page is re-emitted as its facts fold, with no freeze. It is up, and
  current, exactly while the last announce of all was a fresh root's; any other announce, a subagent's
  among them, switches it off, and from then on it stays as last shown (`ModeRuns.HeroIsUpIff`,
  `ModeRuns.HeroIsCurrent`, `ModeRuns.HeroStaysAsShown`, `ModeRuns.HeroFreezes`).
- `mode.ts:168-169` sends a note without a stream to the root transcript. It lands in the pane of the
  first stream ever shown, because `root.ts:295-302` sets that pane's stream once; after a root's announce
  that is the root's exactly when nothing was shown before, or the same stream was shown first
  (`ModeLaws.NotesReachTheRootIff`, `ModeRuns.HomeIsFirstShown`, `ModeRuns.NotesMissTheNewRoot`).
- `tabit-ext-install/src/lib.rs:96` and `121-123` put the primary first. Dependencies land first and the
  primary last; an install that goes through has it first exactly when none of its requirements was missing
  (`InstallLaws.PrimaryFirstIff`, `InstallExamples.PrimaryComesLast`).
- `lib.rs:174-175` wants a package's requirements on disk before it lands, and they were. But putting a
  package in place replaces its whole directory, with the packages that lie below it: what was on disk or
  landed before is there afterwards exactly when the last package to come down over it has it
  (`InstallLaws.Job.OnDiskIff`, `InstallLaws.RequirementsMetIff`). A package named like a scope loses its own
  requirement in the install that landed it (`InstallExamples.RequirementIsWiped`). Where no package can come
  down over anything but its own place, as among names of the two shapes the scan looks for, nothing is ever
  lost (`InstallSafety.InstallIsSafe`, `InstallSafety.ScannedIsUndisturbed`).
- `lib.rs:137-139` has the set of names met refuse cycles. It also refuses a requirement that has landed in
  this install and has been wiped since: a cycle reported for a package that has not landed is a real loop
  of requirements, and one that has landed was asked for again because it has gone
  (`InstallLaws.InstallKeepsOrder`, `InstallExamples.CycleIsReported`, `InstallExamples.NoCycleIsThere`).
  Where nothing can come down over anything else every reported cycle is one (`InstallSafety.InstallIsSafe`).
- `lib.rs:363-366` refuses an uninstall while direct dependents remain. It removes the named directory and
  all below it, and looks for dependents of the name as it was typed: a package loses a requirement exactly
  when that lies below the directory removed, or is that directory under another spelling than the
  package's own (`Uninstalls.UninstallBreaksIff`, `Uninstalls.OtherNamesBreak`, `Uninstalls.OtherNames`).
  A name spelled the package's way, with no package below it, breaks nobody
  (`Uninstalls.UninstallKeepsRequirements`).
- The installer's own check lets names through, `a/b` or `@s`, that no scan ever lists
  (`InstallLaws.LandedIsAcceptedIff`, `InstallExamples.SomeValidNamesAreNeverListed`).
- The ambiguity error of `tabit-config/src/lib.rs:371-395` advises to qualify as `provider/model`. That
  fails exactly when another model has that text as its bare id, or shares it as its qualified key, which
  takes a provider id with a slash in it (`ModelRefs.QualifyingWorksIff`,
  `ModelRefs.SomeModelIsUnreachable`, `ModelRefs.SlashedProviderShadows`).
- `catalog.rs:175-178` says the refresh re-checks freshness under the lock. The check runs once, before
  the lock is taken (`catalog.rs:251-297`). A refresher takes the lock over a cache that is fresh by its own
  clock exactly when the last write since its look, another refresher's, left the cache so
  (`CatalogProtocol.LockOnFreshCacheIff`, `CatalogProtocol.LockIsTakenOverAFreshCache`).

- `catalog.rs:495-497` never writes a catalog that does not parse. What it parses is the artifact; what it
  puts in place is the artifact under a header that holds the version. With a version free of control
  characters the file loads exactly when the artifact parses; after a line break in the version, exactly when
  the rest of the header does (`CatalogRefresh.CleanVersionLoadsIff`, `CatalogRefresh.BrokenVersionLoadsIff`,
  `CatalogRefresh.BrokenVersionDoesNotLoad`).

## Model

| member | source | states |
|---|---|---|
| `Previews.AppendIsPreviewOfWhole` | tui/src/session-tree.ts:110-115 | clipping and trimming a preview at every delta loses nothing that one clip and trim at the end would keep |
| `Previews.PreviewIgnoresSplits` | tui/src/session-tree.ts:105-115 | however a turn's text is cut into deltas, live or replayed whole, its preview is that of the whole text |
| `Previews.ToolLabelOneLineIff` | tui/src/session-tree.ts:121-127 | a tool row is one line exactly when the name that reaches it unprocessed is |
| `Previews.ToolLabelCanBreakTheLine` | tui/src/session-tree.ts:35-39 | the failing family is inhabited: a result whose call was never announced |
| `Trees.StepGoesWrongIff` | tui/src/session-tree.ts:236-246 | a step throws or breaks the forest exactly when it announces a new entry while the head names none, and throws exactly when that entry is not the dangling head |
| `Trees.StepKeepsWellFormed` | tui/src/session-tree.ts:77-163 | every other step keeps parents and child lists in agreement, without duplicates or cycles, with at most one root and no head only in an empty tree |
| `Trees.RunKeepsWellFormed` | tui/src/session-tree.ts:77-163 | over whole runs there is never a second root, so the several-roots branch of the flattening is unreachable |
| `Trees.AnnouncedRunNeverFails` | tui/src/session-tree.ts:93-163 | a run that checks out announced entries only never throws, and its head names an entry as soon as there is one |
| `Trees.UnannouncedCheckoutGoesWrong` | tui/src/session-tree.ts:158-163 | after a checkout of an unknown entry a new entry throws, and announcing the target makes it its own parent |
| `Trees.KnownEntryRepairsHead` | tui/src/session-tree.ts:236-241 | naming a known entry first repairs a dangling head |
| `Trees.AppliesOrThrows` | tui/src/session-tree.ts:236-246 | a step throws exactly when it announces a new entry, other than the head, while the head names none; what it leaves behind is known in either case |
| `Trees.LeavesGood` | tui/src/session-tree.ts:77-163 | in a well-formed tree whose head names an entry nothing throws, and a step that checks out known entries only leaves such a tree |
| `Trees.RetryDeletesExactly` | tui/src/session-tree.ts:136-149 | a retry deletes the turn and its descendants and nothing else; every survivor keeps parent, preview and sibling order; the head stays if it survives and falls back to the turn's parent otherwise |
| `Trees.RetryKeepsWellFormed` | tui/src/session-tree.ts:136-149 | what is left of a retry is a well-formed tree |
| `TreeReplay.ReplayOfKnownEntries` | tui/src/session-tree.ts:236-241 | a pass over known entries changes the head and nothing else |
| `TreeReplay.ReplayOfActiveChain` | tui/src/session-tree.ts:13-20 | closing the turn and re-announcing the chain from root to head is the identity on entries, child lists, previews, roots and head, and on the rows shown |
| `TreeReplay.ReplayHangsOnlyTheSuffix` | tui/src/session-tree.ts:13-20 | a replay of a known prefix, empty or not, and a new suffix hangs exactly the suffix, as one chain below the last known entry or, with none, below the head |
| `TreeReplay.RetryUndoesTheAttempt` | tui/src/session-tree.ts:133-149 | opening a turn, streaming into it, landing tool results and retrying it restores entries, roots and head |
| `TreeReplay.OpenTurnPreview` | tui/src/session-tree.ts:105-115 | whatever else happens while a turn is open, its preview is that of all the text streamed into it |
| `TreeEntries.SingleLineIs` | tui/src/session-tree.ts:277-283 | a row is the text with its line breaks and tabs read as spaces, without the space around it, cut to 200 characters and an ellipsis |
| `TreeEntries.TurnPreviewIs` | tui/src/session-tree.ts:105-115 | a turn's row is such a line that keeps the space at its end |
| `TreeEntries.ToolLabelIs` | tui/src/session-tree.ts:288-299 | a tool row is the announced name and up to three arguments, each on one line; the unparsed arguments, cut, where they are no object; the bare name where there are none or no call was announced |
| `TreeEntries.CompactionLabelIs` | tui/src/session-tree.ts:129-131 | a compaction row states its tokens in thousands, rounded half up |
| `TreeEntries.NewEntryIs` | tui/src/session-tree.ts:84-131 | whatever announces it, a new entry becomes the last child of the head, has its step's kind and says what its step says, takes the head, and changes nothing else; a new turn is open |
| `TreeEntries.KnownEntryIs` | tui/src/session-tree.ts:236-246 | a known entry takes the head only, and a known turn does not open again |
| `TreeEntries.StartedTurnShowsItsText` | tui/src/session-tree.ts:97-115 | from any good tree, a turn that starts and stays open holds the open turn, its kind, and the preview of all the text streamed into it |
| `TreeEntries.RunKeepsEntry` | tui/src/session-tree.ts:84-164 | an entry that is not the open turn keeps its kind, its parent and its row through every run without a retry or a reset |
| `TreeEntries.EntryCarriesItsLabel` | tui/src/session-tree.ts:84-164 | so an entry says through such a run what it said when it was announced |
| `TreeEntries.ClosedTurnKeepsItsText` | tui/src/session-tree.ts:151-164 | after a replay's begin or a checkout no text reaches a turn any more |
| `TreeRows.RowsListEveryEntryOnce` | tui/src/session-tree.ts:168-232 | the flattening lists every entry exactly once, each parent before its children |
| `TreeRows.RowsStartWithActivePath` | tui/src/session-tree.ts:166-232 | its first rows are exactly the path from the root to the head, in order |
| `TreeRows.OrderFollowsPath` | tui/src/session-tree.ts:265-274 | from any entry above the head the walk follows the active path down first |
| `TreeRows.SubtreeIsABlock` | tui/src/session-tree.ts:205-218 | a subtree's rows stand together |
| `TreeRows.RowsAreFaithful` | tui/src/session-tree.ts:42-60 | indent, connector, closing mark, gutters, active mark and head mark of every row are those read off the tree; a connector is drawn exactly where the parent branches |
| `TreeRows.ConnectorCanBeMissing` | tui/src/session-tree.ts:47-50 | the failing family is inhabited: a well-formed tree with an indented row that has no connector |
| `TreeRows.GuttersAreApart` | tui/src/session-tree.ts:199-204 | a row's gutter columns are distinct and left of its own connector |
| `SessionTrees.SessionTree.EnterEntry` | tui/src/session-tree.ts:236-246 | the in-place entry path computes the tree function, and throws with the stray entry left behind exactly when that fails |
| `SessionTrees.SessionTree.AddUser` | tui/src/session-tree.ts:93-95 | enters a one-line preview of the message |
| `SessionTrees.SessionTree.OpenTurn` | tui/src/session-tree.ts:97-103 | opens a turn unless it is already known |
| `SessionTrees.SessionTree.AppendTurnText` | tui/src/session-tree.ts:110-115 | text reaches an open turn only |
| `SessionTrees.SessionTree.AddTool` | tui/src/session-tree.ts:121-127 | consumes the noted call and enters its label |
| `SessionTrees.SessionTree.AddCompaction` | tui/src/session-tree.ts:129-131 | enters the compaction's label |
| `SessionTrees.SessionTree.Checkout` | tui/src/session-tree.ts:161-164 | moves the head and closes the turn, creating nothing |
| `SessionTrees.SessionTree.Clear` | tui/src/session-tree.ts:77-83 | leaves the empty tree, as a fresh one |
| `SessionTrees.SessionTree.DropSubtree` | tui/src/session-tree.ts:248-253 | deleting entry by entry, children first, removes exactly the subtree |
| `SessionTrees.SessionTree.RetryTurn` | tui/src/session-tree.ts:136-149 | the in-place retry computes the tree function |
| `SessionTrees.SessionTree.ActiveIds` | tui/src/session-tree.ts:255-263 | the loop up the parents collects the active path |
| `SessionTrees.SessionTree.Contains` | tui/src/session-tree.ts:268-272 | searching a subtree for the active path finds it exactly when the top itself is on it |
| `SessionTrees.SessionTree.Flattened` | tui/src/session-tree.ts:168-232 | the recursive push of rows computes the rows function |
| `ModeLaws.StepKeepsSane` | tui/src/mode.ts:727-803 | after every frame and user action: streams are keyed by their ids, closed ones are at rest, focus and root name registered streams once there is a root, no transient notice has outlived two committed turns, the shown hero is current while it is up, and the rows last sent to the list are the current ones less those swept since; and no closed stream is kept that nobody can reach, a new root apart |
| `ModeLaws.SweepDropsExactly` | tui/src/mode.ts:480-487 | a sweep drops exactly the closed child streams that are neither focused nor listed |
| `ModeLaws.ClosedChildGoes` | tui/src/mode.ts:473-487 | a closed, unfocused child is gone at the latest when the list filters its rows a minute after the close |
| `ModeLaws.NewRootStrandsIff` | tui/src/mode.ts:897-910 | a new root leaves a stream nobody can reach exactly when it takes the focus off a closed child whose row does not show and no row hides at that moment |
| `ModeLaws.SweepKeepsReport` | tui/src/mode.ts:819-833 | a sweep never changes the program status |
| `ModeLaws.EscapeWalksIff` | tui/src/mode.ts:527-547 | Esc off the root moves to the parent (or root) exactly when it is registered, and otherwise changes nothing |
| `ModeLaws.TopIsTheFirstWorst` | tui/src/mode.ts:1001-1010 | the notice shown is live, none is more severe, and it was set first of its severity |
| `ModeLaws.VisibleIff` | tui/src/components/subagent-list.ts:100-107 | a child is on the filtered list exactly when its own row is running, never ended, or ended under a minute ago |
| `ModeLaws.StepKeepsNames` | tui/src/mode.ts:897-910 | an announce alone decides root and hero state: a parentless one takes the root, and the hero is up after it exactly when it is a fresh root's; every other step keeps both; the home of unaddressed notes is the first stream shown and never moves; a hero that is down stays as last shown |
| `ModeLaws.NotesReachTheRootIff` | tui/src/root.ts:292-302 | after a root's announce unaddressed notes land in its pane exactly when nothing was shown before it, or it was the first stream shown |
| `ModeRuns.RunKeepsSane` | tui/src/mode.ts:727-803 | the invariant holds in every state of every legal run |
| `ModeLaws.NoFrameThrows` | tui/src/mode.ts:722-833 | in a state that satisfies the invariant no frame throws, whatever it is |
| `ModeRuns.StreamsLiveAlone` | tui/src/mode.ts:7-15 | over any run a stream is what its own last announce and its own events make of it, whatever the focus, the other streams, the answers and the sweeps did; only a closed stream can be gone |
| `ModeRuns.CardIsOpenIff` | tui/src/mode.ts:1389-1409 | a card is open for a stream exactly when that stream asked, and nobody since asked again, settled or answered it, nor finished or aborted that stream's run |
| `ModeRuns.AnswersAreAwaited` | tui/src/mode.ts:706-714 | every answer sent goes to the stream that last asked, while its request is still live, whatever has the focus |
| `ModeRuns.AnsweredOnce` | tui/src/mode.ts:706-714 | between two answers to one id somebody asked it again |
| `ModeRuns.NoticeIsLiveIff` | tui/src/mode.ts:977-1025 | a notice is live exactly when it was posted, its key was neither set nor cleared since, and it is an error or fewer than two turns were committed live since |
| `StreamLives.TreesStayGood` | tui/src/mode.ts:320 | over any legal run every stream's session tree is well formed with a known head, and is what a run of the tree's own steps, read off the stream's events since its announce, makes of the empty tree, with known checkouts only |
| `StreamTrees.EventEnters` | tui/src/mode.ts:1141-1249 | a delivered message, a started turn, a tool result and a compaction step enter the tree under the head with the kind and the row of their event; one already there takes the head only |
| `StreamTrees.DeltaGrowsTheOpenTurn` | tui/src/mode.ts:1216-1220 | a delta grows the row of the open turn alone, and the row goes on showing the whole text |
| `StreamTrees.RetryDeletes` | tui/src/mode.ts:1231-1235 | a retried turn goes with all that hangs below it, the others keep rows and places, a lost head falls back to the turn's parent |
| `StreamTrees.EventMoves` | tui/src/mode.ts:1239-1293 | a call is noted, a replay's begin closes the open turn, a checkout moves the head and closes it |
| `StreamTrees.OtherEventsLeaveIt` | tui/src/mode.ts:1140-1447 | no other event touches the tree |
| `StreamFacts.RunningIff` | tui/src/mode.ts:1141-1215 | over any run a stream is running exactly when a message was delivered or a turn started live and since then its run neither finished, aborted nor failed, and it was neither closed nor started over; at rest it shows the kind and time of its last end, and none before the first |
| `StreamFacts.ReplayingIff` | tui/src/mode.ts:1278-1286 | over any run a stream is in a replay pass exactly when one began there and has not ended |
| `StreamFacts.FactsAreTheLast` | tui/src/mode.ts:1202-1447 | over any run model, skills, conversation length, compacting, closed, the latest delta, each call's task and what the announce decides are each what the last step to state them said |
| `StreamFacts.BaselineIsTheBegin` | tui/src/mode.ts:301-304 | while a stream compacts it holds the length its conversation had when that began, whatever the compaction's own steps report |
| `StreamLives.QueueIsInOrder` | tui/src/mode.ts:1190-1198 | over any run the queue lists the messages that wait in the order of their queueing |
| `StreamLives.MessageWaitsIff` | tui/src/mode.ts:1141-1198 | a message waits exactly when it was queued on that stream and since neither delivered nor discarded, the stream neither closed nor started over; a failed run keeps it |
| `StreamLives.CallIsOpenIff` | tui/src/mode.ts:1239-1249 | a tool call is open exactly when it was called and has since had no result, no second call under its id |
| `StreamLives.UsageIsTheSum` | tui/src/mode.ts:1032-1047 | a stream's usage is the sum of every report since its announce, with a price exactly when one of them stated one, and the hit rate of the last |
| `ModeRuns.FocusStays` | tui/src/mode.ts:512-525 | only a root's announce and the user move the focus |
| `ModeRuns.EscapeCanBeStuck` | tui/src/mode.ts:527-547 | a run after which Esc off the root does nothing |
| `ModeRuns.NewRootCanStrand` | tui/src/mode.ts:897-910 | a run that leaves a closed stream nobody can reach |
| `ModeRuns.HeroIsUpIff` | tui/src/mode.ts:1337-1349 | over any run the landing page is up exactly when the last announce was a fresh root's |
| `ModeRuns.HeroIsCurrent` | tui/src/mode.ts:837-850 | and while it is up it states the current facts |
| `ModeRuns.HeroStaysAsShown` | tui/src/mode.ts:837-850 | and while it is down it stays as last shown, however long the run |
| `ModeRuns.HomeIsFirstShown` | tui/src/root.ts:292-302 | over any run unaddressed notes go to the first stream ever shown, a child focused before any root included; to the root's pane exactly when that was the root |
| `ModeRuns.HeroFreezes` | tui/src/mode.ts:812-815 | a run after which the landing page of a fresh root is out of date |
| `ModeRuns.NotesMissTheNewRoot` | tui/src/root.ts:292-302 | a run after which unaddressed notes land in another stream's pane than the root's |
| `ModeFacts.InventoryIsTheLast` | tui/src/mode.ts:1081-1131 | over any run the catalog channel, a check under way, the sessions on disk, the models and the extensions are each as last announced |
| `ModeFacts.RestingIsTheLast` | tui/src/mode.ts:1156-1188 | over any run the program rests as the last run or compaction to end, on any stream, left it; a failure keeps the first line of its message |
| `ModeFacts.RootIsTheLast` | tui/src/mode.ts:897-910 | over any run the root is the stream of the last parentless announce |
| `ModeFacts.AnnounceIs` | tui/src/mode.ts:1306-1354 | over any run a stream's names, path, directory and title are those of its last announce |
| `ModeFacts.TitleIsTold` | tui/src/mode.ts:897-905 | the title is the task of the call named by the announce, as the parent made it: its first line, trimmed, cut to 60 characters; none where the parent, the call or the text is missing |
| `ModeShows.FooterIsTold` | tui/src/mode.ts:915-939 | over any run every part of a stream's footer is what the record tells of that stream; only the root's has no label |
| `ModeShows.StatusIsTold` | tui/src/mode.ts:945-958 | over any run the status line is compacting before busy before checking before resting, each read off the record |
| `ModeShows.ActivityIsTold` | tui/src/mode.ts:336-346 | over any run a row's activity is waiting while a card of the stream is up, else its one open call or the number of them, else thinking or working while it runs, else its last end |
| `ModeShows.ListIsTold` | tui/src/mode.ts:1049-1067 | over any run every row of the list states what the record tells of its stream |
| `ModeShows.HeroIsTold` | tui/src/mode.ts:837-871 | over any run the landing page, while it is up, states the record's facts of the root and of the inventory |
| `ModeShows.CardsInOrder` | tui/src/mode.ts:819-823 | a card that stands before another has been up at least as long |
| `ModeShows.ReportIsTold` | tui/src/mode.ts:805-833 | over any run the program is blocked exactly while a card is up, by the one that has been up for longest; else working exactly while some stream runs or compacts; else at rest as last left |
| `ModeSteps.EventReachesIff` | tui/src/mode.ts:727-803 | an event reaches exactly the registered stream on its stamp, without a stamp a close's own stream, else the root; inventories and unstamped notices reach none |
| `ModeSteps.SweepDropsIff` | tui/src/mode.ts:480-487 | a sweep drops a stream exactly when it is closed, a child, unfocused and unlisted |
| `ModeSteps.FocusMovesIff` | tui/src/mode.ts:517-525 | the focus moves to registered streams only |
| `ModeSteps.EscapeLeads` | tui/src/mode.ts:535-541 | off the root Esc leads to the registered parent, to the root where there is no parent, else nowhere |
| `ModeSteps.TopIs` | tui/src/mode.ts:1001-1010 | the notice on top is the first error, else the first warning, else the first of all; the others are counted |
| `ModeSteps.NoticesAreApart` | tui/src/mode.ts:983-999 | notices of different streams or names never share a key, nor with the backend's own, where ids hold no slash |
| `ModeSteps.CardIff` | tui/src/mode.ts:1472-1492 | a request becomes a card exactly when its kind is native, its payload an object, and it has a labelled option or takes text; what the card says is the payload's |
| `ModeSteps.ListShowsIff` | tui/src/components/subagent-list.ts:100-107 | over any run a child is on the list exactly while it runs, has not ended a run yet, or ended one less than a minute ago |
| `ModeExamples.UnseenCheckoutThrows` | tui/src/mode.ts:1141-1154 | a run, legal but for one checkout of an entry never announced, whose last frame throws: the delivered message stays queued while its run is on |
| `ModeExamples.FailedRunKeepsItsCard` | tui/src/mode.ts:1179-1188 | a legal run after which a card of a failed run is still open |
| `Streams.ParseCard` | tui/src/mode.ts:1466-1492 | a card that parses can be answered: it has an option or takes text |
| `Streams.StreamState.Deliver` | tui/src/mode.ts:1150-1154 | a delivered message leaves the queue, the others keep their order |
| `Streams.StreamState.Meter` | tui/src/mode.ts:1037-1047 | the usage fold of a completion and of a compaction step |
| `Streams.StreamState.Close` | tui/src/mode.ts:1355-1369 | a close ends run and compaction and drops the queue |
| `Streams.StreamState.EnterUser` | tui/src/mode.ts:1148 | the message enters the tree, or the tree throws, exactly then |
| `Streams.StreamState.StartTurn` | tui/src/mode.ts:1203 | the same of a turn |
| `Streams.StreamState.EnterResult` | tui/src/mode.ts:1246 | the same of a tool result |
| `Streams.StreamState.EnterCompaction` | tui/src/mode.ts:1423 | the same of a compaction step |
| `Streams.TreeStaysGood` | tui/src/session-tree.ts:158-160 | under the contract of checkouts no event throws and the tree stays good |
| `InteractiveModes.View.ShowStream` | tui/src/root.ts:292-314 | the first stream shown adopts the scratch pane and becomes the home of unaddressed notes |
| `InteractiveModes.View.DropStream` | tui/src/root.ts:491-497 | the shown pane is refused, any other goes |
| `InteractiveModes.View.Reproject` | tui/src/components/subagent-list.ts:100-122 | the list's filter, and whether a visible row hid |
| `InteractiveModes.InteractiveMode.HandleFrame` | tui/src/mode.ts:722-833 | one frame: the state is the pure fold's, every dock fact, the notice and the panes last told are current; it throws exactly when the tree does, and then the list and the program status are not told, else they are current; under the wire's contract it does not throw and the invariant is kept |
| `InteractiveModes.InteractiveMode.OnUserMessage` | tui/src/mode.ts:1141-1155 | run on and dock told, then the tree, then the queue; a throw ends it after the first |
| `InteractiveModes.InteractiveMode.OnTurnStarted` | tui/src/mode.ts:1202-1215 | the tree first, then the activity and the run |
| `InteractiveModes.InteractiveMode.OnToolResult` | tui/src/mode.ts:1245-1249 | the tree first, then the open call |
| `InteractiveModes.InteractiveMode.OnMetered` | tui/src/mode.ts:1421-1425 | a compaction step's tree first, then the usage |
| `InteractiveModes.InteractiveMode.FocusStream` | tui/src/mode.ts:517-525 | moving the focus re-tells every dock fact and sweeps |
| `InteractiveModes.InteractiveMode.Escape` | tui/src/mode.ts:535-547 | Esc walks or aborts, and aborts the focused running root only |
| `InteractiveModes.InteractiveMode.AnswerCard` | tui/src/mode.ts:706-714 | the answer is routed by the card, the list and the program status follow |
| `InteractiveModes.InteractiveMode.ClockRings` | tui/src/components/subagent-list.ts:113-120 | a row that hides sets off the sweep, and everything told stays current |
| `InteractiveModes.InteractiveMode.SendToFocused` | tui/src/mode.ts:489-506 | a user's command goes to the focused stream unless it is closed |
| `InteractiveModes.InteractiveMode.SweepClosed` | tui/src/mode.ts:480-487 | deleting while walking the stream table computes the sweep, and the view never refuses a pane |
| `InteractiveModes.InteractiveMode.OnSessionOpened` | tui/src/mode.ts:1306-1354 | registration and the reset of per-session facts |
| `InteractiveModes.InteractiveMode.OnSessionClosed` | tui/src/mode.ts:1355-1378 | mark, tell, sweep, note |
| `InteractiveModes.InteractiveMode.EmitSubagents` | tui/src/mode.ts:1052-1067 | the list is told the current rows, and a hidden row's sweep runs inside |
| `InteractiveModes.InteractiveMode.TickTurns` | tui/src/mode.ts:1015-1025 | the turn clock drops exactly the expired transient notices |
| `InteractiveModes.InteractiveMode.CloseStreamCards` | tui/src/mode.ts:1071-1078 | only that stream's cards close |
| `InteractiveModes.InteractiveMode.ReportProgramStatus` | tui/src/mode.ts:819-833 | blocked before working before resting |
| `InteractiveModes.InteractiveMode.EmitFocusedState` | tui/src/mode.ts:915-943 | all four dock facts of the focused stream |
| `Manifests.SplitJoin` | crates/tabit-ext-install/src/lib.rs:257-269 | a name made of parts splits into those parts |
| `Manifests.PlainDir` | crates/tabit-ext-install/src/lib.rs:281-286 | a plainly spelled name lies below the root, one directory a part |
| `Manifests.PlainInjective` | crates/tabit-ext-install/src/lib.rs:281-286 | two plainly spelled names of one directory are one name |
| `Manifests.ValidIsPlain` | crates/tabit-ext-install/src/lib.rs:254-270 | the installer's check lets plainly spelled names through only |
| `InstallChecks.SplitYieldsParts` | crates/tabit-ext-install/src/lib.rs:257 | the parts of a name are its longest stretches without a slash |
| `InstallChecks.ValidIff` | crates/tabit-ext-install/src/lib.rs:246-279 | the check lets a manifest through exactly when its name is not empty, no part of it is empty, a dot, two dots, or holds a backslash or a colon, and its entry, if declared, is not empty |
| `InstallChecks.RefusedIff` | crates/tabit-ext-install/src/lib.rs:246-279 | a source is refused before anything is touched exactly when nothing that parses was resolved or the manifest is bad in that sense |
| `InstallChecks.InstallRefusesIff` | crates/tabit-ext-install/src/lib.rs:124-179 | so of a whole install; a usable package is entered |
| `InstallChecks.RecursionRefuses` | crates/tabit-ext-install/src/lib.rs:140-191 | an install is refused only for a source that resolves to no usable package: the one asked for, or one of a requirement |
| `InstallChecks.InstallAlone` | crates/tabit-ext-install/src/lib.rs:160-191 | what an install without missing requirements does in every case: unresolved, refused, blocked by a manifest file in its way, or landed alone with its directory replaced and the rest untouched |
| `InstallChecks.EntryInstalls` | crates/tabit-ext-install/src/lib.rs:268-277 | a package with a process installs |
| `Manifests.DetoursMeet` | crates/tabit-ext-install/src/lib.rs:281-286 | dot parts, empty parts and a trailing slash lead to the same directory |
| `Manifests.OddSpellingsLead` | crates/tabit-ext-install/src/lib.rs:281-286 | two dots lead back out of the directory before them, a backslash is a slash, a leading slash leaves the root |
| `Installs.Installer.Install` | crates/tabit-ext-install/src/lib.rs:124-138 | always ends; its result, what landed and the tree afterwards are those of the recursion on values; no stage is left, on success and on every failure |
| `Installs.Installer.InstallStaged` | crates/tabit-ext-install/src/lib.rs:161-191 | one package staged, checked, its requirements pulled, and put in place; the stage is gone on success |
| `Installs.Installer.PullMissing` | crates/tabit-ext-install/src/lib.rs:176-187 | requirements on disk are skipped, missing ones are installed first, in order |
| `Installs.Installer.Place` | crates/tabit-ext-install/src/lib.rs:288-312 | the stage replaces the whole directory that was in place, everything below it included, and nothing is left of a retired directory; it fails exactly where the name leads through a manifest file |
| `Installs.Installer.Uninstall` | crates/tabit-ext-install/src/lib.rs:367-398 | removes the directory and everything below it, or reports exactly which error |
| `InstallLaws.InstallKeepsOrder` | crates/tabit-ext-install/src/lib.rs:140-191 | each package lands once and after everything it requires, the primary last, and not at all when the install fails; a cycle reported for a package that has not landed is a real loop of requirements, and a package that has landed was asked for because it has gone |
| `InstallLaws.Job.OnDiskIff` | crates/tabit-ext-install/src/lib.rs:288-312 | a package is on disk afterwards exactly when it was there or was brought, and the last one to come down over it has it |
| `InstallLaws.Job.PlacedByLast` | crates/tabit-ext-install/src/lib.rs:288-312 | every path shows what the last package to come down over it has there, else what it showed before |
| `InstallLaws.RequirementsMetIff` | crates/tabit-ext-install/src/lib.rs:174-189 | with an honest registry a landed package finds a requirement on disk exactly when the last package to come down over it has it |
| `InstallLaws.ScannedNeverLost` | crates/tabit-ext-install/src/lib.rs:288-312 | among names of the two scanned shapes an install loses nothing that was on disk or has landed |
| `InstallLaws.PrimaryFirstIff` | crates/tabit-ext-install/src/lib.rs:94-99 | an install that goes through has its primary first exactly when none of the primary's requirements was missing |
| `InstallLaws.LoopNeverLands` | crates/tabit-ext-install/src/lib.rs:167-189 | no member of a loop of missing requirements ever lands, unless a package that lands brings one of them inside it |
| `InstallLaws.LandedIsAcceptedIff` | crates/tabit-ext/src/manifest.rs:109-165 | a landed package is listed by the scan exactly when its name has one of the two shapes the scan looks for |
| `InstallLaws.LandedLoads` | crates/tabit-ext/src/manifest.rs:196-258 | on a tree of accepted packages, everything an install lands under names of the scanned shapes is mounted by the next boot |
| `InstallSafety.InstallIsSafe` | crates/tabit-ext-install/src/lib.rs:140-191 | where no package can come down over anything but its own place, an install, gone through or failed, loses nothing that was on disk, leaves everything that landed in place with all it requires, and reports a cycle only where a loop of requirements exists |
| `InstallSafety.ScannedIsUndisturbed` | crates/tabit-ext/src/manifest.rs:109-165 | names and paths of the shapes the scan looks for are such a case |
| `InstallSafety.LoopsNeverLand` | crates/tabit-ext-install/src/lib.rs:167-189 | no install lands a member of a loop of missing requirements that no package brings along inside it |
| `InstallSafety.InstalledLoads` | crates/tabit-ext/src/manifest.rs:196-258 | on a tree of accepted packages, with every known package and requirement plainly spelled and of the scanned shapes, everything an install lands is mounted by the next boot |
| `InstallPlans.InstallableSucceeds` | crates/tabit-ext-install/src/lib.rs:140-191 | an install goes through whenever there is an order in which everything missing can be installed and no package but the primary lies above another |
| `InstallPlans.LandedIsPlanned` | crates/tabit-ext-install/src/lib.rs:140-191 | where no package lies above another, the order in which things landed is such an order |
| `InstallPlans.InstallsIff` | crates/tabit-ext-install/src/lib.rs:140-191 | there an install goes through exactly when such an order exists |
| `InstallExamples.RequirementIsWiped` | crates/tabit-ext-install/src/lib.rs:288-312 | an install that succeeds and leaves its primary without the requirement it landed for it |
| `InstallExamples.CycleIsReported` | crates/tabit-ext-install/src/lib.rs:167-172 | an install refused for a cycle |
| `InstallExamples.NoCycleIsThere` | crates/tabit-ext-install/src/lib.rs:167-172 | where no loop of requirements exists |
| `InstallExamples.PrimaryComesLast` | crates/tabit-ext-install/src/lib.rs:94-99 | an install whose result does not start with the primary |
| `InstallExamples.LoopMemberLands` | crates/tabit-ext-install/src/lib.rs:176-180 | a member of a loop that lands, because another package brings what it requires along |
| `InstallExamples.SomeValidNamesAreNeverListed` | crates/tabit-ext-install/src/lib.rs:246-279 | names outside the scanned shapes pass the installer's check |
| `Uninstalls.RemovalBreaksIff` | crates/tabit-ext-install/src/lib.rs:388-390 | removing a directory breaks exactly the packages outside it that require one inside it |
| `Uninstalls.UninstallBreaksIff` | crates/tabit-ext-install/src/lib.rs:367-398 | an uninstall that goes through breaks a package exactly when that one requires something below the directory removed, or the directory itself under another spelling than its own |
| `Uninstalls.UninstallKeepsRequirements` | crates/tabit-ext-install/src/lib.rs:363-398 | a successful uninstall of a plainly spelled name with no package below it takes no mounted requirement away |
| `Uninstalls.OtherNamesBreak` | crates/tabit-ext-install/src/lib.rs:367-398 | any other name that leads to a required package or to its scope does take it away |
| `Uninstalls.OtherNames` | crates/tabit-ext-install/src/lib.rs:281-286 | such names: a backslash, a dot part, an empty part, a trailing slash, the scope itself |
| `Uninstalls.ScanAcceptsIff` | crates/tabit-ext/src/manifest.rs:109-165 | the scan accepts exactly the directories below the root, and inside scopes, whose manifest parses, carries their name, and declares no empty entry |
| `Uninstalls.DependentsExactly` | crates/tabit-ext-install/src/lib.rs:373-386 | the dependents of a name are exactly the accepted packages that require that very name |
| `Uninstalls.UninstallAnswers` | crates/tabit-ext-install/src/lib.rs:363-398 | not installed without a manifest there; else refused exactly while there are dependents, with all of them; else the directory goes with all below it and nothing else |
| `ArgParser.ParseArgs` | crates/tabit-gate/src/arg_parser.rs:57-188 | the single-pass loop computes the scan |
| `ArgParser.OneRoleEach` | crates/tabit-gate/src/arg_parser.rs:57-188 | no argument is both positional, a value and a flag |
| `ArgParser.PositionalsSound` | crates/tabit-gate/src/arg_parser.rs:57-188 | positionals carry strictly increasing indices and their own text |
| `ArgParser.PositionalsComplete` | crates/tabit-gate/src/arg_parser.rs:57-188 | every positional argument is among them |
| `ArgParser.FlagsExactly` | crates/tabit-gate/src/arg_parser.rs:90-188 | the flags are exactly the declared ones some argument raises |
| `ArgParser.OptionsExactly` | crates/tabit-gate/src/arg_parser.rs:41-188 | an option holds the last value given to it with its index, and is absent exactly when none was given |
| `ArgParser.PositionalsAndValuesApart` | crates/tabit-gate/src/arg_parser.rs:57-188 | no index is both a positional and a kept value |
| `ArgParser.EndMarkerEndsOptions` | crates/tabit-gate/src/arg_parser.rs:57-100 | after an acted-on end marker everything is positional |
| `ArgParser.ParseComposes` | crates/tabit-gate/src/arg_parser.rs:57-188 | parsing `a` then `b` is parsing each and combining, when `a` leaves no option waiting and no end marker |
| `ArgParser.ParseAfterMarker` | crates/tabit-gate/src/arg_parser.rs:57-188 | and when `a` leaves an end marker, all of `b` is positional |
| `ArgTokens.ArgumentIsRead` | crates/tabit-gate/src/arg_parser.rs:75-188 | what each argument does, by its text: a waiting option takes it whole; after the end marker it is an operand; else it is the marker, a declared flag, a declared option that then waits, an option with its value after the equals sign, letters that raise the declared flags up to the first declared option, which waits, an unknown long word, or an operand |
| `ArgTokens.OneReading` | crates/tabit-gate/src/arg_parser.rs:75-188 | every argument is read in one of these ways, and holds one option and value at most |
| `ArgTokens.LastValueIsKept` | crates/tabit-gate/src/arg_parser.rs:41-50 | an option keeps the last value given to it by a whole argument or after an equals sign, and is there exactly when one was |
| `ArgTokens.FlagIsRaisedIff` | crates/tabit-gate/src/arg_parser.rs:90-165 | a flag is raised exactly when it is an argument of its own, or a letter of a combined one before any declared option |
| `ArgTokens.PositionalIff` | crates/tabit-gate/src/arg_parser.rs:80-188 | an argument is an operand exactly when it comes after the end marker, or has no dash, is no declared name and no option waits |
| `ArgTokens.EndedIff` | crates/tabit-gate/src/arg_parser.rs:80-88 | the options end exactly at an end marker that no option takes for its value |
| `ArgTokens.WaitsIff` | crates/tabit-gate/src/arg_parser.rs:97-165 | an option waits exactly after an argument that is it, or whose letters name it first |
| `Verdicts.AggregateResults` | crates/tabit-gate/src/types.rs:87-113 | the loop yields the strictest action and the distinct reasons in order |
| `Verdicts.StrictestReachesIff` | crates/tabit-gate/src/types.rs:55-60 | the aggregate reaches a level exactly when some result does |
| `Verdicts.StrictestIgnoresOrder` | crates/tabit-gate/src/types.rs:87-113 | its action ignores the order of results |
| `Verdicts.CheckPathPermission` | crates/tabit-gate/src/path_permission.rs:55-88 | the nested loops compute the path verdict |
| `Verdicts.LastMatchWins` | crates/tabit-gate/src/path_permission.rs:55-88 | the last override with a matching pattern decides, else the default |
| `Verdicts.CheckSingleCommand` | crates/tabit-gate/src/checker_bash.rs:79-198 | the collecting loops compute the command's verdict |
| `Verdicts.CommandVerdictIff` | crates/tabit-gate/src/checker_bash.rs:79-198 | a command is asked about or denied exactly when its pre-check, a raised flag, a kept option's path, a positional's path under its effective permission or a redirect reaches the level, or nothing fired and the rule's fallback does |
| `Verdicts.UnruledVerdictIff` | crates/tabit-gate/src/checker_bash.rs:79-100 | without a rule the redirects decide, and the default when none objects |
| `Verdicts.CheckBash` | crates/tabit-gate/src/checker_bash.rs:20-51 | the line's verdict from its walked commands |
| `Verdicts.BashVerdictIff` | crates/tabit-gate/src/checker_bash.rs:20-51 | a line reaches a level exactly when some command of it does |
| `Verdicts.BashIsAsStrictAsItsPaths` | crates/tabit-gate/src/checker_bash.rs:201-261 | a path verdict anywhere on the line binds the whole line |
| `Verdicts.BashVerdictIgnoresOrder` | crates/tabit-gate/src/checker_bash.rs:20-51 | the order of the commands does not change the action |
| `GateLaws.LineMeetsIff` | crates/tabit-gate/src/checker_bash.rs:20-51 | a line is asked about or denied exactly when it does not parse or one of its commands is, spelled out down to sections, patterns and words |
| `GateLaws.CommandMeetsIff` | crates/tabit-gate/src/checker_bash.rs:79-198 | a command is exactly when the first rule that covers its text has it so: by its pre-check, a raised flag, a path-like word of a kept option or an operand under its permissions, a redirect, or, when nothing fires, the rule's own action; without a rule, by a redirect or else the default |
| `GateLaws.PathVerdictRules` | crates/tabit-gate/src/path_permission.rs:55-88 | what a section says of a path is the last override with a pattern that matches the path normalized under the working directory, else the default |
| `GateLaws.FoundIsFirst` | crates/tabit-gate/src/checker_bash.rs:53-77 | the rule is the first whose name is empty, is the text, or begins it up to a blank |
| `GateLaws.NothingFiresIff` | crates/tabit-gate/src/checker_bash.rs:189-195 | the rule's own action counts exactly when it has no pre-check to answer, none of its flags is raised, and no word or redirect is objected to |
| `GateLaws.WordBindsTheLine` | crates/tabit-gate/src/checker_bash.rs:135-187 | a path-like word, not computed by the shell, that an option or a place marks for writing or deleting binds the line to the write section's verdict, one marked for reading to the read section's; a place's permissions are those of its index from the end, else of its index, else the default |
| `GateLaws.RedirectBindsTheLine` | crates/tabit-gate/src/checker_bash.rs:229-261 | an input redirect binds the line to the read section's verdict on its target, an output redirect to the write section's |
| `GateLaws.ReasonsInOrder` | crates/tabit-gate/src/types.rs:87-113 | the reasons are given once each, in the order in which they first came up |
| `Providers.TabitConfig.MergeFragment` | crates/tabit-config/src/lib.rs:274-305 | one fragment merged in place, with its warnings |
| `Providers.TabitConfig.MergeCatalog` | crates/tabit-config/src/lib.rs:310-325 | the catalog merged in place |
| `Providers.TabitConfig.MergeFragments` | crates/tabit-app/src/assemble.rs:458-463 | all fragments in scan order |
| `Providers.LayersLookup` | crates/tabit-config/src/lib.rs:274-325 | user's provider, else the first fragment's, else the catalog's; a provider that was there keeps its models and gains the catalog's under new ids only |
| `Providers.CatalogKeepsUnique` | crates/tabit-config/src/lib.rs:470-522 | merging keeps model ids unique within each provider |
| `Providers.CatalogIsIdempotent` | crates/tabit-config/src/lib.rs:310-325 | merging the catalog again changes nothing |
| `Providers.WarningsExactly` | crates/tabit-config/src/lib.rs:274-305 | one warning per id shared with an earlier fragment and not the user's, one per fragment that sets a default model, and no other |
| `Providers.ContributedExactly` | crates/tabit-config/src/lib.rs:274-305 | a fragment is reported to contribute exactly the ids nobody had, in its own order |
| `Providers.FilledInOrder` | crates/tabit-config/src/lib.rs:310-325 | a configured provider gains exactly the catalog's models under ids it lacks, behind its own and in the catalog's order |
| `ModelRefs.ModelIndex` | crates/tabit-config/src/lib.rs:397-413 | the index lists under each key exactly the models that answer to it |
| `ModelRefs.ResolveModelRef` | crates/tabit-config/src/lib.rs:371-395 | looking up the index is searching all models |
| `ModelRefs.ValidTablesHaveNoRepeats` | crates/tabit-config/src/lib.rs:470-522 | validated tables configure no model twice |
| `ModelRefs.ResolveIff` | crates/tabit-config/src/lib.rs:371-395 | a reference resolves to a model exactly when that one and no other answers to it |
| `ModelRefs.ResolveErrors` | crates/tabit-config/src/lib.rs:371-395 | unknown exactly when nobody answers, ambiguous with exactly the candidates |
| `ModelRefs.QualifiedInjective` | crates/tabit-config/src/lib.rs:397-413 | qualified keys are injective when provider ids have no slash |
| `ModelRefs.QualifyingWorksIff` | crates/tabit-config/src/lib.rs:371-395 | qualifying a model resolves it exactly when no other model has that text as its bare id or as its qualified key; the second takes a provider id with a slash |
| `ModelRefs.UnreachableIff` | crates/tabit-config/src/lib.rs:371-395 | exactly which models no reference reaches |
| `ModelRefs.SomeModelIsUnreachable` | crates/tabit-config/src/lib.rs:371-395 | such a configuration, with plain provider ids |
| `ModelRefs.SlashedProviderShadows` | crates/tabit-config/src/lib.rs:470-522 | and one where only a provider id with a slash, which validation lets through, stands in the way |
| `Toolsets.Plan` | crates/tabit-app/src/extensions.rs:166-209 | the planning loops keep the first declaration of each name and refuse the others |
| `Toolsets.HolderIsFirst` | crates/tabit-app/src/extensions.rs:166-209 | a name is held by the first live extension declaring it |
| `Toolsets.ReplacedIff` | crates/tabit-app/src/extensions.rs:146-153 | a core tool is replaced exactly when a live extension declares its name |
| `Toolsets.AssembleTools` | crates/tabit-app/src/assemble.rs:180-201 | core tools that were not replaced, then the proxies, filtered |
| `Toolsets.ToolsetExactly` | crates/tabit-app/src/assemble.rs:95-131 | the toolset holds exactly the admitted names somebody offers, each served by the first live declarer, else by core |
| `Toolsets.ToolsetIsConflictFree` | crates/tabit-app/src/assemble.rs:180-201 | no name twice |
| `Toolsets.DeadDeclareNothing` | crates/tabit-app/src/extensions.rs:166-209 | a dead extension holds no name |
| `Toolsets.HolderOffersFirst` | crates/tabit-app/src/extensions.rs:166-209 | a name is held by the first live report, by its index, to list it, and by none exactly when none does |
| `Toolsets.ToolIsServedIff` | crates/tabit-app/src/assemble.rs:95-131 | an admitted name is served by the first live report to list it, a core tool exactly when none lists it |
| `Toolsets.DeclarationsInOrder` | crates/tabit-app/src/extensions.rs:166-186 | the declarations are the live reports' tools, report after report, each in its own order |
| `Toolsets.ConflictIff` | crates/tabit-app/src/extensions.rs:166-209 | the conflicts are exactly the declarations whose name an earlier one holds, with its holder, and the first declarations of a core tool's name |
| `CatalogRefresh.Catalog.FetchPointer` | crates/tabit-app/src/catalog.rs:328-360 | the first mirror whose pointer parses |
| `CatalogRefresh.Catalog.ApplyPointer` | crates/tabit-app/src/catalog.rs:367-456 | the artifact phase: its outcome, which mirrors it asks, and what it writes in each case, a stamp write that stops half-way included |
| `CatalogRefresh.Catalog.Install` | crates/tabit-app/src/catalog.rs:498-510 | the file changes only when the bytes parse and both local operations succeed |
| `CatalogRefresh.Catalog.Refresh` | crates/tabit-app/src/catalog.rs:245-321 | one whole refresh: its outcome; no mirror asked twice; offline writes nothing; an update installs genuine bytes, and a file that loads when the version is clean |
| `CatalogRefresh.RotationAsksEachOnce` | crates/tabit-app/src/catalog.rs:407-408 | the fallback order asks every mirror, none twice |
| `CatalogRefresh.RotationGoesAround` | crates/tabit-app/src/catalog.rs:407-408 | it starts with the mirror of the pointer and goes once around the list |
| `CatalogRefresh.FreshWhileYoung` | crates/tabit-app/src/catalog.rs:179-203 | without asking anybody a refresh ends fresh exactly while the stamp is not of the future, younger than the time to live, and its file loads; once it is not, the mirrors decide |
| `CatalogRefresh.RefreshedStaysFresh` | crates/tabit-app/src/catalog.rs:251-253 | a refresh is not repeated within the time to live of the stamp it left |
| `CatalogRefresh.OfflineBecause` | crates/tabit-app/src/catalog.rs:255-456 | how a refresh that is not fresh ends, in every case, by the first thing that stands in its way |
| `CatalogRefresh.UpdatedIff` | crates/tabit-app/src/catalog.rs:245-456 | a refresh that gets to the network updates exactly when the first pointer that parses is readable and not installed, the first mirror to serve its bytes serves bytes that parse, and the writes go through |
| `CatalogRefresh.OneServingMirrorIsEnough` | crates/tabit-app/src/catalog.rs:407-456 | one mirror with genuine bytes is enough, wherever it stands |
| `CatalogRefresh.CleanVersionLoadsIff` | crates/tabit-app/src/catalog.rs:498-510 | under a version without control characters the file put in place loads exactly when the artifact parses |
| `CatalogRefresh.BrokenVersionLoadsIff` | crates/tabit-app/src/catalog.rs:498-510 | under a version with a line break it loads exactly when what follows the break, the rest of the header included, parses |
| `CatalogRefresh.BrokenVersionDoesNotLoad` | crates/tabit-app/src/catalog.rs:502-505 | a parser, a version and any artifact for which it does not |
| `CatalogProtocol.StepIsSound` | crates/tabit-app/src/catalog.rs:245-321 | no step of any process, a crash included, breaks the invariant: the holder of the lock is the one under way, it alone writes the temporary file, and only bytes of a matching digest that parse, under a readable pointer |
| `CatalogProtocol.ReadersNeverSeeATornCatalog` | crates/tabit-app/src/catalog.rs:498-510 | at every moment of every interleaving the file is as it was before, or, whole, the artifact put in place last: its bytes parse and match the digest of a readable pointer that the same refresher had been announced before it began to write them |
| `CatalogProtocol.WorkIsAnnounced` | crates/tabit-app/src/catalog.rs:367-456 | what a refresher works on it was announced, and what it writes it began to write after that |
| `CatalogProtocol.CatalogStaysInstalled` | crates/tabit-app/src/catalog.rs:179-216 | a catalog that loads goes on loading through every interleaving and crash, as long as every version announced is clean |
| `CatalogProtocol.OfflineWroteNothing` | crates/tabit-app/src/catalog.rs:245-321 | a refresher that ended offline changed neither catalog nor stamp |
| `CatalogProtocol.OneRefresherAtATime` | crates/tabit-app/src/catalog.rs:279-297 | two refreshers never hold the files at once |
| `CatalogProtocol.OnlyWritersChangeFiles` | crates/tabit-app/src/catalog.rs:498-524 | only a refresher that wrote has changed a file |
| `CatalogProtocol.LockIsNeverStuck` | crates/tabit-app/src/catalog.rs:279-297 | whoever holds the lock is alive and under way |
| `CatalogProtocol.LockOnFreshCacheIff` | crates/tabit-app/src/catalog.rs:251-297 | a refresher takes the lock over a cache that is fresh by the clock it looked with exactly when the last write since its look, another's, left the cache so |
| `CatalogProtocol.LockIsTakenOverAFreshCache` | crates/tabit-app/src/catalog.rs:175-178 | the failing family is inhabited: two refreshers of which the second goes on after the first has renewed the stamp |

## Left out

- Rendering: pickers, cards on screen, theme, terminal focus, the subagent list's cursor; they decide nothing the models depend on.
- `InteractiveModes.View.Write`: a transcript pane is only known to exist, what is written into it is not modelled; a stream's transcript is its session tree, which is.
- `Streams.StreamState`: holds its session tree as a value and lends it to a `SessionTree` object for each operation, where the source holds that object; the view, which only reads the focused stream's, is left out.
- `InteractiveModes.InteractiveMode.HandleFrame`: is followed up to a frame that throws or makes an entry its own parent; the tree is malformed from then on, and what a retry makes of such a tree is not said. User actions are followed under the invariant only.
- Slash commands, key bindings, the model and thinking pickers: commands reach the backend through the send guard, which is modelled once.
- `Streams.ParseCard`: a card's payload arrives as its fields; reading them from JSON is not modelled. The same holds for a tool call's `task` argument and for the arguments behind a tool row's label.
- The hero's sections are kept as the facts they print (`Modes.HeroOf`), before counting and formatting.
- `InteractiveModes.View.DropStream`: the scratch pane's key is a value of its own, so a stream whose id is the empty string does not collide with it as it would in the source.
- The stable sorts of the source (by severity, by active path) are the library's; they are modelled by what they yield.
- Text is `seq<char>`: lengths count characters where the source counts UTF-16 units (previews, titles) or bytes (manifests, arguments).
- `SessionTrees.SessionTree.EnterEntry`: entries are values in a map, not shared objects; nothing in the source keeps a reference to one across calls.
- `SessionTrees.SessionTree.ActiveIds`: requires an acyclic tree, because the source's loop does not end on an entry that is its own parent.
- Money and rates are real numbers; floating-point rounding is not modelled.
- Clocks, digests, fragment parsing, mirror answers, glob matching, path normalization, environment pre-checks and the walked commands of a shell line are inputs.
- `Installs.Installer.Place`: renames and removals succeed; a failed rename half-way through a replacement is not modelled. A manifest file whose place a package takes stays behind under its retired name. Of a directory's files only the manifest is known: a name that leads through another file of a package, as `a/index.js`, is not modelled.
- `Installs.Installer.Install`: what resolving a source yields is an input, and so is which packages lie further down in it; npm, git and tarball handling are not modelled.
- `Manifests.Dir`: `..` is resolved by its text, as if the directory it leaves were there and no link; drive letters, file systems that ignore case, and packages or requirements named like one of the installer's own staging directories are not modelled.
- `CatalogProtocol.StepIsSound`: a crash between installing the file and writing the stamp leaves a stamp that lags behind, which is the source's behaviour too; no claim is made that the two always agree.
- `Verdicts.CommandVerdictIff`: a rule's fallback applies only when no check fired, so the verdict is not monotone in it; none is claimed.
- `Providers.TabitConfig.MergeCatalog`: a provider's fields other than its models are one opaque value.
- Config file loading, defaults in TOML, API-key resolution, process supervision, the wire node and the engine: input and output, or libraries that are not part of this model.
