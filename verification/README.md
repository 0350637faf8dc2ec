# A Dafny model of nmux

nmux is a terminal multiplexer. The daemon owns the terminal state of every pane; clients keep mirrors that are
synchronised by versioned snapshots and patches. This project models that machinery and proves what it is for.

| part | modules |
|---|---|
| values, UTF-8, integers | `Types`, `Text` |
| one engine update folded into a pane, versions of one pane | `PaneUpdate`, `Versions` |
| frames and the client's mirror | `Mirror`, `Sync`, `Limits` |
| latest-wins surface channel, writer task | `Channel` |
| one client end to end, whatever is signalled to it | `ClientLink` |
| panes, announcements and the client together | `Delivery` |
| pane tree, tabs, event-sourced core, actor | `Tree`, `Tiling`, `Session`, `Core`, `Resizing`, `Scheduler`, `Actor` |
| sessions and clients together | `EndToEnd`, `LeafInvariants`, `LeafLives`, `LiveSession`, `ReusedNames` |
| reliable queue byte budget | `ByteAccounting` |
| interim terminal engine, stream scanners, mouse reports | `Interim`, `InterimEngine`, `Escapes`, `Decrqm`, `SgrMouse` |
| saved client state | `StateText`, `ClientState`, `StateRoundTrip`, `StateFiles`, `AttachFile` |
| speculative echo | `SpeculativeEcho` |

Operations that the program performs by changing objects are methods of classes (`SessionState`, `SessionCore`,
`SessionActor`, `DeterministicSessionScheduler`, `SessionTraceRing`, `AsyncClientOutput`, `ClientWriteTask`,
`ClientPaneSurface`, `InterimAnsiParser`, `InterimTextTerminalEngine`, `DecrqmDetector`, `ClientAttachState`,
`SpeculativeEchoOverlay`); each is proved equal to a function of the old state, and the theorems are about those
functions and their runs. Steps of different threads interleave as state machines (`Delivery`, `ByteAccounting`).
A terminal engine is an arbitrary pair of functions of its state, the pane and the input, so everything in `Core`,
`Resizing`, `Actor`, `EndToEnd`, `LeafInvariants` and the first two parts of `LiveSession` holds for every
deterministic engine; the interim engine is one instance.

## Where the code does less than it looks

Each of these is a lemma, and each comes with the condition under which the code does what it should.

* A palette that only loses colours at its end produces an empty diff, which the client reads as "no diff": the patch
  is accepted and the old palette stays (`Limits.ShortenedPaletteIsLost`). A row patch lists only rows below the new
  line count, so rows that vanish stay in the mirror (`Limits.VanishedRowStays`). `Sync.PatchReproducesPane` is the
  equivalence for both.
* An update that changes nothing visible clears a palette diff that was not sent yet
  (`Limits.QuietUpdateDropsPalette`). A working patch still works after such an update if and only if the palette had
  not changed (`Sync.QuietUpdateKeepsPatch`).
* A snapshot of a pane that holds more lines than rows is refused by every client. A new pane one row high is such a
  pane (`Limits.OneRowPaneIsUndeliverable`); so is the upper half of a full screen split across, until the next output
  (`Limits.SplitPaneIsDeliverable`, as an equivalence). In general it is `Sync.SnapshotReproducesPane`, and over
  whole runs `Delivery.AnnouncingIsExact`.
* A pane name that is closed and used again starts over at version one, so one version can name two contents
  (`LeafLives.ReusedIdRepeatsVersion`, on a list of events). As long as the tab is not closed in between it cannot
  (`LeafLives.VersionsIdentifyContent`). The daemon's list of announced versions outlives the pane: a reopened pane
  that reaches the version last announced of its name is passed over (`Delivery.ReopenedPaneIsPassedOver`), and the
  mirror then goes on showing the closed pane (`ReusedNames.ReopenedMirrorStaysWrong`, on a list of events). Names may
  be reused in every run below; `Delivery.SendableIsExact` and `Delivery.OtherSendable` say exactly when announcing
  a pane is right whatever the client shows of its name, and `Delivery.NewNamesAreSafe` that new names always are.
* A committed resize of a part of a tab breaks the tiling; of a whole tab it does not (`Resizing.ResizeTiles`, and
  over runs `Resizing.RunTilesExactly`, as equivalences).
* Cutting interim output inside a character or between CR and LF shows: the engine decodes each chunk on its own
  (`InterimEngine.AccentCut`; `InterimEngine.ChunksJoin` and, for any number of chunks, `InterimEngine.AnyChunking`
  are the equivalences).
* After a hit the mode-query detector forgets the rest of the chunk, so a second query starting there is missed
  (`Decrqm.SecondQueryCanBeMissed`; which chunks report is `Decrqm.ReportsSinceLast`, as an equivalence).
* Saved state does not always come back as it was: rows without runs, which a snapshot leaves for rows it does not
  list, are given a plain run (`StateRoundTrip.BlankRowsChange`; `StateRoundTrip.ExactRoundTrip` is the equivalence).
* Replaying the trace ring gives the session with all its records if and only if no record was dropped
  (`Actor.RingReplays`). The core alone can then come back different (`Actor.ShortRingDiverges`), and does not when
  only idle events were dropped (`Actor.IdleDropsAreHarmless`).

## Model

| member | source | states |
|---|---|---|
| PaneUpdate.SurfaceRowUpdateIndices | crates/nmux-core/src/session.rs:2777-2805 | the indices are exactly the differing rows below the bound, or all rows when forced or when the line count changed |
| PaneUpdate.DifferingRows | crates/nmux-core/src/session.rs:2777-2805 | resent rows are the differing ones, strictly increasing |
| PaneUpdate.DiffStart | crates/nmux-core/src/session.rs:2717-2730 | the palette diff starts at the first difference: everything before is common |
| PaneUpdate.CompareUpdate | crates/nmux-core/src/session.rs:2563-2715 | surface change and patch kind are what differs between pane and update, by all fields |
| PaneUpdate.ApplyTerminalUpdate | crates/nmux-core/src/session.rs:2563-2715 | afterwards title, directory, surface, cursor, modes, colours and styles are the update's, the screen is its first `rows` rows, the scrollback its scrollback or the preserved old one, and id, size, host, policy and children are the old ones |
| PaneUpdate.UpdateIsShown | crates/nmux-core/src/session.rs:2563-2715 | the same of the function the theorems are about |
| PaneUpdate.UpdateIsAnnounced | crates/nmux-core/src/session.rs:2563-2715 | which fields move which version, which of the five kinds is announced, and when there is a palette diff |
| PaneUpdate.RequestedKindIgnored | crates/nmux-core/src/session.rs:2751-2775 | the engine's requested patch kind never influences the pane |
| PaneUpdate.UpdateKeepsRowsCoherent | crates/nmux-core/src/session.rs:2563-2715 | for any engine: equal-length row vectors, runs spelling their lines, screen within the rows, resent rows increasing and on the screen |
| PaneUpdate.NormalizeCoherent | crates/nmux-core/src/session.rs:2864-2905 | row vectors of any engine become coherent, coherent ones are kept |
| PaneUpdate.VersionsTrackContent | crates/nmux-core/src/session.rs:2563-2715 | versions move by at most one, and an unchanged version means unchanged content |
| Versions.VersionIdentifiesContent | crates/nmux-core/src/session.rs:889-934 | for any sequence of changes of one leaf: versions never decrease and equal versions mean equal content |
| LeafLives.LeafStays | crates/nmux-core/src/session.rs:635-681 | in every run a leaf whose tab is not closed is still there, and is what it was after a sequence of such changes |
| LeafLives.StepCarries | crates/nmux-core/src/session.rs:1043-1057 | a leaf goes away exactly by the event that closes its tab |
| LeafLives.VersionsIdentifyContent | crates/nmux-core/src/session.rs:843-934 | in every run of every engine, between two moments of a leaf not closed in between: versions never decrease, equal surface versions mean equal views, equal scrollback versions mean equal scrollbacks |
| LeafLives.ReopenedPaneStartsOver | crates/nmux-core/src/session.rs:992-1057 | a tab closed and opened again under the same pane id is at version two after one visible output, whatever it shows |
| LeafLives.ReusedIdRepeatsVersion | crates/nmux-core/src/session.rs:2390-2449 | on the interim engine, from any session and for any new pane id, such a list of events gives two different views under one id and version |
| LeafInvariants.RowsAlwaysAgree | crates/nmux-core/src/session.rs:2864-2905 | for every engine, in every reachable state, the row vectors of every leaf agree |
| LeafInvariants.InitialAgrees | crates/nmux-core/src/session.rs:746-818 | they agree in the initial session |
| LeafInvariants.RunSatisfies | crates/nmux-core/src/session.rs:635-681 | a pane property kept by creation, splits, policies and the engine holds of all leaves over every run |
| Mirror.CheckRowIndices | crates/nmux-cli/src/local/surface.rs:881-900 | accepts exactly distinct in-range row indices |
| Mirror.ClientPaneSurface.ApplyRows | crates/nmux-cli/src/local/surface.rs:754-778 | the mirror's rows after a list of row updates |
| Mirror.ClientPaneSurface.ApplySnapshot | crates/nmux-cli/src/local/surface.rs:513-560 | the mirror made from a snapshot; a refused snapshot changes nothing |
| Mirror.ClientPaneSurface.ApplyPatchFrame | crates/nmux-cli/src/local/surface.rs:575-665 | the mirror after a patch; a refused patch changes nothing |
| Mirror.SnapshotAccepted | crates/nmux-cli/src/local/surface.rs:513-560 | a snapshot is accepted iff it names a pane, has no palette diff, its rows are distinct and inside, and its style and hyperlink ids are known |
| Mirror.PatchAccepted | crates/nmux-cli/src/local/surface.rs:575-665 | when exactly a patch is accepted, by pane, base version, kind, rows, colours and ids |
| Mirror.PatchChanges | crates/nmux-cli/src/local/surface.rs:575-665 | which fields an accepted patch of each kind changes and which it never touches |
| Sync.SnapshotReproducesPane | crates/nmux-core/src/session.rs:1348-1459 | a snapshot is accepted iff the lines fit the rows and the styles are known, and then shows the pane's view |
| Sync.ViewShowsPane | crates/nmux-core/src/session.rs:1348-1459 | a pane's view is the pane, field by field and row by row |
| Sync.PatchReproducesPane | crates/nmux-core/src/session.rs:1471-1591 | applying the patch of an update to the old view gives the new view iff no shown row vanishes, no palette is cut and the styles are known |
| Sync.QuietUpdateKeepsPatch | crates/nmux-core/src/session.rs:2563-2715 | a working patch works after a quiet update iff the palette had not changed |
| Limits.ShortenedPaletteIsLost | crates/nmux-core/src/session.rs:2717-2730 | cutting a palette is lost on the client although the patch is accepted |
| Limits.VanishedRowStays | crates/nmux-core/src/session.rs:2777-2805 | showing fewer lines leaves the old rows in the mirror |
| Limits.QuietUpdateDropsPalette | crates/nmux-core/src/session.rs:2563-2715 | a quiet update between a colour change and its patch drops the palette |
| Limits.SplitPaneIsDeliverable | crates/nmux-core/src/session.rs:2325-2370 | a pane just split has no patch, and a client accepts its snapshot iff the lines it kept fit its half and their styles are known |
| Limits.OneRowPaneIsUndeliverable | crates/nmux-core/src/session.rs:2390-2449 | a new pane one row high has a snapshot no client accepts |
| Channel.AsyncClientOutput.SurfaceSignalSetBytes | crates/nmux-cli/src/local/async_live.rs:397-409 | the sum of all pending frame sizes |
| Channel.BytesOfAll | crates/nmux-cli/src/local/async_live.rs:397-409 | a set's size is the snapshot of every signal and the patch of those that have one |
| Channel.AsyncClientOutput.EnforceSurfaceBudget | crates/nmux-cli/src/local/async_live.rs:342-360 | a set within the cap is kept as it is; over the cap every signal keeps its version and snapshot, loses its patch and requires the snapshot; error iff still over |
| Channel.AsyncClientOutput.UpdateSurfaceSignal | crates/nmux-cli/src/local/async_live.rs:311-340 | the pending set after a signal; only sets within the cap are published |
| Channel.PatchesAreKept | crates/nmux-cli/src/local/async_live.rs:311-360 | when after each call the last signals of all panes, patches included, fit the cap, exactly those signals are pending, each with the patch and the flag it was signalled with |
| Channel.WriterChoice | crates/nmux-cli/src/local/async_live.rs:581-617 | which frame is written: none for a version known, the patch iff there is one for the adjacent known version and no snapshot is required, else the snapshot, else what the live source offers |
| Channel.SnapshotRequirementSticks | crates/nmux-cli/src/local/async_live.rs:311-360 | a required snapshot stays required and the pane is never again served a patch |
| Channel.LatestWins | crates/nmux-cli/src/local/async_live.rs:311-340 | a pane's pending version and snapshot are those signalled last |
| Channel.SignalFits | crates/nmux-cli/src/local/async_live.rs:311-360 | a signal fails for the budget iff the snapshots alone, the new one in its pane's place, exceed the cap; the same snapshots stay pending |
| Channel.ClientWriteTask.WriteSignal | crates/nmux-cli/src/local/async_live.rs:581-617 | skips known versions; else the bundled patch exactly for the adjacent known version, else the bundled snapshot, else what the live source offers |
| Channel.ClientWriteTask.WriteSurfaceSignals | crates/nmux-cli/src/local/async_live.rs:555-579 | at most one frame per pane and the known versions afterwards, whatever the order of panes |
| ClientLink.SignalKeepsLink | crates/nmux-cli/src/local/async_live.rs:311-340 | a signal whose view the writer's next choice leads to is what the client ends at, unless the channel stops |
| ClientLink.WriteKeepsLink | crates/nmux-cli/src/local/async_live.rs:555-617 | writing one signal keeps what the client will end at for every pane |
| ClientLink.WriterLeads | crates/nmux-cli/src/local/async_live.rs:581-617 | whatever the writer does for a signal that is met, a patch, a snapshot or nothing, the client then shows the signal's view |
| Delivery.StepKeepsInv | crates/nmux-cli/src/local.rs:1583-1624 | every daemon, channel, writer and client step keeps the delivery invariant, creation of panes under old names included |
| Delivery.MirrorsNeverWrong | crates/nmux-cli/src/local/async_live.rs:555-617 | in every interleaving, names reused or not, each mirror shows a view a pane of its name really had, and no frame is ever refused |
| Delivery.SettledMirrorsAreCurrent | crates/nmux-cli/src/local/async_live.rs:555-579 | once the last published set is processed, every announced name is mirrored at its announced version, and every pane announced since it was created is mirrored exactly |
| Delivery.ReopenedPaneIsPassedOver | crates/nmux-cli/src/local.rs:1599-1603 | a pane at the version announced of its name's earlier pane is passed over, and the mirror keeps the earlier view |
| Delivery.AnnouncementStops | crates/nmux-cli/src/local/async_live.rs:342-360 | in every run published sets are within the cap, and an announcement stops the channel iff the last announced snapshots of all panes, closed ones included, exceed it |
| Delivery.RunKeepsBundles | crates/nmux-cli/src/local/async_live.rs:311-360 | in every run whose cap has room for the last bundles of all panes, patches included, each pending or published signal is the bundle last announced of its name |
| Delivery.AdjacentClientIsPatched | crates/nmux-cli/src/local/async_live.rs:581-617 | in such a run a client at the version before is written the patch frame of a pane announced with a patch |
| Delivery.ClientSettles | crates/nmux-cli/src/local/async_live.rs:456-477 | from any reachable state the client's own steps reach such a state |
| Delivery.BundleRight | crates/nmux-cli/src/local.rs:4602-4630 | the bundle of a pane whose lines fit and styles are known is about the pane's present view |
| Delivery.SendableIsExact | crates/nmux-cli/src/local/async_live.rs:581-617 | a pane may be announced iff its snapshot is accepted and the writer's choice by version number leads the client to its view |
| Delivery.OwnSendable | crates/nmux-core/src/session.rs:1471-1591 | towards a client that shows the same pane: iff lines fit, styles are known and the patch in question is not stale |
| Delivery.OtherSendable | crates/nmux-cli/src/local/async_live.rs:581-617 | towards a client that shows an earlier pane of the name: lines and styles suffice when versions do not clash; at the same version only equal views do |
| Delivery.AnnouncingIsExact | crates/nmux-cli/src/local.rs:1583-1624 | the same in every run, whatever the writer still has to do before |
| Delivery.StepKeepsOwn | crates/nmux-cli/src/local.rs:1583-1624 | as long as no announced name is reused, all the client holds of a name is of its present pane |
| Delivery.NewNamesAreSafe | crates/nmux-cli/src/local.rs:1583-1624 | then the version numbers never mislead, and a caught-up client mirrors every announced pane |
| Tree.CollectLeafPaneIds | crates/nmux-core/src/session.rs:2315-2323 | the leaf ids in order |
| Tree.SplitChildSizes | crates/nmux-core/src/session.rs:2372-2388 | the halves partition the size along the axis and differ by at most the odd cell, which the second gets; refused iff too small |
| Tree.SplitPaneNode | crates/nmux-core/src/session.rs:2325-2370 | the tree after a split at any depth; a refused split changes nothing |
| Tree.SplitConservesLeaves | crates/nmux-core/src/session.rs:2325-2370 | a split replaces exactly one leaf, named like the target, by its two halves; all other leaf records stay |
| Tree.SplitHalves | crates/nmux-core/src/session.rs:2325-2449 | both leaves of a split field by field: sizes halved along the axis, content and next version of the first, the second as every new pane starts |
| Tree.BranchStandsInPlace | crates/nmux-core/src/session.rs:2325-2370 | a leaf can be split iff its axis is two cells long; the branch has its size, its derived id, and the two halves as only leaves |
| Tree.FindIsFirst | crates/nmux-core/src/session.rs:2296-2304 | lookup finds the first node of the name in document order |
| Tree.LeavesAreChildless | crates/nmux-core/src/session.rs:2315-2323 | the leaves are the nodes without children, in document order |
| Tree.SplitInsertsId | crates/nmux-core/src/session.rs:2315-2370 | the new id is inserted right after the target in the leaf id list |
| Tree.SplitSucceeds | crates/nmux-core/src/session.rs:2325-2388 | without a branch of the same name, a split succeeds iff a large enough leaf has the name |
| Tree.SplitKeepsDistinct | crates/nmux-core/src/session.rs:1090-1124 | a fresh id keeps leaf ids distinct |
| Tree.ReplaceLeaf | crates/nmux-core/src/session.rs:2306-2313 | updating a found leaf in place changes exactly that leaf |
| Tiling.SplitTiles | crates/nmux-core/src/session.rs:2325-2388 | a split keeps the tiling and the size of every node |
| Tiling.LeavesCoverRoot | crates/nmux-core/src/session.rs:2372-2388 | the leaf areas of a tiled tree add up to its rectangle, so there are at most that many leaves |
| Session.SessionState.AddTab | crates/nmux-core/src/session.rs:992-1026 | the workspace after adding a tab, or unchanged when refused |
| Session.SessionState.SwitchTab | crates/nmux-core/src/session.rs:1028-1041 | the workspace after switching, or unchanged when refused |
| Session.SessionState.CloseTab | crates/nmux-core/src/session.rs:1043-1057 | the workspace after closing, with the neighbouring tab active |
| Session.SessionState.FocusPane | crates/nmux-core/src/session.rs:1059-1076 | the workspace after focusing a pane of the active tab |
| Session.SessionState.SplitPane | crates/nmux-core/src/session.rs:1090-1124 | the workspace after splitting in the active tab, the new pane active |
| Session.SessionState.SetPaneResizePolicy | crates/nmux-core/src/session.rs:940-955 | the workspace after a policy change, or unchanged |
| Session.SessionState.ApplyPaneOutput | crates/nmux-core/src/session.rs:843-882 | the engine's new state and the workspace with the found pane updated |
| Session.SessionState.CommitPaneResize | crates/nmux-core/src/session.rs:889-934 | the same for a resize, with the new size and a forced update |
| Session.AddTabDoes | crates/nmux-core/src/session.rs:992-1026 | when a tab can be added, and the whole workspace afterwards |
| Session.SwitchTabDoes | crates/nmux-core/src/session.rs:1028-1041 | when a tab can be switched to, and that only the active tab changes |
| Session.CloseTabDoes | crates/nmux-core/src/session.rs:1043-1057 | any tab but the only one; the others keep their order, and the tab at its index, or the last one, becomes active if it was |
| Session.FocusPaneDoes | crates/nmux-core/src/session.rs:1059-1076 | when a pane can be focused, and that only its tab's active pane changes |
| Session.SplitPaneDoes | crates/nmux-core/src/session.rs:1090-1124 | one leaf of the active tab is split, the new pane becomes active, other tabs stay |
| Session.SplitPaneWorks | crates/nmux-core/src/session.rs:1090-1124 | which leaf has to exist for that |
| Session.SetPolicyDoes | crates/nmux-core/src/session.rs:940-955 | the policy of the pane found changes, iff it differs |
| Session.AddKeepsGood | crates/nmux-core/src/session.rs:992-1026 | adding a tab keeps the workspace invariant |
| Session.CloseKeepsGood | crates/nmux-core/src/session.rs:1043-1057 | closing a tab keeps it, including an existing active tab |
| Session.SplitKeepsGood | crates/nmux-core/src/session.rs:1090-1124 | splitting keeps it, including binary branches and distinct leaf ids |
| Session.PutKeepsGood | crates/nmux-core/src/session.rs:1333-1337 | updating a pane in place keeps it |
| Core.RunKeepsGood | crates/nmux-core/src/session.rs:635-681 | over every event run and for every engine: distinct tab and leaf ids, binary branches, and an active pane always |
| Core.InitialGood | crates/nmux-core/src/session.rs:746-818 | the initial session satisfies the invariant and is tiled |
| Core.RunTiles | crates/nmux-core/src/session.rs:2325-2388 | over any run without committed resizes the leaves of every tab exactly cover the common rectangle, each with at least one cell |
| Resizing.ResizeTiles | crates/nmux-core/src/session.rs:889-934 | a committed resize leaves all tabs tiled iff nothing is resized or the pane is a whole tab and gets a cell |
| Resizing.StepTilesExactly | crates/nmux-core/src/session.rs:635-681 | an event leaves tiled tabs tiled iff it does not resize a part of a tab |
| Resizing.RunTilesExactly | crates/nmux-core/src/session.rs:635-681 | over a run all tabs are tiled at every moment iff no event resizes a part of a tab |
| Core.RunRefines | crates/nmux-core/src/session.rs:2325-2370 | in such runs every node of a tab that stays open keeps its size |
| Core.SilentEventChangesNothing | crates/nmux-core/src/session.rs:635-742 | an event without effects changes no version and no content |
| Core.EffectsAreCurrent | crates/nmux-core/src/session.rs:635-742 | effects carry the versions, size and patch kind that hold afterwards |
| Core.StructureEffects | crates/nmux-core/src/session.rs:635-681 | a structural event has exactly one effect, the new workspace version, when it works, and changes nothing otherwise |
| Core.OutputEffects | crates/nmux-core/src/session.rs:683-700 | output is announced, once and with the versions that hold, iff one of the pane's versions moved |
| Core.ResizeEffects | crates/nmux-core/src/session.rs:702-732 | a committed resize is announced as size, surface and workspace, in this order, iff it changes the size and the engine answers |
| Core.MissingPane | crates/nmux-core/src/session.rs:683-732 | output and resizes for a pane that does not exist only create its engine |
| Core.AcceptAllRuns | crates/nmux-core/src/session.rs:603-616 | accepting events is a run, so run theorems hold of the core |
| Core.RecordsAreNumbered | crates/nmux-core/src/session.rs:603-616 | the records of a run are its events in order, numbered without a gap, each with the effects of its event |
| Core.ReplayReproduces | crates/nmux-core/src/session.rs:603-633 | replaying the full log reproduces workspace, engines, effects of every event and next index |
| Core.SessionCore.ApplyAccepted | crates/nmux-core/src/session.rs:635-742 | machine and effects after one accepted event |
| Core.SessionCore.AcceptPending | crates/nmux-core/src/session.rs:603-616 | the record and the core after accepting a pending event |
| Core.ReplayAcceptedEvents | crates/nmux-core/src/session.rs:618-633 | the core and records a replay produces |
| Scheduler.DeterministicSessionScheduler.Push | crates/nmux-core/src/session.rs:396-401 | appends to the queue of the event's source |
| Scheduler.DeterministicSessionScheduler.NextSource | crates/nmux-core/src/session.rs:403-419 | the source whose head is smallest by lane priority and source id |
| Scheduler.DeterministicSessionScheduler.PopNext | crates/nmux-core/src/session.rs:403-419 | removes that head, and nothing else |
| Scheduler.LanesServedInOrder | crates/nmux-core/src/session.rs:403-435 | lifecycle before control before client before pane before timer, and within a lane the alphabetically first source |
| Scheduler.StringLessIsAlphabetical | crates/nmux-core/src/session.rs:403-412 | the order of source ids is by the first differing character, prefixes first |
| Scheduler.DrainKeepsSources | crates/nmux-core/src/session.rs:403-419 | draining ends after all waiting events and is first-in first-out per source |
| Scheduler.DrainIsPermutation | crates/nmux-core/src/session.rs:396-419 | what was pushed is what is popped |
| Scheduler.InterleavingIrrelevant | crates/nmux-core/src/session.rs:396-401 | how pushes of different sources interleave makes no difference |
| Scheduler.DrainIsStableSort | crates/nmux-core/src/session.rs:403-435 | with one lane per source draining is the stable sort by lane priority and source id |
| Actor.SessionTraceRing.Push | crates/nmux-core/src/session.rs:353-361 | the ring keeps the last records within its capacity |
| Actor.SessionActor.DrainNext | crates/nmux-core/src/session.rs:467-472 | accepts the scheduler's next event; the core stays the replay of the whole log and the ring its end |
| Actor.SessionActor.DrainReady | crates/nmux-core/src/session.rs:474-480 | accepts everything waiting, in drain order, and terminates |
| Actor.RingReplays | crates/nmux-core/src/session.rs:353-372 | replaying the ring reproduces core and records iff no record was dropped |
| Actor.RingReplaysCore | crates/nmux-core/src/session.rs:353-372 | a ring with any record reproduces the next event index, and the core when what was dropped led back to the start |
| Actor.IdleDropsAreHarmless | crates/nmux-core/src/session.rs:353-372 | the core is reproduced when the dropped records had no effects and reached no engine |
| Actor.ShortRingDiverges | crates/nmux-core/src/session.rs:353-361 | a dropped record with effects can change the core that is replayed |
| EndToEnd.EventFollows | crates/nmux-core/src/session.rs:635-681 | every session event is, on the leaves, the run of its daemon actions |
| EndToEnd.SplitFollows | crates/nmux-core/src/session.rs:1090-1124 | a split shrinks one pane and creates one |
| EndToEnd.CloseFollows | crates/nmux-core/src/session.rs:1043-1057 | closing a tab closes exactly its leaves |
| EndToEnd.OutputIsShown | crates/nmux-core/src/session.rs:843-882 | after output the pane found, and the view clients are sent, show the engine's update field by field and row by row |
| EndToEnd.ResizeIsShown | crates/nmux-core/src/session.rs:889-934 | after a committed resize the pane has exactly the committed size and the engine's content, under the next version |
| LiveSession.LiveMirrorsAreRight | crates/nmux-cli/src/local/async_live.rs:555-617 | sessions and clients interleaved, any engine, names reused or not: mirrors show views that were, and once caught up the mirror of each leaf announced since it was created is its view |
| LiveSession.NewNamesAreMirrored | crates/nmux-cli/src/local.rs:1583-1624 | with new names only, that holds of every announced leaf |
| ReusedNames.ReopenedMirrorStaysWrong | crates/nmux-cli/src/local.rs:1599-1603 | from any session a list of events, with the client caught up, after which a reopened tab's mirror shows the closed one and nothing is left to do |
| LiveSession.EventPossible | crates/nmux-core/src/session.rs:635-681 | whatever the engine, every event that saturates no version can be followed by the clients |
| LiveSession.SessionsAreLive | crates/nmux-core/src/session.rs:635-681 | so sessions of such events never get stuck, for every engine, as long as only what can be sent is announced |
| LiveSession.InterimRunKeepsRight | crates/nmux-core/src/terminal.rs:295-330 | over every live run on the interim engine screens stay pieces of their scrollbacks and no patch is stale |
| LiveSession.InterimAnnounceable | crates/nmux-core/src/terminal.rs:687-713 | on the interim engine a leaf can be announced iff its lines fit its rows, unless an earlier pane of the name is shown at a clashing version |
| LiveSession.OutputMakesAnnounceable | crates/nmux-core/src/terminal.rs:687-713 | which holds again after its next output |
| LiveSession.FreshIsRight | crates/nmux-core/src/session.rs:746-818 | a new session with a new client is a starting point of these theorems |
| ByteAccounting.StepKeepsAccount | crates/nmux-cli/src/local/async_live.rs:362-394 | every atomic step keeps the counter equal to queued, reserved and unreleased bytes within the cap, and no subtraction underflows |
| ByteAccounting.AccountAlwaysRight | crates/nmux-cli/src/local/async_live.rs:251-268 | in every interleaving of any number of producers; no frame is lost or reordered while the receiver lives |
| ByteAccounting.QuietMeansZero | crates/nmux-cli/src/local/async_live.rs:412-453 | nothing leaks: a quiet queue has its whole budget back |
| ByteAccounting.CallUnderInterference | crates/nmux-cli/src/local/async_live.rs:251-268 | under any interference a finished call has sent its frame exactly once or was refused exactly once, and then holds nothing |
| ByteAccounting.CallIsAllOrNothing | crates/nmux-cli/src/local/async_live.rs:251-268 | without interference a call accepts a frame iff counter plus length is at most the byte cap, the receiver lives and the frame cap is not reached; a refused frame leaves no trace |
| Text.Utf8RoundTrip | crates/nmux-cli/src/local/client_state.rs:599-1132 | decoding inverts UTF-8 encoding |
| Text.LossyJoins | crates/nmux-core/src/terminal.rs:742-797 | lossy decoding of two pieces is that of the whole iff the cut is not inside a character |
| Text.CompleteIsNotCut | crates/nmux-core/src/terminal.rs:742-797 | a cut after complete UTF-8 text is never inside a character |
| Text.OnlyEncodingsDecode | crates/nmux-cli/src/local/client_state.rs:599-1132 | only UTF-8 encodings are decoded, and lossy decoding agrees on them |
| Text.UnsignedTexts | crates/nmux-cli/src/local/state_file.rs:17-39 | a number is read from its decimal digits after any zeros and at most one plus sign, within its range, and from no other text |
| Interim.InterimAnsiParser.Consume | crates/nmux-core/src/terminal.rs:377-448 | the byte loop is the fold of the parser over the bytes |
| Interim.InterimAnsiParser.ApplyCsiFinal | crates/nmux-core/src/terminal.rs:451-491 | the loop over the parameters of a finished control sequence computes the mode changes that the `Escapes` lemmas state one by one |
| Escapes.SwitchesSet | crates/nmux-core/src/terminal.rs:459-491 | `ESC [ ? code h` and `l` for 1, 6, 7, 1004 and 2004 set and clear cursor keys, origin, wraparound, focus reporting and bracketed paste, and nothing else |
| Escapes.MouseModesSet | crates/nmux-core/src/terminal.rs:475-518 | setting 1000, 1002, 1003, 1006 or 1016 puts that tracking or format in force |
| Escapes.MouseModesReset | crates/nmux-core/src/terminal.rs:475-518 | resetting one has an effect iff it is the one in force |
| Escapes.OtherCodesIgnored | crates/nmux-core/src/terminal.rs:459-491 | every other number changes nothing |
| Escapes.NoNumberIgnored | crates/nmux-core/src/terminal.rs:462-468 | nor does a parameter that is no 32-bit number |
| Escapes.OtherSequencesIgnored | crates/nmux-core/src/terminal.rs:451-463 | nor any sequence without the question mark or with another final byte |
| Escapes.SeveralInOrder | crates/nmux-core/src/terminal.rs:459-491 | several parameters act like as many sequences, in order |
| Escapes.SingleEscapes | crates/nmux-core/src/terminal.rs:386-409 | `ESC =` and `ESC >` set and clear the keypad; every other single escape is dropped |
| Escapes.EscapeStartsOver | crates/nmux-core/src/terminal.rs:381-420 | an escape starts over, also inside a control sequence, and 0x9b is `ESC [` |
| Escapes.OscIsSilent | crates/nmux-core/src/terminal.rs:421-433 | an operating system command is silent up to its first BEL or `ESC \`, exactly |
| Escapes.StringIsSilent | crates/nmux-core/src/terminal.rs:434-442 | string controls are silent up to their first `ESC \`, exactly |
| Escapes.PlainPasses | crates/nmux-core/src/terminal.rs:381-385 | bytes without an escape or 0x9b pass unchanged |
| Interim.FilterSplits | crates/nmux-core/src/terminal.rs:377-448 | the parser's result does not depend on chunk boundaries |
| Interim.MergeInterimPtyOutput | crates/nmux-core/src/terminal.rs:742-797 | the loop is a fold of single characters over lines and an open last line |
| Interim.TapeOnlyGrows | crates/nmux-core/src/terminal.rs:742-797 | printing keeps all lines but extends an open last one |
| Escapes.PrintableIsKept | crates/nmux-core/src/terminal.rs:742-797 | printable text extends an open line or opens a new one |
| Escapes.ControlsPrinted | crates/nmux-core/src/terminal.rs:742-797 | a line feed ends a line; every other control character but the tab is dropped |
| Escapes.ReturnsAreLineFeeds | crates/nmux-core/src/terminal.rs:742-797 | CR LF and a lone CR are line feeds |
| InterimEngine.InterimTextTerminalEngine.ApplyOutput | crates/nmux-core/src/terminal.rs:295-315 | parser state and update of one output |
| InterimEngine.InterimTextTerminalEngine.Resize | crates/nmux-core/src/terminal.rs:317-335 | the update shows the last min(rows, n) lines of the unchanged scrollback, the cursor on the last of them in its column |
| Escapes.PromptSwitchesPasteOn | crates/nmux-core/src/terminal.rs:295-315 | the sequence for 2004 changes bracketed paste of the pane and no line |
| Escapes.LinesAppear | crates/nmux-core/src/terminal.rs:295-315 | printable lines sent to a pane are appended to its scrollback and the screen shows the last of them |
| Escapes.CursorFollowsText | crates/nmux-core/src/terminal.rs:687-713 | the cursor stands behind the open last line, on the last row of the screen |
| Escapes.OutputKeepsRest | crates/nmux-core/src/terminal.rs:687-713 | output keeps title, directory, surface, colours, size and place, and leaves the default style table |
| InterimEngine.ChunksJoin | crates/nmux-core/src/terminal.rs:295-315 | two outputs equal their concatenation iff the cut is neither inside a character nor between CR and LF; parser state and modes always agree |
| InterimEngine.AnyChunking | crates/nmux-core/src/terminal.rs:295-315 | any chunking of a stream gives the content of one output iff no cut is of these two kinds |
| InterimEngine.AccentCut | crates/nmux-core/src/terminal.rs:295-315 | two bytes of one letter in two outputs give another content |
| InterimEngine.OutputKeepsGood | crates/nmux-core/src/terminal.rs:687-713 | scrollback is append-only and the screen is exactly its last lines |
| InterimEngine.ResizeKeepsGood | crates/nmux-core/src/terminal.rs:687-713 | the same after a committed resize |
| InterimEngine.InterimOutputPresentable | crates/nmux-core/src/terminal.rs:687-713 | interim updates meet the condition of patch soundness |
| Decrqm.DecrqmDetector.IngestDecrqmQuery | crates/nmux-core/src/terminal.rs:1058-1075 | reports iff carry and chunk contain the query, and keeps five bytes or nothing |
| Decrqm.CarrySuffices | crates/nmux-core/src/terminal.rs:1058-1075 | five bytes of carry are enough |
| Decrqm.ReportsSinceLast | crates/nmux-core/src/terminal.rs:1058-1075 | a chunk reports iff the bytes since the last report contain the query |
| Decrqm.SomeReportIffQuery | crates/nmux-core/src/terminal.rs:1058-1075 | some chunk reports iff the stream contains the six bytes 1b 5b 3f 37 24 70, for every chunking |
| Decrqm.FirstReport | crates/nmux-core/src/terminal.rs:1058-1075 | the first report is in the chunk where the first occurrence ends |
| Decrqm.SecondQueryCanBeMissed | crates/nmux-core/src/terminal.rs:1058-1075 | a later query can be missed |
| SgrMouse.ReportRoundTrip | crates/nmux-core/src/terminal.rs:634-673 | button, action, modifiers and position can be read back from every report |
| SgrMouse.ReportText | crates/nmux-core/src/terminal.rs:634-673 | the text of a report and what each bit of its code means |
| SgrMouse.ReportedIff | crates/nmux-core/src/terminal.rs:634-673 | which events are reported |
| StateText.HexEncode | crates/nmux-cli/src/local/state_file.rs:150-158 | two digits per byte, in order |
| StateText.HexDecode | crates/nmux-cli/src/local/state_file.rs:176-204 | the decoded bytes, or an error for odd length or other characters |
| StateText.HexRoundTrip | crates/nmux-cli/src/local/state_file.rs:150-204 | decoding inverts encoding |
| StateText.PaletteTextRoundTrip | crates/nmux-cli/src/local/state_file.rs:136-148 | big-endian palettes round trip through hexadecimal |
| StateText.LinesOfUnlines | crates/nmux-cli/src/local/client_state.rs:599-1132 | splitting into lines and fields inverts writing them |
| StateText.SplitJoined | crates/nmux-cli/src/local/client_state.rs:599-1132 | splitting a line inverts joining its fields |
| StateText.EnumsRoundTrip | crates/nmux-cli/src/local/state_file.rs:41-117 | every enumeration code reads back |
| StateText.CodesOnDisk | crates/nmux-cli/src/local/state_file.rs:41-117 | which number means which value |
| StateRoundTrip.SurfaceRestores | crates/nmux-cli/src/local/client_state.rs:410-1132 | a written surface reads back in canonical form, or is refused when its ids do not check out |
| StateRoundTrip.RoundTrip | crates/nmux-cli/src/local/client_state.rs:410-1132 | what decoding an encoded state gives, for every state |
| StateRoundTrip.ReadsExactly | crates/nmux-cli/src/local/client_state.rs:599-1132 | a written state is read again iff no cached range is empty or starts at zero, hyperlinks are proper and distinct, and the runs that are kept name listed styles and hyperlinks |
| StateRoundTrip.ReadsBackAs | crates/nmux-cli/src/local/client_state.rs:599-1132 | and then everything is as written, but rows whose runs do not spell their text become one plain run, and an empty style table the default one |
| StateRoundTrip.ExactRoundTrip | crates/nmux-cli/src/local/client_state.rs:410-1132 | the state itself comes back iff it passes the checks, every row's runs spell its text and every surface has a style |
| StateRoundTrip.OlderScopeReads | crates/nmux-cli/src/local/client_state.rs:627-635 | scope lines without change times read as zero times |
| StateRoundTrip.OlderSurfaceReads | crates/nmux-cli/src/local/client_state.rs:679-713 | surface lines without a kind read as the main surface |
| StateRoundTrip.OlderCursorReads | crates/nmux-cli/src/local/client_state.rs:745-753 | cursor lines without a blink field read as blinking |
| StateRoundTrip.OlderModesRead | crates/nmux-cli/src/local/client_state.rs:763-783 | mode lines without mouse fields read with the defaults |
| StateRoundTrip.OlderColorsRead | crates/nmux-cli/src/local/client_state.rs:818-835 | colour lines without the cursor flag read any nonzero cursor colour as set |
| StateRoundTrip.OlderRunsRead | crates/nmux-cli/src/local/client_state.rs:1019-1054 | runs without hyperlink or content read with the defaults |
| StateRoundTrip.OlderMetaReads | crates/nmux-cli/src/local/client_state.rs:884-1018 | row metadata of any older length sets its fields and keeps the others |
| StateRoundTrip.SecondRoundTripExact | crates/nmux-cli/src/local/client_state.rs:410-1132 | whatever a text of any version was read as is written and read exactly from then on |
| StateRoundTrip.BlankRowsChange | crates/nmux-cli/src/local/surface.rs:794-804 | a mirror with blank rows does not come back exactly |
| AttachFile.ClientAttachState.EncodeText | crates/nmux-cli/src/local/client_state.rs:410-597 | the nested loops write the specified text |
| AttachFile.DecodeText | crates/nmux-cli/src/local/client_state.rs:599-1132 | the nested loops read as specified, for every text; the `StateFiles` and `StateRoundTrip` lemmas say what that is |
| StateFiles.FirstLineDecides | crates/nmux-cli/src/local/client_state.rs:599-619 | under each of the eight first lines the rest of a file means the same; under any other first line nothing is read |
| StateFiles.FirstLineAlone | crates/nmux-cli/src/local/client_state.rs:599-619 | such a line alone is the empty state, and any other text of one line is refused |
| StateFiles.OlderFileReads | crates/nmux-cli/src/local/client_state.rs:599-1132 | a file of scope, surface, cursor, modes, title, directory and colours in their first format is read, under any of the eight first lines, to the state with today's defaults |
| StateFiles.ExampleFile | crates/nmux-cli/src/local/client_state.rs:410-597 | a small file, character by character |
| AttachFile.CacheIsAMap | crates/nmux-cli/src/local/client_state.rs:387-408 | the scrollback cache keeps one entry per range and answers with the last version cached |
| AttachFile.ChunkIsFound | crates/nmux-cli/src/local/client_state.rs:387-408 | a cached chunk is found under its pane, first line and line count, with its version and total |
| AttachFile.ClientAttachState.CacheScrollbackChunk | crates/nmux-cli/src/local/client_state.rs:387-408 | the cache after a chunk |
| AttachFile.ClientAttachState.ApplyScope | crates/nmux-cli/src/local/client_state.rs:159-165 | another socket's state is dropped |
| SpeculativeEcho.SpeculativeEchoOverlay.PredictPrintableKey | crates/nmux-cli/src/speculative_echo.rs:35-75 | the overlay and what is shown after a key |
| SpeculativeEcho.SpeculativeEchoOverlay.ReconcileUpdate | crates/nmux-cli/src/speculative_echo.rs:152-187 | the overlay and the outcome after an update |
| SpeculativeEcho.SpeculativeEchoOverlay.Render | crates/nmux-cli/src/speculative_echo.rs:101-136 | the rows shown, plain or underlined, over plain or styled rows |
| SpeculativeEcho.RunKeepsInv | crates/nmux-cli/src/speculative_echo.rs:152-220 | misses stay at most two, a prediction is pending only below that, keys are counted only while predictions are off |
| SpeculativeEcho.BackOffLastsThreeKeys | crates/nmux-cli/src/speculative_echo.rs:214-220 | while off, whatever else happens, exactly three predictable keys are swallowed |
| SpeculativeEcho.TwoMissesThreeKeysThenPrediction | crates/nmux-cli/src/speculative_echo.rs:197-220 | two misses switch off, the fourth key predicts again |
| SpeculativeEcho.PredictionIsShown | crates/nmux-cli/src/speculative_echo.rs:101-136 | a prediction is shown right behind the confirmed text and nothing else changes |
| SpeculativeEcho.ConfirmedIsOnScreen | crates/nmux-cli/src/speculative_echo.rs:152-187 | a confirmed character is on the mirror at the predicted place |
| SpeculativeEcho.ConfirmedExactly | crates/nmux-cli/src/speculative_echo.rs:152-187 | an accepted patch confirms iff it is newer, keeps the cursor on the row and not before the place, lists the row, and shows the character there |
| SpeculativeEcho.UpdateDoes | crates/nmux-cli/src/speculative_echo.rs:152-212 | the whole outcome: what confirms, what counts as a miss, what only displaces, what rebases, and what changes nothing |
| SpeculativeEcho.KeyPredicts | crates/nmux-cli/src/speculative_echo.rs:35-75 | when exactly a key is predicted, and as what |
| SpeculativeEcho.DrawnExactly | crates/nmux-cli/src/speculative_echo.rs:101-136 | when exactly a prediction is drawn |

## Left out

* FlatBuffers encoding, `wire.rs` and generated bindings: a frame is the record of what it carries. Values outside the
  enumerations cannot occur in the model, so the client's checks for them are absent.
* Row hashes in frames and mirrors: no claim about collisions is available. The codec carries them as opaque numbers.
* Hyperlink tables in frames: the daemon sends every hyperlink id as zero, so mirrors made from frames have no
  hyperlinks; the codec models them.
* The attach handshake.
* The libghostty engine: any deterministic engine stands for it.
* Commands, arguments and environment of hosts; a host is its id, its program and its initial size.
* Sockets, processes, the async runtime, files and clocks. `save` and `load` are modelled as text.
* Error messages of the codec: every error is `None`.
* ByteAccounting.CallIsAllOrNothing: states one call without interference, in which acceptance is exact; under
  interference a call may also be refused on a stale counter value, and `ByteAccounting.CallUnderInterference` says
  what holds then.
* Delivery.MirrorsNeverWrong: its runs saturate no version and announce only what can be sent;
  `Delivery.AnnouncingIsExact` shows that condition to be exact.
* Delivery.StepKeepsInv: the same conditions on one step.
* Core.RunTiles: asks for runs without committed resizes, because it also states one common rectangle;
  `Resizing.RunTilesExactly` is the exact condition for tilings.
* Channel.ClientWriteTask.WriteSignal: the live source answers from the pane and the version alone, without the frame
  sequence number. The daemon's own source never answers (`BundledSurfaceFrameSource`), and `Delivery` uses that one.
* SpeculativeEcho.SpeculativeEchoOverlay.Render: the rows before they are joined by line breaks; how a row is drawn
  with its styles is a parameter.
