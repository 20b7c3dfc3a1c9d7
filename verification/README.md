# A verified model of the ADE session daemon and its clients

This project models the parts of the repository where several pieces have to
agree, and proves that they do.

- **Screens.** `Repaint` compiles a screen into escape sequences; `Terminal`
  is a small terminal, written as the specification from ECMA-48 (sections
  8.3.21, 8.3.39 and 8.3.117) and the DEC modes the daemon names. `Ansi` prints
  and reads control functions. `Restore`, `RestoreScreen` and `Rescan` prove
  that feeding the bytes of a repaint to a client's terminal shows the same
  screen; `Settings` and `Replay` say exactly on which terminals it does, and
  what a replay of history followed by a repaint shows; `LiveMirror` follows a
  session's bytes into a terminal and a scanner at once. `Scanner` is the
  incremental escape parser, and `Rescan` closes the circle: a scanner fed a
  repaint knows what the session's scanner knew.
- **Attach.** `AttachRun` is the attached client as a transition system over
  interleaved tasks; `Handshake` is how a connection is opened, first and
  again, with the daemon's half of the negotiation beside it.
- **The ledger.** `AtomicFile` is a file system that can lose unsynced data and
  unsynced directory changes independently, and the write that survives it;
  `StateStore` is the daemon's store on top of it.
- **The registry.** `Registry` is the client's table with its partial unique
  index, its migration and its guarded writes; `Rebind` and `Scope` say
  exactly what the order of writes decides.
- **Shutdown.** `Shutdown` interleaves any number of connections with the idle
  watcher around one counter, one lock and one way out.
- **Printers and parsers.** `Framing` (envelope and stream), `Bounded` and
  `Rejection` (quoting the peer), `Shell` (POSIX quoting, once and twice),
  `Destination` (ssh destinations), `Layout` (pruning) and `Slug`.
- `Utf8` and `Decimal` are what the others share.

Code that changes state step by step is a class or a method with its loop,
proved against a function; the theorems are lemmas about those functions.
Protocols are state machines whose steps may be taken in any order.

Where the code and its comments differ, the code is modelled:

- An envelope is documented to be a JSON object. The derived reader also takes
  an array of the three values in order (`Framing.AnArrayIsAnEnvelope`).
- A reply is meant for the connection that caused it. The generation that ties
  it there is a 64-bit counter that wraps, so the guarantee holds up to 2^64
  reconnects (`AttachRun.RepliesStayOnTheirTransport`) and no further
  (`AttachRun.AReplyOnTheWrongTransport`).
- The repaint's way round origin mode relies on a DECRC that leaves origin mode
  alone. `Replay.ModesRestoredExactlyUnless` says exactly when that matters and
  `Replay.OriginModeIsLost` is a case.
- The record index is meant to tell local rows from remote ones. It cannot tell
  the local host from a host named by a single NUL character
  (`Registry.IndexFollowsMigration`, `Registry.TwoRowsTheIndexRefuses`).
- The idle exit is meant for a daemon nobody is connected to. The connections
  are counted before the session table is asked and the flag is raised, and one
  may open in between (`Shutdown.SomeoneIsConnectedAtAnIdleExit`).
- A repaint is meant to bring any client up to date. It states what the session
  changed from a fresh terminal, so a setting that only the client has stays
  (`Replay.ShowsExactlyWhenReceptive`).
- A DECSTBM with no useful parameters is described as the whole screen, and one
  that names only the top row is taken for it. The terminal does not take it so,
  and the two then part (`LiveMirror.AMarginUnheard`).
- A daemon id is meant to tell bound rows from unbound ones. An id that begins
  with a NUL can be the key of an unbound row (`Rebind.RefusedExactly`).
- `authoritative` is described as false for a file that exists and could not be
  read. A read that fails for any reason but absence counts as that, whether or
  not there is a file.

## Model

| member | source | states |
|---|---|---|
| Rescan.RepaintRestores | crates/ade_session_daemon/src/grid.rs:332-402 | For every screen of printable cells in well-formed pairs with colours an SGR can say, every region inside it and every receptive terminal of its size: interpreting the repaint bytes leaves that terminal with the session's cells, pen, cursor, cursor visibility, known modes, margins, keypad and title, the odd underlines as plain ones; modes the daemon does not know stay as they were, and the saved cursor is spent only where the cursor lies outside the margins or the alternate screen is entered |
| Replay.ShowsExactlyWhenReceptive | crates/ade_session_daemon/src/grid.rs:332-402 | On any terminal of the session's size, fresh, live or fed by history, the repaint shows the session's screen exactly when nothing is set there that the session does not have and the repaint does not say |
| Replay.ReplayShowsExactly | crates/ade_session_daemon/src/sessions.rs:850-852 | What a reattached client writes, the reset, the retained history and the repaint, shows the session's screen exactly when the history leaves a receptive terminal, for every history that ends between sequences |
| Settings.SettingsExactly | crates/ade_session_daemon/src/grid.rs:373-430 | From any terminal of the session's size the alternate screen, modes, margins, keypad and title come out as the session's exactly when the terminal was receptive |
| Replay.OneOrOtherIsReceptive | crates/ade_session_daemon/src/grid.rs:346-346 | A terminal that, setting by setting, has what the session has or what a fresh terminal has is receptive |
| LiveMirror.FedTheSameBytes | crates/ade_session_daemon/src/grid.rs:712-770 | A fresh terminal and a fresh scanner fed any such byte stream agree on every scanned mode and, but for control characters, on the title, and on the margins exactly when the last DECSTBM since a reset names two rows in order and on the screen, or names none the scanner hears and leaves the terminal without margins |
| LiveMirror.MarginsAgreeExactly | crates/ade_session_daemon/src/grid.rs:748-757 | For any stream the margins agree exactly under that condition on its last DECSTBM, and the terminal has margins of which the scanner recorded none exactly when that one names no two rows in order and leaves margins standing |
| LiveMirror.StreamAgrees | crates/ade_session_daemon/src/grid.rs:712-770 | After any stream the terminal has the margins of the last DECSTBM it did not refuse, the scanner the region of the last one of all |
| LiveMirror.LiveMirrorShowsExactly | crates/ade_session_daemon/src/grid.rs:346-346 | The repaint of a session sent to a terminal that has followed it from the start shows its screen, and that terminal is receptive to it, exactly unless it has margins the scanner did not hear |
| LiveMirror.WholeReplayShowsExactly | crates/ade_session_daemon/src/sessions.rs:850-852 | So does a replay of the whole history: a reset, all the session wrote and the repaint, on any terminal of the size |
| LiveMirror.AMarginUnheard | crates/ade_session_daemon/src/grid.rs:748-757 | Such margins: a DECSTBM that names only the top row |
| Replay.RepaintedStaysReceptive | crates/ade_session_daemon/src/grid.rs:346-346 | A repainted terminal is receptive to the next repaint of the same session, even where origin mode was lost |
| Replay.FreshTerminalShowsTheScreen | crates/ade_session_daemon/src/grid.rs:332-402 | A terminal just opened is receptive, and the repaint shows the screen on it |
| Replay.ModesRestoredExactlyUnless | crates/ade_session_daemon/src/grid.rs:432-472 | On a receptive terminal the modes come out right exactly unless the cursor is outside the margins under origin mode and the client's DECRC restores origin mode |
| Replay.EveryModeComesOut | crates/ade_session_daemon/src/grid.rs:403-430 | Mode by mode and by number: for every screen with modes among the twelve the emulator has and every one of these and of the five it does not name, a receptive terminal has it after the repaint exactly when the session does, but for origin mode in the stated case |
| Replay.OriginModeIsLost | crates/ade_session_daemon/src/grid.rs:432-472 | Such a case: a two by three screen under origin mode with the cursor above its margins loses origin mode on such a client |
| Rescan.RescanAgrees | crates/ade_session_daemon/src/grid.rs:332-431 | A fresh scanner fed one repaint carries nothing over and agrees with the session's scanner on every scanned mode, the region and the title, cleared or never set |
| Rescan.ScanOfRead | crates/ade_session_daemon/src/grid.rs:712-770 | On any byte stream that ends between sequences and breaks no CSI off with an escape, the scanner leaves what acting on the control functions a terminal reads there leaves |
| RestoreScreen.OpsRestore | crates/ade_session_daemon/src/grid.rs:332-402 | The control functions of a repaint, executed from any receptive terminal, end in the mirror of the session |
| RestoreScreen.RowsPaint | crates/ade_session_daemon/src/grid.rs:358-371 | Rows painted one after another, each with what its default end leaves out, show every row in full on a cleared screen |
| RestoreScreen.AssertedIs | crates/ade_session_daemon/src/grid.rs:403-417 | Asserting any codes from any modes: one asserted is as the session has it, one that is not stays unless a rival is asserted on |
| RestoreScreen.ModesExec | crates/ade_session_daemon/src/grid.rs:403-430 | The tracked modes, the scanned modes and the keypad together, from any terminal, state exactly what the session changed and leave every other mode, margin and setting alone |
| RestoreScreen.CursorExec | crates/ade_session_daemon/src/grid.rs:432-472 | The cursor lands on the session's row and column with origin mode off, on inside the margins, and on above or below them |
| Restore.CellsPaint | crates/ade_session_daemon/src/grid.rs:554-578 | Painting any run of cells from its own column writes exactly their glyphs, wide pairs and zero-width characters included, and leaves the tracked pen true |
| Restore.SgrIsAbsolute | crates/ade_session_daemon/src/grid.rs:602-672 | From any pen an SGR leaves exactly the cell's rendition, with the odd underlines as plain ones |
| Restore.PenOpsSetPen | crates/ade_session_daemon/src/grid.rs:567-570 | Whether the SGR is skipped or not, the terminal's pen ends as the cell's style |
| Restore.ZeroWidthsJoin | crates/ade_session_daemon/src/grid.rs:572-575 | Zero-width characters all join the glyph just written, in order, wherever the cursor has got to |
| Repaint.Repaint | crates/ade_session_daemon/src/grid.rs:332-402 | The byte buffer built step by step is the printed form of the control functions the theorems are about |
| Repaint.RowsBytes | crates/ade_session_daemon/src/grid.rs:358-371 | The row loop: a skipped row keeps the pen, a painted one starts with its CUP |
| Repaint.RenderRow | crates/ade_session_daemon/src/grid.rs:554-578 | None exactly when the whole row is default; otherwise the bytes up to the last cell that is not, and the pen they end with |
| Repaint.RenderCells | crates/ade_session_daemon/src/grid.rs:560-577 | The cell loop with its tracked pen prints the cells' control functions |
| Repaint.ModeBytes | crates/ade_session_daemon/src/grid.rs:403-430 | The two mode loops and the keypad, as the printed assertions |
| Repaint.ModeOpsAre | crates/ade_session_daemon/src/grid.rs:403-430 | All the mode part says, with the modes by number: 1, 6, 1000, 1002 to 1006 and 2004 set exactly when the session has them, 7 and 1007 reset exactly when it has not, 5, 9, 1001, 1015 and 1016 set exactly when the scanner has them on, and the keypad |
| Repaint.TailBytes | crates/ade_session_daemon/src/grid.rs:373-400 | Region, modes, pen, cursor, title and end of the synchronized update, in that order |
| Repaint.RepaintIsOneFrame | crates/ade_session_daemon/src/grid.rs:334-402 | Whatever the screen, the bytes are one frame of synchronized output: opened first, then the alternate screen and out of origin mode if the session is in them, the clear, the painting, and closed last |
| Ansi.NextOfPrint | crates/ade_session_daemon/src/grid.rs:334-400 | Every control function a repaint writes, numbers, titles and text, reads back as itself whatever follows it |
| Terminal.FeedOfPrint | crates/ade_session_daemon/src/grid.rs:332-402 | Feeding the printed bytes performs exactly the control functions printed |
| Scanner.Scanner.ScanBytes | crates/ade_session_daemon/src/grid.rs:712-770 | One call of the scanner leaves the modes, region, title and carried tail of the specification |
| Scanner.Scanner.Parse | crates/ade_session_daemon/src/grid.rs:825-895 | The byte-by-byte walk classifies as the specification does |
| Scanner.Scanner.SetMode | crates/ade_session_daemon/src/grid.rs:705-710 | The entry of a code is replaced where it stands or appended, and no other changes |
| Scanner.ParseIsStable | crates/ade_session_daemon/src/grid.rs:825-895 | A classified escape is classified the same whatever bytes follow |
| Scanner.TitleParses | crates/ade_session_daemon/src/grid.rs:838-848 | OSC 0 and OSC 2, ended by BEL or by ST, set the title to the lossily decoded text without its control characters, whatever follows |
| Scanner.ChunkingIsIrrelevant | crates/ade_session_daemon/src/grid.rs:712-770 | However a stream is cut, if no chunk but the last ends in an unfinished sequence past the bound, modes, region, title and tail are those of one scan of the whole |
| Scanner.EveryScanIsOk | crates/ade_session_daemon/src/grid.rs:712-770 | After any chunks the tail is empty or an unfinished sequence of at most 128 bytes, a region is a region, a title has no control, and only the five unnamed modes are recorded, none twice |
| Scanner.CutTitleIsKeptExactly | crates/ade_session_daemon/src/grid.rs:725-735 | The condition on chunks is needed: a title cut once is recorded as one scan of the whole records it exactly when at most 128 bytes came before the cut, and is lost otherwise |
| AttachRun.StepKeepsInv | crates/ade_session_daemon/src/attach.rs:471-513 | Every step of the attached client keeps the invariant: fates of inputs in order, replies stamped with their transport, and what waits is what is left of the queue |
| AttachRun.SentInOrderWithoutRepeats | crates/ade_session_daemon/src/attach.rs:780-811 | Over any run with any reconnects, the inputs all transports carried are read off the inputs queued at strictly increasing places |
| AttachRun.AtMostOneLostPerTransport | crates/ade_session_daemon/src/attach.rs:780-811 | Over any run each reconnect loses at most one input, the current transport none yet, only resizes are dropped as stale, and the rest waits in order |
| AttachRun.StaleExactlyWhen | crates/ade_session_daemon/src/attach.rs:683-685 | Over any run, every input taken from the queue was dropped exactly when it is a resize and the terminal had another size at the look at it; every other went out, or was lost, on the transport of that look |
| AttachRun.RepliesKeptExactlyWhen | crates/ade_session_daemon/src/attach.rs:666-688 | Over any run a reply is kept exactly when its cause and the transport at hand agree as 64-bit counters |
| AttachRun.RepliesStayOnTheirTransport | crates/ade_session_daemon/src/attach.rs:666-688 | A reply is only carried by a transport the wrapping 64-bit counter cannot tell from the one that caused it; it is that one exactly when fewer than 2^64 reconnects lie between |
| AttachRun.AReplyOnTheWrongTransport | crates/ade_session_daemon/src/attach.rs:666-688 | A run of 2^64 reconnects in which a reply goes out on a transport that did not cause it |
| Handshake.BothEndsHoldTheGreatestCommon | crates/ade_session_daemon/src/server.rs:860-931 | A handshake completes exactly when the ranges share a generation and the identity is the expected one, and then both ends hold the greatest they share |
| Handshake.GreatestCommon | crates/ade_session/src/proto.rs:181-189 | For any two ranges a generation is selected exactly when they overlap, and it is the greatest in both |
| Handshake.HonestSelectionPassesTheCheck | crates/ade_session/src/client.rs:78-94 | What a daemon serves is what it acknowledges, and never outside the range the client offered |
| Handshake.ServedExactly | crates/ade_session/src/proto.rs:198-238 | Any hello is acknowledged exactly when the ranges share a generation and there are at most 256 capabilities, each of 1 to 64 lower-case letters, digits, underscores, dots and dashes; otherwise it is refused and nothing is spoken |
| Handshake.FencedAttempt | crates/ade_session_daemon/src/attach.rs:412-418 | With an expected daemon id nothing but the hello goes to a daemon with another id or none, and the attempt ends the run |
| Handshake.ViewOnlyAboveLegacy | crates/ade_session_daemon/src/attach.rs:549-573 | Per connection: the hello first, the size before the attach, one attach, and a view id on it exactly above generation 2 |
| Handshake.FencedRun | crates/ade_session_daemon/src/attach.rs:471-513 | Over a whole run, first connect and reconnects alike: another daemon gets the hello only, is the last one talked to and ends the run in failure; a view id only ever reaches a daemon above generation 2 |
| Handshake.Handshaken | crates/ade_session_daemon/src/attach.rs:389-440 | One retry at most, only for an end of file with no reply and only when diagnosing; every other outcome is that of the attempt that settled it |
| Handshake.AwaitReplay | crates/ade_session_daemon/src/attach.rs:589-656 | The wait ends with the first frame that does not pass: done at the generation when it is this very session's replay, written; rejected with its code when it is an error under request 1 about this session or none; a transport failure when the connection, a write or an answer fails. Replays of other sessions and errors under other requests pass, and failed reads are answered in order |
| Handshake.ShakenExactly | crates/ade_session_daemon/src/attach.rs:389-440 | What each outcome of a handshake comes to: attached exactly on an acknowledged generation between 2 and the one offered, by the expected daemon if one is expected; retried exactly on an end of file with no reply; fatal for every answer a daemon gives that is none of these |
| Handshake.FailuresAreAnswered | crates/ade_session/src/framing.rs:221-241 | A failed read is answered exactly when it has a rejection frame, once and under the request of that frame; it ends the wait exactly when the transport is gone or the answer could not be sent |
| Handshake.Attach | crates/ade_session_daemon/src/attach.rs:549-584 | On an accepted connection the size if there is one, the attach with the view exactly above generation 2, and the answers go out in that order, up to the first send that fails |
| Handshake.ConnectAndAttach | crates/ade_session_daemon/src/attach.rs:535-586 | At most two attempts, two only on a first connect, each logged with exactly the frames it sends |
| Handshake.Attached | crates/ade_session_daemon/src/attach.rs:447-526 | The whole client: transport failures are retried, a rejection ends the terminal, a fatal failure fails it, and nothing follows either |
| AtomicFile.WriteAtomic | crates/ade_session_daemon/src/state.rs:383-422 | A crash in any state the disk passes through, with any loss of unsynced data and directory changes, leaves one of the old versions or the new one, whole; after a failure one of the old, after a synced success only the new; and success is exactly that no step up to the rename failed |
| AtomicFile.CrashLeavesOneVersion | crates/ade_session_daemon/src/state.rs:366-382 | From a safe state every loss of unsynced data and of any unsynced directory changes reads as one of the versions, and is safe again |
| AtomicFile.UnflushedRenameLosesTheLedger | crates/ade_session_daemon/src/state.rs:369-382 | Renaming before the data is flushed would let a crash leave anything at all |
| AtomicFile.RenameKeeps | crates/ade_session_daemon/src/state.rs:399-407 | Renaming a flushed file over the ledger adds the new version to what a crash can leave and nothing else |
| AtomicFile.CreateKeeps | crates/ade_session_daemon/src/state.rs:388-390 | Creating or truncating the temporary file touches no version of the ledger, even with a temporary file left by a crash |
| AtomicFile.SyncDirNarrows | crates/ade_session_daemon/src/state.rs:409-420 | After a directory sync only the version programs see is left |
| StateStore.StateStore.Load | crates/ade_session_daemon/src/state.rs:274-317 | Read off the bytes on the disk: degraded goes up exactly when they decode to a version above 1, or do not decode and a version above 1 can be dug out of them; unreadable exactly when they cannot be read or do not decode and there is none; neither ever goes down; and the rows are authoritative exactly when there was no file or it decoded |
| StateStore.StateStore.Save | crates/ade_session_daemon/src/state.rs:328-340 | A read-only store reports success and changes nothing; any other writes atomically |
| StateStore.Live | crates/ade_session_daemon/src/state.rs:274-340 | Over any sequence of loads and saves with any failures: crash-safe throughout, and the store goes read-only exactly where a load met a foreign ledger |
| StateStore.Serve | crates/ade_session_daemon/src/state.rs:274-340 | A new store on a disk just mounted: whatever is asked of it and wherever a crash falls, the ledger reads in full as the one found or one that was to be written |
| StateStore.NoByteChangesAfterARefusal | crates/ade_session_daemon/src/state.rs:158-185 | Once a load has met bytes it could not read or of a version above 1, or that do not decode, no later load or save changes anything on the disk |
| StateStore.OnlyARefusalStopsWriting | crates/ade_session_daemon/src/state.rs:158-160 | A store that is read-only has met such bytes |
| StateStore.SavedIsLoaded | crates/ade_session_daemon/src/state.rs:328-340 | After a synced save, whatever crash comes, the next daemon loads exactly the rows saved |
| StateStore.SniffReadsPrinted | crates/ade_session_daemon/src/state.rs:348-359 | The version is dug out of any text however the first key is laid out, unless it is too big |
| StateStore.SniffReadsNothing | crates/ade_session_daemon/src/state.rs:348-359 | No version is read from bytes that are no text, from text without the quoted key, or where no colon, or after it no digit, follows the first one |
| Registry.MigrationKeepsTheBest | crates/ade_workspaces/src/registry.rs:43-62 | The dedup migration leaves of every host and session exactly one confirmed row, the one with a branch, opened last, of smallest id |
| Registry.MigrationTouchesNothingElse | crates/ade_workspaces/src/registry.rs:43-62 | Quarantined rows and rows without a session stay, and no row is changed |
| Registry.IndexFollowsMigration | crates/ade_workspaces/src/registry.rs:64-71 | With daemon ids still NULL the unique index holds after the migration, exactly unless a session is confirmed both locally and on a host named by a single NUL |
| Registry.TwoRowsTheIndexRefuses | crates/ade_workspaces/src/registry.rs:64-71 | Such a pair: two confirmed rows with nothing to deduplicate, which the index refuses |
| Registry.Registry.Migrate | crates/ade_workspaces/src/registry.rs:43-71 | The two migrations together succeed exactly unless there is such a pair, and then leave the collapsed table under its index |
| Registry.BeatsIsBetter | crates/ade_workspaces/src/registry.rs:54-61 | The order the migration spells out in SQL is the one the conflict resolution sorts by |
| Registry.BestGrows | crates/ade_workspaces/src/registry.rs:468-472 | The survivor order is total, so adding a row to a group settles its best |
| Registry.IndexAfterWrite | crates/ade_workspaces/src/registry.rs:64-71 | A written row keeps the index exactly when no other row owns its record |
| Registry.Registry.CreateWorkspace | crates/ade_workspaces/src/registry.rs:189-224 | Replaces by id, leaves an existing owner of the record alone, and keeps the index |
| Registry.Registry.ConfirmWorkspace | crates/ade_workspaces/src/registry.rs:343-367 | A quarantined row is claimed once, unless the index refuses; otherwise nothing changes |
| Registry.Registry.RebindRoute | crates/ade_workspaces/src/registry.rs:378-410 | Writes exactly when the row is as the caller read it and the index allows it |
| Registry.Registry.ResolveRebindConflict | crates/ade_workspaces/src/registry.rs:416-498 | With the unique owner and the candidate if it still stands, the better stays under the new route and the other goes, whole or not at all |
| Registry.Registry.KeepTheBest | crates/ade_workspaces/src/registry.rs:463-494 | Sorting, deleting and rerouting in one savepoint leave the merged table or the old one |
| Registry.Registry.PromotionCandidates | crates/ade_workspaces/src/registry.rs:300-318 | All the quarantined rows, each once, this daemon's before any other's and, of one daemon's, those with a branch first |
| Registry.AheadExactly | crates/ade_workspaces/src/registry.rs:300-318 | The rest of the order, spelled out: of two rows the one of this daemon first, then one with a branch, then the one opened last, then the one of smaller id |
| Registry.OnePromotionOrder | crates/ade_workspaces/src/registry.rs:300-318 | There is only one such order |
| Rebind.BindAlias | crates/ade_workspaces/src/lifecycle.rs:2224-2257 | Rebind, and on a refusal by the index resolve: the table ends rebound or merged, and it fails, with the table as it was, exactly when the index refuses the row and no owner settles it |
| Rebind.BindAliases | crates/ade_workspaces/src/lifecycle.rs:2224-2257 | Binding any list of alias rows to one daemon, from one listing or listed again each time, fails exactly when another unbound row of the session has the daemon id for its key and is not the first alias, and then changes nothing; otherwise it leaves of the aliases and the owner the one best row, on the route of the last alias that acted or, if none did, as it was, the index true and every other row untouched |
| Rebind.AliasSettles | crates/ade_workspaces/src/registry.rs:416-498 | One more alias takes a settled table to one settled for the group with that alias, on the alias's route exactly when it acts: its row not gone, not at its route already and not changed since it was read |
| Rebind.OrderMattersExactly | crates/ade_workspaces/src/lifecycle.rs:2224-2257 | Two orders of the same aliases that both go through leave the same rows but for a route, and the same table exactly when nobody acts or the last alias to act answers on the same route in both |
| Rebind.MovedIsUnordered | crates/ade_workspaces/src/lifecycle.rs:2224-2225 | The rows to be bound are the same in every order of the aliases |
| Rebind.SomebodyActs | crates/ade_workspaces/src/lifecycle.rs:2224-2225 | An alias acts exactly when some row is not yet bound where it answers |
| Rebind.OneRouteOneTable | crates/ade_workspaces/src/lifecycle.rs:2224-2257 | On one route any two orders that go through leave the same table |
| Rebind.TwoRoutesTwoTables | crates/ade_workspaces/src/lifecycle.rs:2224-2257 | Two rows nobody owns, answering on two routes, end differently in their two orders |
| Rebind.RefusedExactly | crates/ade_workspaces/src/registry.rs:64-71 | Under the index, binding a row is refused exactly when some other unbound row of the session has the daemon id for its key, so never for an id that does not begin with a NUL |
| Rebind.StrangerFirst | crates/ade_workspaces/src/registry.rs:64-71 | With such a row about, the aliases go through exactly when it is the first of them, so the order can decide |
| Registry.Registry.UpdateProjectScope | crates/ade_workspaces/src/registry.rs:509-545 | Applied exactly when the revision is newer or fills in a missing identity; what is returned is what is stored |
| Registry.Registry.UpdateRepositoryScope | crates/ade_workspaces/src/registry.rs:547-589 | The same with the repository path |
| Scope.LastRevisionWins | crates/ade_workspaces/src/registry.rs:532-545 | After any sequence of updates with distinct revisions the row holds the newest one it accepts, or is unchanged if it accepts none |
| Scope.ScopeOrderDoesNotMatter | crates/ade_workspaces/src/registry.rs:509-589 | Any two orders of the same updates end in the same scope, and in the same row when there is no repository path to lose |
| Scope.OrderMattersExactly | crates/ade_workspaces/src/registry.rs:532-589 | Every order of any updates with distinct revisions ends in the same row exactly when, if the newest accepted one brings no repository, every accepted one that does brings the path the row has |
| Scope.RepositoryDependsOnOrder | crates/ade_workspaces/src/registry.rs:572-589 | The smallest case: a repository scope before a newer project scope keeps its path, after it it does not |
| Scope.RevisionsNeverGoDown | crates/ade_workspaces/src/registry.rs:532-545 | Stored revisions never go down, a refused write changes nothing and an accepted one is not accepted again |
| Shutdown.EveryRunIsOrderly | crates/ade_session_daemon/src/server.rs:181-242 | In every interleaving of any number of connections and the watcher: the counter is the number of live guards; after an accepted end nothing is admitted; an unforced end and an idle one come with nothing in flight; before an idle one nobody was connected when the watcher counted, those connected at it are exactly those who came after the count and have not gone, and nobody is admitted after the count; the exit action runs at most once and after an end |
| Shutdown.StepKeepsCount | crates/ade_session_daemon/src/server.rs:458-467 | Every step keeps what the watcher's count is worth until the watcher decides, whoever connects meanwhile |
| Shutdown.OpenSinceMeans | crates/ade_session_daemon/src/server.rs:458-467 | Who is open since a count, read off the log event by event, is who opened after it and has not closed since |
| Shutdown.SomeoneIsConnectedAtAnIdleExit | crates/ade_session_daemon/src/server.rs:458-467 | A run in which a connection opens after the count, is let in and is open when the daemon decides to exit idle |
| Shutdown.StepKeepsInv | crates/ade_session_daemon/src/server.rs:600-798 | Every step of every task keeps the invariant |
| Shutdown.MoveKeeps | crates/ade_session_daemon/src/server.rs:181-242 | Any move of one task that counts its own guard and swap keeps the counter, the flags, the lock and the log true |
| Shutdown.LockIsGivenBack | crates/ade_session_daemon/src/server.rs:182-205 | Whoever holds the lock in a reachable state can decide and give it back, in at most four steps |
| Shutdown.OneRequest | crates/ade_session_daemon/src/server.rs:754-793 | A state request changes nothing at all once the flag is up; otherwise it is counted in, and once handled or cut off it is counted out and leaves its connection reading on, or closing, and nothing else but a line in the log |
| Shutdown.OneShutdownRequest | crates/ade_session_daemon/src/server.rs:194-205 | A request for the end leaves its connection on the way out and the flag up exactly when it is forced or nothing is in flight and nothing worth keeping; otherwise nothing at all changes |
| Shutdown.AcceptedEndsCome | crates/ade_session_daemon/src/server.rs:207-220 | In every reachable state with an accepted end whose task is still on its way out, the exit action has run, or at most four steps of one such task run it |
| Shutdown.DaemonControl.AdmitStateRequest | crates/ade_session_daemon/src/server.rs:182-192 | Refused exactly while shutting down; counts one in otherwise, and changes neither flag |
| Shutdown.DaemonControl.AdmitShutdownRequest | crates/ade_session_daemon/src/server.rs:194-205 | Accepted exactly when forced, or with nothing in flight and nothing worth keeping; the flag only ever goes up, and a refusal changes nothing |
| Shutdown.DaemonControl.DropGuard | crates/ade_session_daemon/src/server.rs:233-242 | Counts one request out and changes nothing else |
| Shutdown.DaemonControl.Exit | crates/ade_session_daemon/src/server.rs:207-220 | The flag is set, and the action runs for the first caller only |
| Framing.DecodeUndoesEncode | crates/ade_session/src/framing.rs:273-357 | An encoded frame decodes to itself exactly when the derived forms read the frame's own value back; otherwise it is a malformed body under the frame's operation and id, if they read nothing |
| Framing.BodyCannotSpeakForTheEnvelope | crates/ade_session/src/framing.rs:301-339 | Whatever a body holds under the tag or request id key, the result is the same, and a decoded frame has the envelope's operation and its request id or none |
| Framing.FailuresAreClassified | crates/ade_session/src/framing.rs:301-357 | A frame is malformed exactly when its envelope is; any other failure is scoped to the envelope's operation and rid, known or unknown |
| Framing.AnArrayIsAnEnvelope | crates/ade_session/src/framing.rs:240-251 | An array of the three values is read as the envelope the object would be, and decodes to the same |
| Framing.EncodeFrame | crates/ade_session/src/framing.rs:273-294 | Removing the two keys step by step gives the envelope of the frame's own operation and id |
| Framing.DecodeFrame | crates/ade_session/src/framing.rs:301-357 | Both stages in order, with the two in-memory keys overwritten |
| Framing.DecodedExactly | crates/ade_session/src/framing.rs:108-118 | All an envelope can decode to: a rid that is no 64-bit number or a body that is no object spoils it; the frame comes out exactly when the operation is 1 to 64 lower-case letters, digits and underscores and the derived reader takes the body with the envelope's operation and rid under its keys; otherwise the operation is unknown, or its body malformed if it is known |
| Framing.StreamIsReadBack | crates/ade_session/src/framing.rs:389-412 | Any stream of framed payloads, good or bad, cut off anywhere in the next frame, is read back as one result for each, in order |
| Framing.TooLongEndsTheStream | crates/ade_session/src/framing.rs:399-404 | A length past 16 MiB ends the stream after the results of what came before |
| Framing.Stream.ReadFrame | crates/ade_session/src/framing.rs:389-412 | A frame that is all there is consumed exactly, decodable or not; anything else is a transport error |
| Framing.Stream.ReadAll | crates/ade_session/src/framing.rs:389-412 | The receive loop gives the results of the stream and then one transport error |
| Framing.Stream.WriteFrame | crates/ade_session/src/framing.rs:360-382 | Appends the framed payload, or nothing when it is longer than 16 MiB |
| Bounded.Bound | crates/ade_session/src/framing.rs:62-71 | The bytes of the longest prefix of whole characters within the limit, with the ellipsis exactly when something was dropped |
| Bounded.BoundDebug | crates/ade_session/src/framing.rs:79-106 | The sink that stops the formatter gives what cutting the whole rendering would, however it is cut into writes |
| Bounded.Sink.WriteStr | crates/ade_session/src/framing.rs:86-98 | A write that does not fit adds its longest prefix that does and fails |
| Bounded.CutAt | crates/ade_session/src/framing.rs:66-69 | Counting down to a boundary ends where the longest prefix that fits ends |
| Bounded.BoundariesEndPrefixes | crates/ade_session/src/framing.rs:66-69 | A place in the bytes is a boundary exactly when a prefix of whole characters ends there |
| Bounded.ShortenedIsBounded | crates/ade_session/src/framing.rs:52-71 | A quotation is the text if that takes at most 128 bytes, and otherwise its longest prefix that does, within four bytes of that, with an ellipsis |
| Rejection.RejectionFits | crates/ade_session/src/framing.rs:221-241 | Every rejection, whatever text the peer chose, is an envelope of at most 10,000 bytes; one is sent exactly when there is someone to answer, under the request of the frame and the code of the failure |
| Rejection.JsonTextReads | crates/ade_session/src/framing.rs:221-241 | Whatever text the peer chose, its JSON string reads back by the rules of section 7 of RFC 8259 as that text and ends where it was ended |
| Rejection.MessageSize | crates/ade_session/src/framing.rs:154-175 | Every message is bounded however the quoted operation and detail are escaped |
| Rejection.DebugReads | crates/ade_session/src/framing.rs:164-171 | Whatever text the peer chose and whichever characters are printed as they are, its Debug form reads back, by the escapes of a Rust string literal, as that text |
| Rejection.MessageReadsBack | crates/ade_session/src/framing.rs:160-175 | Every message is its fixed words, the operation as a literal that reads back as its quotation, and the quotation of the detail |
| Shell.RunArgv | crates/ade_session/src/ssh.rs:114-129 | The arguments begin with ssh, its batch mode, on Windows no connection sharing, the host's own arguments, the destination and the separator; what follows joins into one command that splits, by the shell's rules, into exactly the argument list |
| Shell.CommandSplitsBack | crates/ade_session/src/ssh.rs:109-119 | Splitting the quoted, space-joined form of any list of strings gives back that list, empty strings included |
| Shell.LexQuote | crates/ade_session/src/deploy.rs:471-473 | Wherever a quoted text stands outside quotes, the shell reads its characters literally and is left as it was |
| Shell.PathsAreWords | crates/ade_session/src/ssh.rs:202-217 | In the upload script the directory, the template and the path are each one word, equal to what was quoted and cut off on both sides |
| Shell.UploadScript | crates/ade_session/src/ssh.rs:202-217 | The script is, command by command: make the directory if there is one, make a temporary file beside the path, remove it on any exit, write it, give it mode 755 and move it into place |
| Shell.UploadArrives | crates/ade_session/src/ssh.rs:168-175 | Both levels at once: the remote shell passes the script whole, and the script reads as intended |
| Layout.PruningKeepsTabs | crates/ade_session/src/proto.rs:400-441 | The tabs after are the tabs that stay, in tree order, and the node disappears exactly when there are none |
| Layout.TerminalsAndEditorsAfter | crates/ade_session/src/proto.rs:400-441 | Terminals after are the kept terminals before, editors all survive, both in order |
| Layout.PruningKeepsLeaves | crates/ade_session/src/proto.rs:402-422 | Leaf by leaf in order: each with something left keeps its focus, its active tab or the last one, and the others go |
| Layout.PruningKeepsSplits | crates/ade_session/src/proto.rs:423-440 | Every split that stays keeps its direction and ratio, in tree order, and one goes exactly when a side of it has nothing left |
| Layout.PrunedIsSound | crates/ade_session/src/proto.rs:413-440 | Every remaining leaf is non-empty with its active tab in range, unless the document is the empty leaf |
| Layout.PruningComposes | crates/ade_session/src/proto.rs:400-441 | Pruning by p and then q is pruning by both, as a document |
| Layout.PruningNothingChangesNothing | crates/ade_session/src/proto.rs:400-441 | A sound tree none of whose sessions is rejected stays as it is |
| Layout.LayoutDoc.RetainSessions | crates/ade_session/src/proto.rs:484-491 | The root is replaced by the pruned one, and the result is true exactly when some session was rejected |
| Layout.AppendTerminals | crates/ade_session/src/proto.rs:381-393 | The sessions of the tree are appended in tree order |
| Destination.ParseUndoesPrint | crates/ade_workspaces/src/connect.rs:757-832 | Reading the printed destination of any plain connection gives its user, host and non-default port |
| Destination.BlanksAreIgnored | crates/ade_workspaces/src/connect.rs:757-832 | White space around a destination, after the scheme if it has one, changes nothing |
| Destination.PlusIsTaken | crates/ade_workspaces/src/connect.rs:757-832 | A port is read with a plus sign too |
| Destination.NotAPort | crates/ade_workspaces/src/connect.rs:757-832 | What follows a colon and does not read as a port stays in the host, after brackets too, and so does everything once there are two colons and no brackets |
| Destination.MatchesExactly | crates/ade_workspaces/src/connect.rs:728-741 | A connection matches a recorded one exactly when the hosts agree but for case and each part the record states agrees; its own always |
| Slug.SlugifySkillName | crates/agent_skills/agent_skills.rs:450-487 | The loop gives the words of the title, joined by single dashes, cut and trimmed, or nothing when that is empty |
| Slug.Push | crates/agent_skills/agent_skills.rs:454-481 | One pass with the dash flag pushes exactly the words joined by single dashes |
| Slug.SlugIsValid | crates/agent_skills/agent_skills.rs:508-527 | Any result passes the validator |
| Slug.SlugIsIdempotent | crates/agent_skills/agent_skills.rs:450-487 | Slugging a slug changes nothing |
| Slug.AmpersandIsAnd | crates/agent_skills/agent_skills.rs:456-481 | An ampersand anywhere in a title is the word "and" |
| Slug.SlugIsCutAt64 | crates/agent_skills/agent_skills.rs:483-487 | The result is the dashed words if they take at most 64 bytes, else their first 64 without a dash at the end |
| Slug.ValidExactly | crates/agent_skills/agent_skills.rs:508-527 | What the validator takes, in full |
| Slug.NoSlugExactlyWhen | crates/agent_skills/agent_skills.rs:450-487 | There is no result exactly when the title has no ASCII letter, digit or ampersand |

## Left out

- Rescan.RepaintRestores: leaves out leading wide-character spacers, control characters held in a cell, and colours without an SGR of their own, because the code itself does not claim them; hyperlinks and underline colours are not painted by the code at all, and a pending wrap at the last column is not restored by it.
- Replay.ReplayShowsExactly: a history that ends inside a sequence, or inside a character, is not covered, nor is a repaint the daemon drops because it does not fit the client's queue; of the modes it speaks only of those the daemon knows, any other stays as the client has it.
- LiveMirror.FedTheSameBytes: asks for a stream that ends between sequences and breaks no CSI off with an escape, and compares titles without their control characters, which the scanner drops; changes of size are not covered, and margins of the session's screen are those of the specified terminal, which takes a missing parameter of a DECSTBM as the first or the last row and refuses margins of fewer than two rows.
- LiveMirror.LiveMirrorShowsExactly: asks, like every theorem about a repaint, for a recorded region inside the screen; one past it is recorded as it was sent, and LiveMirror.MarginsAgreeExactly says what becomes of it.
- Rescan.RescanAgrees: says nothing of modes the scanner does not scan, which it does not record.
- Terminal.FeedOfPrint: the terminal is a specification of the functions a repaint uses; overwriting half of a wide character and every control function a repaint never writes are left as the simplest reading.
- Scanner.ChunkingIsIrrelevant: is conditional on the carried bound, because the code drops longer tails; Scanner.CutTitleIsKeptExactly shows what is lost.
- AttachRun.SentInOrderWithoutRepeats: the frames a reconnect sends on its own account are in `Handshake`, not on these wires; reading the keyboard and the size-change signal are the step that queues an input.
- AttachRun.RepliesStayOnTheirTransport: is up to the wrap of the 64-bit counter, as in the code; AttachRun.AReplyOnTheWrongTransport is a run past it.
- Handshake.Attached: what the session prints and the delays between attempts are not modelled; each attempt's outcome is a parameter.
- Handshake.BothEndsHoldTheGreatestCommon: is about this client's hello, whose capability list is empty; Handshake.HonestSelectionPassesTheCheck is about any hello.
- AtomicFile.WriteAtomic: assumes of the file system that a rename is one change and that synced data stays; the sync of the directory is a call that may fail, which also stands for a platform without it.
- StateStore.SavedIsLoaded: the JSON printer and parser are parameters assumed to undo each other.
- StateStore.StateStore.Save: making the private directory is one outcome; its mode bits are not modelled.
- Registry.Registry.CreateWorkspace: SQL statements are assignments to a finite map that the index accepts or refuses whole; columns are unbounded integers and text.
- Scope.OrderMattersExactly: is about updates with distinct revisions; of two with one revision the first wins, as in the code.
- Shutdown.EveryRunIsOrderly: what the session table answers and the idle clock are parameters of the steps; that every task is eventually scheduled is not assumed, so nothing is said of when an exit happens.
- Framing.DecodeUndoesEncode: the JSON text layer and the derived forms of a frame are parameters; that the printed envelope of the frame is parsed back is assumed, and that the derived forms read the value back is the condition; an envelope text that repeats a key, which the derived reader refuses, is not told apart; the wording of a failure is not modelled.
- Rejection.RejectionFits: which characters `Debug` prints as they are is a parameter, and the bound holds for any choice.
- Shell.PathsAreWords: the directory of a path is a parameter; expansions are recognised and not performed.
- Destination.ParseUndoesPrint: the text of an IP address is taken as printed, hexadecimal groups and at least two colons for IPv6.
- Layout.LayoutDoc.RetainSessions: the rule that keeps sessions is a function of the session, and the ratio of a split a real number.
- Alacritty's own state machine, resize reflow and the splitting of output at screen transitions are not part of this model.
- The session table, the daemon's layout arbitration, generation-2 create compensation and `handle_frame` are not part of this model.
- The history backfill of project identities, the windows and panes of the client, deployment and ssh forwards are not part of this model.
- The pid and instance-id files beside the ledger are not part of this model.
- The description check, front matter and file discovery of skills are not part of this model.
