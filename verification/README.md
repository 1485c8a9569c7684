# Mullion session manager: verified protocols

Mullion is a dashboard for agent sessions. Most of its frontend draws; underneath are a few protocols,
a stylesheet checker and some bounded arithmetic that have to be right whatever order things happen in.
This project models those parts in Dafny and proves what they are for. `dafny verify dfyconfig.toml`
checks all of it.

| file | what it models |
|---|---|
| `Text.dfy` | the string operations shared by the others |
| `CssScanner.dfy`, `DockCheck.dfy`, `DockReader.dfy`, `DockReading.dfy` | the nested-CSS scanner, the Dock availability check, the reading its regular expressions do, and what that reading accepts, said without scanning |
| `Selectors.dfy`, `SelectorTexts.dfy`, `Fragments.dfy`, `DockMeaning.dfy`, `DockSheets.dfy` | selectors as a browser reads them, selectors written out and read back, what cutting them at every comma preserves, what the check is worth in a browser, and stylesheets in full: the repository's own rules, and three passed wrongly |
| `DeviceStream.dfy`, `DeviceTouches.dfy`, `DeviceHistory.dfy`, `DeviceGestures.dfy`, `DeviceSockets.dfy`, `DevicePane.dfy` | the device stream client: its steps and touch invariants, where touches land, its figures read off the history, fingers and sockets, sockets and decoder, and the object whose callbacks are those steps |
| `ProjectDisk.dfy`, `FileEditor.dfy`, `FileSaves.dfy`, `FilePolls.dfy`, `FileRequests.dfy`, `FileEdits.dfy`, `FileRuns.dfy`, `EditorPanel.dfy`, `PathTree.dfy` | the project's files, the file panel's requests against them, each save, poll, open and tree change followed from press to answer, what becomes of unsaved edits, whole runs, the panel object, and paths as segments |
| `WorkspaceLoader.dfy` | loading the workspace list and creating the default workspace |
| `PaneSplit.dfy` | the split between the two log panes of the Dock |
| `Base64Url.dfy`, `SessionName.dfy`, `MonitorIds.dfy`, `HostPaths.dfy`, `KeyForwarding.dfy` | decoding a push key, naming a session, fresh monitor ids, per-host paths on save, key interception |

Protocols are state machines: a `State`, an `Event` for every callback, a `Step`, and theorems about `Run`
over every sequence of events the environment can produce. Callbacks that update captured variables are
methods of a class. The device pane, the file panel and the key forwarder carry the run they have been
through as a ghost `trace`: `Valid()` says that the fields are the state that run gives, and each method adds
its event and keeps `Valid()`, so a theorem about runs holds of every valid object (`PaneLeavesNoFinger`,
`PaneFollowsPointer`, `PaneRecovers`, `EditorIsSafe`, `EditorSavesAsPressed`). An instance of the loading effect keeps its single-flight invariant
(`LoadsOnceAtATime`). The network, timers, the decoder and the disk are events; what a request found is fixed when the server
handles it and reaches the client at a later event.

Where a comment in the source promises more than the code does, the model follows the code, a lemma gives
an input that breaks the promise, and another says exactly when it holds:

- `scripts/check-dock-availability.ts:229-233` says a hiding rule with no condition fails, and lines 182-188 that
  what stands in front of the Dock counts as its condition. Outside a block, `dockQualifiers` (190-198) keeps only
  the comma fragments that end in the Dock. A list with a bare `.dock` beside a qualified one passes, and so does
  `:where(tablet, phone) .dock`, of which only the last argument is read (`AcceptedRuleSafeIff`, and
  `MixedListPassesButHidesEverywhere` and `ListPassesButHidesOnTablet` on the text of stylesheets). Inside a block,
  cutting at every comma is harmless (`AcceptedIsKnown`). A Dock rule that the check does not take for one
  changes nothing (`UnseenRuleIsIgnored`); `RuleSafeIff` says which of those are safe too.
- Lines 24-25 say a reason without a hiding rule fails; one rule that needs both reasons, a phone-qualified
  selector inside a `(pointer: coarse)` block, passes (`HiddenWheneverReportedIff`, and
  `NestedPassesButShowsDock` on the text).
- `frontend/src/DevicePane.tsx:318-319` says a dead decoder is replaced before the next socket. A packet of
  a closed socket that is rejected after the reconnect kills the decoder under the open socket
  (`WriteFailedKeepsSocketInvIff`, `StaleRejectionFreezesStream`).
- `frontend/src/DevicePane.tsx:485-495` detaches the socket at the third decoder failure, so its close no longer
  releases a held finger as every other loss of a socket does (`StepKeepsHeldInvIff`,
  `ThirdFailureDetachesFinger`).
- `frontend/src/FileEditorPanel.tsx:323-325` patches whatever file is open when a save resolves (`AfterSave`,
  `SwitchDuringSaveCorruptsRecord`). Line 377 says saving recreates a deleted file; the save does not ask for
  creation, and the server (`src/services/project-files.ts:390-403`) then answers not found
  (`SavingNeverRecreates`).
- `frontend/src/FileEditorPanel.tsx:572-574` disables Delete while a file has unsaved edits. Line 483 looks at
  what was open when Delete was confirmed, so edits typed while the request is under way are lost, also those
  of another file opened meanwhile (`EditsLostIff`, `DeleteInFlightTakesEdits`, `DeleteClosesAnotherFile`).
- `frontend/src/CreateProjectModal.tsx:557-560` wants no map sent on an unedited save. One is sent when a
  path is for a host that is no longer listed (`UneditedSendsIff`, `UneditedSaveDropsLostHost`).
- `frontend/src/Dock.tsx:503-509` keeps both panes at their minimum for integer widths. The minimum is always
  an integer (`frontend/src/dock/dockHelpers.ts:543-549`), but the measured width need not be, and a fractional
  one of a half or more lets rounding take a pane below it (`IntegerMinimumFitsIff`, `FractionalWidthMissed`).
- `frontend/src/CommandPalette.tsx:100-110` fills in tokens one kind after the other, so an inserted name is
  read again. `AgentSafeIff` and `ProjectSafeIff` say exactly which names come out right in every pattern.
- `frontend/src/BrowserPane.tsx:151-153` drops a message while the socket is not open, so a key can stay down on
  the page (`DroppedSocketLeavesKeyDown`); `PairedIffSteady` says exactly when downs and ups pair. They pair by physical key,
  and what is sent is `key`, which a modifier can change in between (`TextsMatchIff`, `ShiftReleasedFirst`).

## Model

| member | source | states |
|---|---|---|
| `CssScanner.MatchBrace` | scripts/check-dock-availability.ts:97-107 | the result is the first position that brings the nesting back to zero, the nesting being positive everywhere before it, or the end of the text |
| `CssScanner.NextChunk` | scripts/check-dock-availability.ts:126-139 | one turn of the loop splits the text at its first brace into declarations, selector, block and remainder |
| `CssScanner.LeafRules` | scripts/check-dock-availability.ts:117-160 | terminates on every string, balanced or not, returns what `Scan` specifies, and every selector and block prelude it finds is free of braces and semicolons, not blank, and without white space at its ends |
| `CssScanner.ScanInvertsPrint` | scripts/check-dock-availability.ts:117-160 | round trip: scanning the text of any well-formed block tree gives exactly the flattening of the tree, at every nesting |
| `CssScanner.ScanConservesDeclarations` | scripts/check-dock-availability.ts:122-158 | the leaf bodies are the blocks' declaration runs in document order, none lost and none repeated |
| `CssScanner.LeavesCarryAncestors` | scripts/check-dock-availability.ts:86-94 | a leaf is found iff its declarations sit in the tree under exactly the preludes it carries, outermost first, the last being its own selector |
| `Text.TrimIff` | scripts/check-dock-availability.ts:136 | trimming takes off all the white space at both ends and nothing else, said with texts put together |
| `DockCheck.PredicateReasons` | scripts/check-dock-availability.ts:299-308 | collects exactly the reasons the predicate can return |
| `DockCheck.ReadTerm` | scripts/check-dock-availability.ts:262-278 | a conjunction is unknown if any feature is negated or unrecognised, and names every reason it mentions |
| `DockCheck.ReadArm` | scripts/check-dock-availability.ts:261-279 | the same for terms joined by `or` |
| `DockCheck.ReadCondition` | scripts/check-dock-availability.ts:260-280 | the same for the arms of a list |
| `DockCheck.Classify` | scripts/check-dock-availability.ts:243-287 | the verdict on a rule: unknown iff it has no condition or an unknown one, with exactly the reasons its blocks and qualifiers name |
| `DockCheck.Check` | scripts/check-dock-availability.ts:235-335 | over any number of stylesheets, passes iff no hiding rule is unknown and the reasons named by the CSS are exactly the predicate's |
| `DockCheck.ReasonIff` | frontend/src/lib/dockAvailability.ts:32-39 | the reason on each tier with each pointer: the phone tier first, a coarse pointer elsewhere, else none |
| `DockCheck.PassesIff` | scripts/check-dock-availability.ts:310-335 | passing, without sets: no rule that hides the Dock has an unknown condition, and a reason is named by such a rule iff the predicate can return it |
| `DockReading.HidesBodyIff` | scripts/check-dock-availability.ts:211-212 | a body hides iff a piece between semicolons is one of the four declarations in any letter case, white space anywhere between its parts, with or without `!important` |
| `DockReading.ReadFeatureIff` | scripts/check-dock-availability.ts:81-84 | a feature is negated iff `not` stands in it as a whole word in any case, else coarse iff it has `(pointer: coarse)`, else phone iff it has the attribute selector |
| `DockReading.ConditionInvertsText` | scripts/check-dock-availability.ts:260-280 | round trip: a condition written with commas, `or` and `and` is read back arm by arm, term by term and feature by feature |
| `DockReading.SubjectIff` | scripts/check-dock-availability.ts:171-176 | which compounds are the Dock: `.dock` with at most one pseudo-class or pseudo-element, or `:where(…)` or `:is(…)` around one that is |
| `DockReading.QualifiersInvertText` | scripts/check-dock-availability.ts:190-198 | round trip: from a list written out, what stands in front of the subject of each Dock part, in order |
| `SelectorTexts.ListReads` | scripts/check-dock-availability.ts:182-198 | round trip for the browser's reading: a selector list written with any white space, nested `:where` and `:is` lists in any case included, is read as the tree it was written from |
| `SelectorTexts.DockClassIff` | scripts/check-dock-availability.ts:171-176 | the class is there iff `.dock` occurs where no bracket is open and no name goes on behind it |
| `DockMeaning.RuleSafeIff` | scripts/check-dock-availability.ts:162-281 | any hiding rule, accepted or not, is safe in every browser iff one of its blocks, or every part of its list whose subject is the Dock, cannot hold without a known pattern |
| `DockMeaning.UnmixedRuleIsSafe` | scripts/check-dock-availability.ts:243-281 | an accepted rule is safe in every browser if it is in a block, if every comma fragment in front of its Dock parts reads as known, or if the check cuts its list as a browser does and it is not mixed |
| `DockMeaning.AcceptedRuleSafeIff` | scripts/check-dock-availability.ts:190-281 | an accepted rule is safe in every browser iff it is in a block or each Dock part, split as a browser does, has a known pattern in front, a `:where` or `:is` list counting only when every argument has one |
| `DockMeaning.UnseenRuleIsIgnored` | scripts/check-dock-availability.ts:245-246 | a rule the check does not take for a Dock rule changes no verdict |
| `Fragments.AcceptedIsKnown` | scripts/check-dock-availability.ts:260-280 | for every text: when each comma fragment reads as known, whichever argument of each list holds, some text with the pattern has to hold with it |
| `Fragments.AcceptedQualifierIsKnown` | scripts/check-dock-availability.ts:190-198 | the same for the whole text in front of a part's subject |
| `Fragments.LacksTogether` | scripts/check-dock-availability.ts:260-280 | two texts with a fragment that does not tell still have one when put together |
| `DockMeaning.CheckSound` | scripts/check-dock-availability.ts:310-335 | soundness end to end: from the texts of stylesheets that pass to what the predicate reports wherever a rule that the check sees hides the Dock, given that the rule is in a block or its Dock parts are known |
| `DockSheets.MixedListPassesButHidesEverywhere` | scripts/check-dock-availability.ts:171-250 | the text of a stylesheet that passes under the script's own reading and hides the Dock in every browser |
| `DockSheets.BareDockIsUnsafe` | scripts/check-dock-availability.ts:190-250 | a hiding rule outside every block with a bare `.dock` part is not safe, whatever else is in its list |
| `DockSheets.ListPassesButHidesOnTablet` | scripts/check-dock-availability.ts:190-198 | the text of a stylesheet that passes, is not mixed, and hides the Dock on a tablet with a fine pointer, where it is reported available |
| `DockMeaning.HiddenWheneverReportedIff` | scripts/check-dock-availability.ts:325-335 | the Dock is hidden wherever it is reported unavailable iff each reason has a rule that applies when nothing holds but the texts with its pattern |
| `DockSheets.NestedPassesButShowsDock` | scripts/check-dock-availability.ts:171-335 | the text of a stylesheet that passes under the script's own reading and shows the Dock on a coarse desktop, where it is reported unavailable |
| `DockSheets.RealRulesPassAndAreRight` | frontend/src/styles/tablet.css:118-120 | the text of `.dock { display: none !important; }` under the phone tier and under coarse pointers passes, hides the Dock nowhere it is reported available and everywhere it is reported unavailable |
| `DockReader.OnePiece` | scripts/check-dock-availability.ts:260-280 | a condition with no comma and no `or` or `and` between white space is read as one feature |
| `DeviceStream.NoStuckFinger` | frontend/src/DevicePane.tsx:358-386 | in every run: a finger left down is still held or has its touchUp waiting, a waiting touchUp never coexists with an open current socket, and two touchDowns have a touchUp between them |
| `DeviceStream.OneFramePerGesture` | frontend/src/DevicePane.tsx:345-386 | in every run: each touch has the frame size of its gesture's pointerdown and lies inside it if that size was known, and gestures do not interleave |
| `DeviceTouches.CanvasPointLands` | frontend/src/DevicePane.tsx:536-546 | on each axis the point times the extent of the canvas on the page is the pointer's offset times the frame size wherever that lies inside the frame, and otherwise the bound |
| `DeviceTouches.TouchesFollowPointer` | frontend/src/DevicePane.tsx:345-386 | in every run: an accepted pointerdown, move or end goes out, or waits if a touchUp, as a touch at the image of its own position in the frame then in force; a held pointer is released exactly by what loses it, where it last was; nothing else is sent |
| `DeviceStream.StepKeepsHandInv` | frontend/src/DevicePane.tsx:419-572 | every callback keeps the touch invariant, whatever happens to the sockets |
| `DeviceStream.SendKeepsHandInv` | frontend/src/DevicePane.tsx:363-378 | sending or deferring a touch keeps the invariant when a touchDown follows a raised finger |
| `DeviceGestures.FingerLeavesWithSocket` | frontend/src/DevicePane.tsx:393-519 | in every run without a third decoder failure under a held finger, a finger that went down through a socket is held only while that socket is current and not closed |
| `DeviceGestures.StepKeepsHeldInvIff` | frontend/src/DevicePane.tsx:393-572 | every callback keeps finger and socket together, except exactly the third decoder failure of a held finger |
| `DeviceGestures.ThirdFailureDetachesFinger` | frontend/src/DevicePane.tsx:478-501 | a legal run from mounting that ends with a held pointer, a finger down on the device, no socket and no touchUp waiting |
| `DeviceSockets.BoundedRecovery` | frontend/src/DevicePane.tsx:393-527 | in every settled run: other sockets are closed, a dead decoder has no live socket, at most 3 failures, at most 7 connects and 23.5 s of delay without an open, and a mounted pane that has stopped trying shows `failed` |
| `DeviceSockets.StepKeepsSocketInv` | frontend/src/DevicePane.tsx:393-527 | every callback keeps the socket and decoder invariant, given that a rejection is safe to act on |
| `DeviceSockets.WriteFailedKeepsSocketInvIff` | frontend/src/DevicePane.tsx:478-501 | acting on a rejected write keeps the invariant iff the current socket is the write's own or already down, and a third failure finds no reconnect scheduled |
| `DeviceSockets.StaleRejectionFreezesStream` | frontend/src/DevicePane.tsx:478-501 | a legal run that ends with an open current socket on a dead decoder |
| `DeviceSockets.StoppedUntilRetry` | frontend/src/DevicePane.tsx:485-512 | after the third failure or an exhausted backoff, no sequence of events without Retry connects again or changes the status |
| `DeviceSockets.FailureBudget` | frontend/src/DevicePane.tsx:315-330 | over any stretch of a settled run without forgiveness or retry, the rejections acted on never exceed 3 |
| `DeviceSockets.PardonIff` | frontend/src/DevicePane.tsx:470-477 | failures are forgiven exactly by Retry or by the 120th clean packet in a row from the current socket and decoder |
| `DeviceHistory.HistoryDecides` | frontend/src/DevicePane.tsx:505-519 | in every run the delays before the reconnects (0.5, 1, 2, 4, 8, 8 s), the clean streak, the failures, the picture, the status and the sockets made are those the history of events gives |
| `DeviceHistory.SocketsFollow` | frontend/src/DevicePane.tsx:393-501 | what each event does to every socket and packet: which are closed, when the next one is made, which packets reach the decoder, and when the decoder is replaced |
| `DevicePane.Pane.constructor` | frontend/src/DevicePane.tsx:305-529 | mounting creates the decoder, makes the first connect, and starts an empty trace |
| `DevicePane.Pane.SendControl` | frontend/src/DevicePane.tsx:358-362 | sends exactly when the current socket is open |
| `DevicePane.Pane.SendTouch` | frontend/src/DevicePane.tsx:363-378 | hands the touch over, or keeps a touchUp for later |
| `DevicePane.Pane.ReleaseActivePointer` | frontend/src/DevicePane.tsx:379-386 | a held pointer is released with a touchUp at the given point |
| `DevicePane.Pane.Reconnect` | frontend/src/DevicePane.tsx:393-417 | drops a previous socket, replaces a dead decoder and opens the next socket |
| `DevicePane.Pane.OnSocketOpen` | frontend/src/DevicePane.tsx:419-428 | the handler's state is that of the run extended by the open |
| `DevicePane.Pane.OnSocketClose` | frontend/src/DevicePane.tsx:505-519 | the handler's state is that of the run extended by the close |
| `DevicePane.Pane.OnServerFailure` | frontend/src/DevicePane.tsx:435-463 | the same for an `exited` or `error` message |
| `DevicePane.Pane.OnVideo` | frontend/src/DevicePane.tsx:466-469 | the same for a video packet |
| `DevicePane.Pane.OnWriteResolved` | frontend/src/DevicePane.tsx:470-477 | the same for a decoded packet |
| `DevicePane.Pane.OnWriteRejected` | frontend/src/DevicePane.tsx:478-501 | the same for a rejected packet |
| `DevicePane.Pane.OnTimer` | frontend/src/DevicePane.tsx:512-519 | the same for the reconnect timer |
| `DevicePane.Pane.RetryNow` | frontend/src/DevicePane.tsx:522-527 | the same for Retry |
| `DevicePane.Pane.OnDown` | frontend/src/DevicePane.tsx:548-556 | the same for a pointerdown; what that sends is `PaneFollowsPointer` |
| `DevicePane.Pane.OnMove` | frontend/src/DevicePane.tsx:557-561 | the same for a pointermove; what that sends is `PaneFollowsPointer` |
| `DevicePane.Pane.OnEnd` | frontend/src/DevicePane.tsx:562-569 | the same for the end of a pointer; what that sends is `PaneFollowsPointer` |
| `DevicePane.Pane.OnBlur` | frontend/src/DevicePane.tsx:570-572 | the same for the window losing focus |
| `DevicePane.Pane.OnVideoSize` | frontend/src/DevicePane.tsx:345-349 | the same for a change of the video size |
| `DevicePane.Pane.Teardown` | frontend/src/DevicePane.tsx:673-693 | the same for unmounting |
| `DevicePane.PaneLeavesNoFinger` | frontend/src/DevicePane.tsx:305-693 | after any callbacks in any order, the touches an object has sent leave no finger down that is neither held nor about to be raised, and each fits its gesture |
| `DevicePane.PaneFollowsPointer` | frontend/src/DevicePane.tsx:536-572 | on any object, what the last callback sent: the image of the event's own position when the pointer is accepted, else a release where the pointer last was, or nothing |
| `DevicePane.PaneRecovers` | frontend/src/DevicePane.tsx:305-693 | after any callbacks in a settled order, an object's failures, other sockets, dead decoder and status are within the recovery bounds |
| `FileEditor.NoLostUpdate` | frontend/src/FileEditorPanel.tsx:309-336 | in every interleaving, moves of the file included, a save that is not an overwrite replaces exactly the version, mtime and content, that the panel held when Save was pressed |
| `FileSaves.SavedAsPressed` | frontend/src/FileEditorPanel.tsx:309-322 | in every run, whatever follows Save pressed at a step: the request carries the path, draft, mtime and content the panel had then, and a plain Save replaces exactly that version; an overwriting one sends no mtime |
| `FileSaves.SaveServed` | src/services/project-files.ts:379-424 | in every run, a plain Save pressed at a step goes through iff the file is there with the mtime the panel had then, and is refused iff it is there with another; an overwriting one goes through iff the file is there |
| `FilePolls.PollAnswered` | frontend/src/FileEditorPanel.tsx:363-383 | in every run, the answer to a poll counts iff the open file has been the same since; then another mtime or size raises the conflict over edits and starts a read without them |
| `FilePolls.StatServed` | frontend/src/FileEditorPanel.tsx:363-368 | what the answer to a poll holds: mtime and size of the polled file's version of that moment, none when it is gone |
| `FilePolls.SaveAnswered` | frontend/src/FileEditorPanel.tsx:323-331 | a refused save raises the conflict and keeps file and draft, a failed one changes nothing, a successful one updates the record and keeps the draft |
| `FileRequests.OpenAnswered` | frontend/src/FileEditorPanel.tsx:187-214 | in every run, the answer to an open counts iff no other open has started since, and then shows the file asked for or says why not |
| `FileRequests.OpenServed` | frontend/src/FileEditorPanel.tsx:181-187 | what an open reads: the version its file has when the server gets to it |
| `FileRequests.ChangeAnswered` | frontend/src/FileEditorPanel.tsx:410-527 | in every run, the answer to a create opens the file, to a delete closes iff the entry was shown when Delete was pressed, to a move opens where it went the file shown below it then |
| `FileRequests.ChangeServed` | src/services/project-files.ts:426-545 | nothing is created or moved onto what is there, nothing moves into itself, no folder with files is deleted; otherwise the change is done as asked |
| `FileRequests.EditsAndDiscard` | frontend/src/FileEditorPanel.tsx:340-345 | typing changes the draft alone; Discard brings back the loaded content and takes the conflict down, and nothing else |
| `ProjectDisk.MoveKeepsFiles` | src/services/project-files.ts:498-545 | a rename or move takes every file below along with its version, and adds, drops and replaces none |
| `FileEditor.DiskChangesAreRecorded` | src/services/project-files.ts:379-545 | the panel changes the files only by a save that reached the server, recorded with the version it replaced, or by a create, delete or move, which do exactly what was asked and replace nothing |
| `FileEditor.SavingNeverRecreates` | src/services/project-files.ts:390-403 | a file gone from the disk stays gone through any run of saves; it takes another writer, a create, or a move onto it |
| `FileEditor.WriteNowKeepsInv` | src/services/project-files.ts:409-420 | a write whose expected mtime is current replaces the version held; a stale one is refused |
| `FileEditor.AfterSave` | frontend/src/FileEditorPanel.tsx:323-327 | after a success the panel is dirty iff the live draft differs from the saved text, and its record is a true version iff the open file is the saved one or the saved version was moved there |
| `FileRuns.SwitchDuringSaveCorruptsRecord` | frontend/src/FileEditorPanel.tsx:323-325 | a legal run in which the record of one file receives the text and mtime saved for another |
| `FileRuns.OnlyLatestOpenCounts` | frontend/src/FileEditorPanel.tsx:181-217 | take every answer to a superseded open out of any run: what is left is a legal run that ends with the same panel, disk and requests |
| `FileEdits.EditsStay` | frontend/src/FileEditorPanel.tsx:189-195 | over every run of reloads, polls, other writers and changes elsewhere in the tree, with no save, unsaved edits and their record stay as they were |
| `FileEdits.ConflictRaisedIff` | frontend/src/FileEditorPanel.tsx:189-195 | and at the end of such a run the conflict flag is up iff it was before or some read or poll on the way found the file changed |
| `FileEdits.EditsLostIff` | frontend/src/FileEditorPanel.tsx:181-491 | unsaved edits are replaced exactly by Discard, by a foreground open, by a failed read, and by the answer to a delete confirmed on the file then open |
| `FileRuns.DeleteInFlightTakesEdits` | frontend/src/FileEditorPanel.tsx:474-491 | a legal run that loses the edits typed while the delete of the open file is under way |
| `FileRuns.DeleteClosesAnotherFile` | frontend/src/FileEditorPanel.tsx:474-491 | a legal run in which the answer to a delete closes another file, still on the disk, and takes its edits |
| `FileEditor.ReloadTargetsOpenFile` | frontend/src/FileEditorPanel.tsx:359-394 | in every run, a poll answer that starts a reload is about the file then open, and finds it without edits |
| `FileEdits.TypedTextSurvives` | frontend/src/FileEditorPanel.tsx:351-394 | over every run of polls, reloads, saves, other writers and changes elsewhere in the tree, the draft is still the draft or has been the file's content on disk |
| `EditorPanel.Editor.OpenLoaded` | frontend/src/FileEditorPanel.tsx:187-200 | the panel is that of the run extended by a read that succeeded |
| `EditorPanel.Editor.OpenRejected` | frontend/src/FileEditorPanel.tsx:201-214 | the same for a read that failed |
| `EditorPanel.Editor.BeginOpen` | frontend/src/FileEditorPanel.tsx:181-187 | each open takes the next sequence number and is under way under it |
| `EditorPanel.Editor.BeginSave` | frontend/src/FileEditorPanel.tsx:309-322 | the request has the panel's path, draft and content, the mtime iff it is not an overwrite, and is the one the run then has under way |
| `EditorPanel.Editor.SaveSucceeded` | frontend/src/FileEditorPanel.tsx:323-326 | the panel is that of the run extended by a save that succeeded |
| `EditorPanel.Editor.SaveFailed` | frontend/src/FileEditorPanel.tsx:328-331 | the same for a save that failed, refused or not |
| `EditorPanel.Editor.StatReturned` | frontend/src/FileEditorPanel.tsx:363-383 | the same for a poll answer, which starts a read of the polled file exactly when it says so |
| `EditorPanel.Editor.DiscardEdits` | frontend/src/FileEditorPanel.tsx:340-345 | the same for Discard |
| `EditorPanel.Editor.PressDelete` | frontend/src/FileEditorPanel.tsx:474-477 | the request under way records whether the entry is the open file |
| `EditorPanel.Editor.PressMove` | frontend/src/FileEditorPanel.tsx:493-517 | the request under way records the open file if it is below the entry |
| `EditorPanel.Editor.DeleteAnswered` | frontend/src/FileEditorPanel.tsx:477-491 | the panel is that of the run extended by the answer to a delete |
| `EditorPanel.Editor.CreateAnswered` | frontend/src/FileEditorPanel.tsx:410-420 | the same for a create, which then opens the new file |
| `EditorPanel.Editor.MoveAnswered` | frontend/src/FileEditorPanel.tsx:498-527 | the same for a rename or move, which then opens the file where it went |
| `EditorPanel.EditorIsSafe` | frontend/src/FileEditorPanel.tsx:309-394 | after any calls in any order, what a panel object holds is the content under its mtime, and none of its guarded saves replaced anything newer |
| `EditorPanel.EditorSavesAsPressed` | frontend/src/FileEditorPanel.tsx:309-326 | after any calls, what a plain Save pressed at any step replaced is the version the panel had at that step |
| `PathTree.UnderIsSegmentPrefix` | frontend/src/FileEditorPanel.tsx:426-427 | on normalized paths the string test is exactly the segment-prefix relation, the root apart |
| `PathTree.ParentOfJoin` | frontend/src/FileEditorPanel.tsx:65-72 | `parentDir` undoes `joinPath` |
| `PathTree.JoinPathAppends` | frontend/src/FileEditorPanel.tsx:65-67 | `joinPath` appends one segment |
| `PathTree.Ancestors` | frontend/src/FileEditorPanel.tsx:221-225 | computes the folders `revealFile` loads |
| `PathTree.AncestorsAreFolders` | frontend/src/FileEditorPanel.tsx:221-230 | those are precisely the folders above the file, parents first |
| `PathTree.OutsideDropsSubtree` | frontend/src/FileEditorPanel.tsx:426-430 | forgetting an entry drops exactly the paths of its subtree |
| `PathTree.Tree.ForgetSubtree` | frontend/src/FileEditorPanel.tsx:426-430 | a listing or expanded folder is kept iff its segments do not start with the entry's, and kept listings are unchanged |
| `PathTree.Tree.Reveal` | frontend/src/FileEditorPanel.tsx:221-233 | the folders above the file get the listings the server answers with, become expanded, and the file's folder is selected; nothing else changes |
| `PathTree.MovedPathIsSegmentImage` | frontend/src/FileEditorPanel.tsx:466-526 | the path reopened after a rename or move is the segment-wise image of the old one |
| `PathTree.MoveBackRestores` | frontend/src/FileEditorPanel.tsx:493-526 | moving there and back reopens the original path |
| `WorkspaceLoader.SingleFlight` | frontend/src/App.tsx:391-438 | in every run one instance is live, exactly one of in-flight, retry-timer, armed and loaded holds of it, a round makes at most 5 requests and waits at most 7.5 s, and the failure banner follows |
| `WorkspaceLoader.DefaultCreatedOnce` | frontend/src/App.tsx:448-472 | the default workspace is created only after a load succeeded and at most once between two sightings of a non-empty list |
| `WorkspaceLoader.CreatesIff` | frontend/src/App.tsx:448-472 | a run of the bootstrap effect creates the default workspace iff a load has succeeded, the list is empty, and it was seen non-empty since the last creation, if any |
| `WorkspaceLoader.LoaderFollows` | frontend/src/App.tsx:391-438 | in every run, what each event makes of every instance: its next attempt and delay, giving up, waking up, being replaced by Retry |
| `WorkspaceLoader.BannerFollows` | frontend/src/App.tsx:405-429 | the banner is up from a live instance's giving up to the next success of a live one |
| `WorkspaceLoader.StepKeepsInv` | frontend/src/App.tsx:391-438 | every event keeps the single-flight invariant |
| `WorkspaceLoader.LoadEffect.OnRejected` | frontend/src/App.tsx:415-429 | a rejection schedules the next attempt or gives up and arms |
| `WorkspaceLoader.LoadEffect.OnResolved` | frontend/src/App.tsx:410-414 | a success counts only for a live instance |
| `WorkspaceLoader.LoadEffect.Rearm` | frontend/src/App.tsx:395-404 | waking up starts a fresh round only when armed and visible |
| `WorkspaceLoader.LoadEffect.Dispose` | frontend/src/App.tsx:433-437 | cleanup cancels the timer and disarms |
| `WorkspaceLoader.LoadsOnceAtATime` | frontend/src/App.tsx:391-438 | an instance is at any moment of its life in exactly one phase, within 5 requests and 7.5 s of waiting |
| `PaneSplit.BothPanesFit` | frontend/src/Dock.tsx:450-509 | with integer widths and any ratio in (0, 1), both panes get the minimum width whenever the pinned pane is shown |
| `PaneSplit.ShownIff` | frontend/src/Dock.tsx:404-455 | the pinned pane is shown iff something is pinned and both minimums fit beside the rail and the two dividers |
| `PaneSplit.AlwaysFitsIff` | frontend/src/Dock.tsx:495-509 | for any widths, both panes always fit iff rounding does not push the two extreme positions outwards |
| `PaneSplit.IntegerMinimumFitsIff` | frontend/src/Dock.tsx:495-509 | with an integer minimum, both panes always fit iff the fraction of the pane area is below one half |
| `PaneSplit.FractionalWidthMissed` | frontend/src/Dock.tsx:417-509 | a measured width at which a pane comes out below its minimum |
| `PaneSplit.DragRendersWhereDropped` | frontend/src/Dock.tsx:507-529 | a drag to any allowed position, whole pixels or not, renders at the nearest pixel, and its ratio is in (0, 1) |
| `PaneSplit.ReadRatio` | frontend/src/Dock.tsx:81-88 | the ratio read is always in (0, 1): the stored one if it is, and one half if not or when nothing is stored |
| `PaneSplit.Splitter.DragMove` | frontend/src/Dock.tsx:517-520 | the pane renders at the dragged width, held between its own minimum and the other pane's |
| `PaneSplit.Splitter.DragEnd` | frontend/src/Dock.tsx:521-527 | a real drag is stored for the active workspace and reads back as the same ratio |
| `PaneSplit.DropSurvives` | frontend/src/Dock.tsx:246-260 | dragging, resizing, leaving for another workspace and coming back shows the divider where it was dropped |
| `Base64Url.UrlBase64ToUint8Array` | frontend/public/push-sw.js:177-184 | the filled array holds what decoding the padded, mapped text gives, and it fails exactly when that does |
| `Base64Url.DecodeInvertsEncode` | frontend/public/push-sw.js:177-184 | for every byte sequence, decoding its unpadded base64url text (sections 4 and 5 of RFC 4648) gives back the bytes |
| `Base64Url.DecodesIff` | frontend/public/push-sw.js:177-180 | text in the alphabet with white space anywhere decodes iff its number of symbols is not 1 modulo 4 and its white space leaves the padding right, and then as if there were none |
| `Base64Url.TestVectors` | frontend/public/push-sw.js:177-184 | the longest test vector of section 10 of RFC 4648, and the two symbols of its section 5 |
| `SessionName.ThreePassesAreOne` | frontend/src/CommandPalette.tsx:100-110 | three passes equal one simultaneous substitution for every pattern of tokens and brace-free literals and every pair of safe names; the result is the substituted text without the white space at its ends, and absent iff that text is blank |
| `SessionName.AgentSafeIff` | frontend/src/CommandPalette.tsx:104-107 | an agent name comes out right in every pattern iff it has no `$$`, `$&`, `` $` `` or `$'`, contains neither `{project}` nor `{n}`, and ends in no proper prefix of either |
| `SessionName.ProjectSafeIff` | frontend/src/CommandPalette.tsx:104-107 | the same for a project name, with `{n}` alone |
| `SessionName.ReplaceOnce` | frontend/src/CommandPalette.tsx:104-107 | what a token becomes: the text around it is kept, and `$$`, `$&`, `` $` `` and `$'` in the value stand for a dollar, the token, and what is before and after it |
| `MonitorIds.FreshId` | frontend/src/DockConfigPanel.tsx:163-164 | the loop stops after at most one more candidate than there are controls, at the first free id |
| `MonitorIds.TakenAtMost` | frontend/src/DockConfigPanel.tsx:163-164 | pigeonhole: the candidates are distinct, so no more of them can be taken than there are controls |
| `MonitorIds.ConfigPanel.AddSuggestion` | frontend/src/DockConfigPanel.tsx:159-174 | appends one control, whose id is the name if that is free and otherwise the name with the first free number from 2 up, leaves the others as they were, and keeps distinct ids distinct |
| `HostPaths.NormalizeHostPaths` | frontend/src/CreateProjectModal.tsx:192-199 | keeps exactly the non-blank entries, each without the white space at its ends and otherwise as it was |
| `HostPaths.SameIsEqual` | frontend/src/CreateProjectModal.tsx:201-204 | equal key counts and a one-way comparison are map equality |
| `HostPaths.PathsToSend` | frontend/src/CreateProjectModal.tsx:508-598 | a map is sent iff the paths changed or a shown host is flagged, and it is the user's paths merged with the re-read project's |
| `HostPaths.SentPerHost` | frontend/src/CreateProjectModal.tsx:573-598 | per host: the user's non-blank path without white space at its ends, else the one gained meanwhile, else nothing; never an unknown host |
| `HostPaths.ChangedIff` | frontend/src/CreateProjectModal.tsx:545-562 | a map is sent iff a project with hosts is edited and a shown host is flagged or some host, shown or not, would get another path than it had |
| `HostPaths.UneditedSendsIff` | frontend/src/CreateProjectModal.tsx:554-562 | an unedited save sends the map iff a shown host is flagged or a path is for a host no longer shown |
| `HostPaths.UneditedSaveDropsLostHost` | frontend/src/CreateProjectModal.tsx:554-562 | an unedited save that drops the path of a vanished host |
| `KeyForwarding.Forwarder.OnKeyDown` | frontend/src/BrowserPane.tsx:301-364 | records exactly the intercepted keys, and sends copy, cut, a press, a down or nothing as the key's fields say, nothing on a socket that is not open |
| `KeyForwarding.Forwarder.OnKeyUp` | frontend/src/BrowserPane.tsx:365-368 | an intercepted key's keyup is swallowed once |
| `KeyForwarding.KeyDownSends` | frontend/src/BrowserPane.tsx:301-364 | from the key's fields alone, after any trace, exactly when a keydown sends a copy, a cut, a mapped press, itself, or nothing |
| `KeyForwarding.KeyUpForwardedIff` | frontend/src/BrowserPane.tsx:284-295 | in every trace a keyup is forwarded iff the socket is open and no keydown of that physical key since its last keyup was intercepted |
| `KeyForwarding.PairedIffSteady` | frontend/src/BrowserPane.tsx:151-368 | when a physical key alternates, each keyup is sent exactly when its keydown was iff the socket is open at both ends or at neither of every press not intercepted |
| `KeyForwarding.ForwardedKeysPair` | frontend/src/BrowserPane.tsx:284-368 | then the page has seen one more down than ups exactly while it holds the key, whatever the modifiers do |
| `KeyForwarding.DroppedSocketLeavesKeyDown` | frontend/src/BrowserPane.tsx:151-153 | a trace after which the page holds a key that is up |
| `KeyForwarding.TextsMatchIff` | frontend/src/BrowserPane.tsx:356-368 | when a physical key alternates, each keyup sent after its keydown carries that keydown's text iff `key` is the same at both events of every press sent |
| `KeyForwarding.ShiftReleasedFirst` | frontend/src/BrowserPane.tsx:356-368 | a trace in which the page gets down "Z" and up "z" |
| `KeyForwarding.ChordSwallowsKeyUp` | frontend/src/BrowserPane.tsx:284-364 | a trace in which a mapped Cmd chord goes out as one press and its keyup, with another `key`, is swallowed |
| `KeyForwarding.KeyWithoutCode` | frontend/src/BrowserPane.tsx:284-295 | a trace without physical codes, in which the keyup of another key is not held back |

## Left out

- Everything drawn: JSX, styling, focus, dockview calls and the scheduling of renders. State mirrored into refs is taken as current.
- Reading files, printing and exiting in the check script, and comment stripping: the stylesheet texts are those without comments. `Check` is for every `Reader` of selectors, bodies and conditions; what it is worth in a browser is stated for `ScriptReader`, the script's own. An at-rule nested inside a `.dock` block is a leaf whose selector is the at-rule, so it is not seen as a Dock rule, and no claim is made about it.
- What a text other than a `:where` or `:is` list means: `Faithful` assumes that a compound or media feature with a known pattern and without the word `not` holds only where the pattern's reason does, whatever stands around the pattern (`:has(…)`, `@scope … to …`), and assumes nothing of other texts. A combinator such as `>` is a compound of its own, and `&` is not expanded.
- SelectorTexts.ListReads: the plain texts between lists have no colon, comma, parenthesis or white space of their own, and every bracket closed.
- DockReading.QualifiersInvertText: a list with a single space between compounds and none around the commas; `SubjectIff` covers white space inside `:where` and `:is`.
- Parentheses that group features of a media query, and quotes and escapes in selectors: a query means the list of its features, and brackets are counted wherever they stand.
- DockMeaning.AcceptedRuleSafeIff: takes it that no `(pointer: coarse)` is written into a selector, which no CSS grammar allows.
- Ways to take the Dock away other than the four declarations the check looks for, and rules whose subject does not name `.dock`.
- Braces inside CSS strings: the scanner counts them, and the round trip is for trees whose text has none.
- The wording comparison at the end of the check script: one lookup per reason.
- Keyboard, wheel and clipboard forwarding, screenshots and the toolbar of the device pane: each sends one message and keeps no state.
- Decoder internals: a write settles as an event; that `Settled` runs are the ones the browser produces is an assumption, stated as `SafeToFail`.
- DeviceStream.OneFramePerGesture: says nothing about a gesture that starts before the first video size is known, because its touches use the canvas size, which may change under it.
- FileEditor.NoLostUpdate: every version on the disk has its own mtime; two versions that share one are not told apart, as in the server.
- FileEdits.TypedTextSurvives: covers runs without a foreground open, Discard, failed read, or tree change of the open file; `EditsLostIff` says which steps replace edits.
- Folders as entries of the disk, and making them: that one is in the way, or empty, is the `fails` flag of the request. Closing other panels on a path that has gone, and their drafts, is not modelled.
- The fallback of a move for file systems without hard links, whose check and rename are two steps: a move is one step.
- The search box, uploads, and the saving flag and error texts of the file panel.
- PaneSplit.DragRendersWhereDropped: ratios are exact reals, so floating-point rounding of the stored quotient is not modelled.
- The validation messages of the project dialog (relative paths, too many hosts, empty lists) and every field other than the per-host paths.
- The Cmd chord table used by key forwarding: each event carries the press it maps to, if any.
- The reconnect logic of the browser pane, whose close handler does not ignore a stale socket.
