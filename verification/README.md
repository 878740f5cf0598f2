# whykey: models and proofs

whykey explains what happens to a key press. This project models the parts of it that keep state or
transform data, and proves what they promise. `dafny verify dfyconfig.toml` checks everything.

## What is modelled

**The capture protocol.** Sessions hook the keyboard of a running Hyprland by evaluating Lua scripts
in it. The scripts share tables: an owner, the submap it found, a lease timer with its closure, a
listener, a catchall, and one entry per pass-through token. `HookWorld` gives every script as one atomic
step on that state, in which every call the script makes may fail; `HookScripts` runs the same scripts
statement by statement on mutable objects and proves them equal to the steps. `HookInvariant`,
`HookSafety` and `HookLease` prove what holds after every interleaving of any number of sessions,
timers, submap changes, clock ticks and configuration reloads. A session that dies simply acts no more.
`HookEffects` says for each script when it succeeds and what it then leaves.

**The session object.** `SessionSpec` says what arming, closing, dropping and renewing do, under a plan
that fixes what fails and what others do between any two scripts and queries; a script may be lost, run
unheard, or run and be heard. `CaptureSession` is the object with its loops, proved equal to it.
`SessionLife` and `SessionRestore` are about whole call sequences and about what was restored,
`SessionClose` about the attempts a close makes.

**The event socket.** `SocketLine` parses its lines. `FeedSpec` and `SocketFeed` are the line buffer with
its consumers; `FeedTrack` compares the byte accounting for a detached virtual keyboard with positions
in the whole stream. `WireFormat`, `Reading` and `VirtualKeyboards` say in terms of lines, keycodes and
device lists what is parsed, which event is returned and when a keycode is uncertain. `FeedWait` is the wait for a chord to be let go, and `Chord` compares it, and every
other run of the consumers, with what is physically held.

**Record and replay.** `Canonical` is the identity of a question, `Codecs` the encoding of answers, and
`Replay` the grouping of a trace, the loading of a recording and the answering of a run. A program is
any function from the answers so far to its next move, so the theorems are about every program.
`ReplayFiles` is about files that list a question more than once, `RecordingFormat` about what stands
in a recording.

**Key combinations.** `KeyNames`, `KeyCombos` and `KeySequences` are names, parser and printers.
`KeyTables` and `KeyAliases` prove what the names mean, `KeyErrors` what is rejected and why.
`EditDistance` is the distance behind suggestions.

**Loops over text and bytes.** `Redaction` (secrets in snapshots; `SecretPlaces` tells it in characters),
`SwayFrames` (Sway's IPC; `SwayWire` tells it in bytes), `ReadLimited` (the output of child processes),
`Conflicts` (bindings competing for a key; `ConflictReport` tells it by the bindings).
`Wrappers`, `Bytes`, `Text`, `Decimal` and `StringOrder` serve all of them.

## What the proofs assume

- The methods `set_enabled`, `remove` and `set_timeout` of Lua handles succeed; everything else a script
  calls may fail. A reload clears the Lua globals and with them timers and listeners. Tokens of live
  sessions differ. The lease theorems also assume that timers fire when due; the invariant does not.
- Text is a sequence of Unicode characters, and a byte offset is the number of characters before it.
  Socket text that is not UTF-8 is what it decodes to.
- A program that is replayed reads answers by field name; `Codecs.CommandFromIsByName` and
  `Codecs.ListingFromIsByName` show that the decoders do, and `Replay.DecodingReadsByName` that a
  program built on them does. Grouping identifies equal questions and answers by the canonical text;
  `Canonical.SameQuestion` shows that this is equality up to field order, which is also what the
  sorted dump in `lab/run.py` compares.
- Modifiers of `KeyCombos` are an 8-bit mask, since no modifier bit above 128 exists.

## What the code does that one would not expect

- An install that gets no timer and cannot roll back, and an owner's own cleanup that cannot restore,
  leave an owner without a lease. If that session dies nobody can free the capture
  (`HookSafety.LeaseRunsUnlessDisarmed`, `HookLease.FailedCleanupStrands`,
  `HookLease.FirstCleanupCanStrand`, `HookLease.TimerlessInstallStrandsIff`,
  `HookLease.DisarmedOwnerIsStranded`).
- The comment on renewal says that it fails once the lease has run out. It succeeds when the expiry
  could not restore the submap, for a hook that has no listener any more
  (`HookSafety.RenewalAfterExpiry`, `HookSafety.ExpiredLeaseCanBeRenewed`).
- The timeout path, unlike the cleanup script, returns to the private submap if that was recorded
  (`HookSafety.LeaseMayLeavePrivateSubmap`, `HookSafety.LeaseCanLeavePrivateSubmap`).
- A removal that took effect but was not heard, or whose check failed, leaves the session in
  `RestorePending` for good (`SessionRestore.TakenRemovalIsFinal`).
- Lines dropped while arming are not counted as consumed, so too much seems to be owed to a detached
  keyboard (`FeedTrack.ArmKeepsCountIff`, `FeedTrack.ArmCanMiscount`).
- A chord whose last key is AltGr or Hyper is never confirmed as released
  (`Chord.NothingDownIsUpIff`, `Chord.AltGrReleaseIsNotConfirmed`).
- The recording's documentation calls answers exact. A timeout of 2^64 nanoseconds or more is truncated,
  and the status of a stopped child, which a plain wait does not report, would read as a success
  (`Codecs.StatusRoundTrip`, `Codecs.ErrorRoundTrip`, `Codecs.WhatIsLost`).
- A secret's value is documented to end at white space; in the code only blank and tab end it, not a
  line break (`Redaction.EndIsAsDocumentedIff`, `Redaction.LineBreakIsSwallowed`).
- A session that learns from the JSON query a submap name with white space around it can never verify
  that it is back there, so it cannot close under suppression (`SessionRestore.ConnectedNameIsVerifiedIff`,
  `SessionRestore.CanCloseIff`, `SessionRestore.BlankNameExample`). The plain query's answer is trimmed,
  and works.
- Keys that are down when the hook is installed are not seen. A chord counts as released while such a key
  is still down, and its modifier is forgotten when another key of that kind comes up
  (`Chord.ReleasedMeansNoNewKeyHeld`, `Chord.LastReleaseIsConfirmedIff`, `Chord.HeldBeforeIsNotSeen`).

## Model

| member | source | states |
|---|---|---|
| `HookScripts.Compositor.DispatchSubmap` | src/hyprland_capture.rs:220-240 | a submap dispatch succeeds iff it was accepted, could be read back and left the requested submap active (default and reset being one); the world changes in nothing but the active submap |
| `HookScripts.Compositor.RunCleanup` | src/hyprland_capture.rs:242-273 | the cleanup closure, run on the mutable tables, has the effect of the step `HookWorld.DoCleanup`: a stranger's call changes nothing, a failed restore re-arms the lease, a successful one gives the ownership up |
| `HookScripts.Compositor.SetUpHooks` | src/hyprland_capture.rs:279-308 | timer, catchall and listener are made or switched on in that order, and a failing call leaves exactly those made before it |
| `HookScripts.Compositor.InstallSuppressing` | src/hyprland_capture.rs:209-326 | the whole suppressing install script, every failure and the rollback included, is the step `HookWorld.InstallSuppress` |
| `HookScripts.Compositor.CleanUpSuppressing` | src/hyprland_capture.rs:348-430 | the whole suppressing cleanup script, the read at its head and the recovery after Lua state loss included, is the step `HookWorld.CleanupSuppress`, or raises before it changes anything |
| `HookScripts.Compositor.RenewSuppressing` | src/hyprland_capture.rs:448-457 | renewal touches the timer of the owner and nothing else, and is refused to anybody else |
| `HookScripts.Compositor.FireLease` | src/hyprland_capture.rs:260-268 | an expiry of the shared lease, with whoever the timeout closure belongs to |
| `HookScripts.Compositor.InstallPassingThrough` | src/hyprland_capture.rs:160-207 | the pass-through install script replaces the token's entry by a new one, or leaves it without one |
| `HookScripts.Compositor.RenewPassingThrough` | src/hyprland_capture.rs:439-447 | pass-through renewal needs a complete entry |
| `HookScripts.Compositor.FireEntry` | src/hyprland_capture.rs:193-198 | an entry's own timer removes that entry only while it is the one in the table |
| `HookScripts.Compositor.PerformAll` | src/hyprland_capture.rs:157-459 | any sequence of scripts, timers, clock ticks, submap changes and reloads on the mutable state is the run `HookWorld.Run`, on which everything below is proved |
| `HookEffects.InstallRunsIff` | src/hyprland_capture.rs:209-326 | a suppressing install succeeds iff there is no owner, the submap was read, timer and catchall were there or made, the listener was made, the dispatch was accepted, read back and left `__whykey_capture` active, and the armed event was sent |
| `HookEffects.InstallRanMeans` | src/hyprland_capture.rs:275-324 | then the session owns the capture, the submap it found is recorded, its listener is registered, the catchall is on, the lease is due in 5000 ms and the private submap is active |
| `HookEffects.InstallRefused` | src/hyprland_capture.rs:212-218 | an install that finds an owner, or cannot read the submap, changes nothing but that the table is there |
| `HookEffects.InstallFailedMeans` | src/hyprland_capture.rs:242-324 | any other install that fails leaves listener and catchall off, and gives the claim up iff the submap it found is back; else it keeps the claim and restarts the lease, if there is a timer |
| `HookEffects.ClosureMeans` | src/hyprland_capture.rs:242-273 | what the cleanup closure does in the hands of the owner, with the targets of the restore spelled out |
| `HookEffects.OwnersCleanup` | src/hyprland_capture.rs:391-416 | an owner's cleanup succeeds iff the dispatch brings the record back, `reset` for a default or the private one; listener, catchall and lease are off either way |
| `HookEffects.StrangersCleanup` | src/hyprland_capture.rs:417-429 | anybody else's cleanup acts only on a compositor that lost its tables in the private submap, towards the submap the session knows |
| `HookEffects.LeaseExpiry` | src/hyprland_capture.rs:257-289 | an expired lease releases the owner iff the record is brought back, the private one included; else it starts again with 5000 ms |
| `HookEffects.StrangeExpiry` | src/hyprland_capture.rs:244-268 | an expiry whose closure is gone, or not the owner's, only switches the lease off |
| `HookEffects.RenewalMeans` | src/hyprland_capture.rs:448-457 | renewal succeeds for the owner only and makes its lease due in 5000 ms |
| `HookEffects.PassThroughInstall` | src/hyprland_capture.rs:160-207 | an entry with a listener and a lease of 5000 ms is there iff both were made; success takes the armed event as well |
| `HookEffects.PassThroughRenewal` | src/hyprland_capture.rs:439-447 | a pass-through renewal succeeds iff the entry is complete, and makes its own lease due in 5000 ms |
| `HookInvariant.NextInv` | src/hyprland_capture.rs:209-326 | every step keeps the protocol invariant: owner iff recorded submap; without an owner no listener and the catchall off; listener and timeout closure carry the owner's token; no listener without a table entry that removes it |
| `HookInvariant.ReachableInv` | src/hyprland_capture.rs:157-459 | the invariant holds after every interleaving of any number of sessions, failing dispatches, timers and reloads |
| `HookSafety.OwnersCleanupUsesTheRecord` | src/hyprland_capture.rs:402-416 | in every reachable state an owner has a record, so the branch of the cleanup script that guesses a target is unreachable |
| `HookSafety.StaleScriptsAreInert` | src/hyprland_capture.rs:212-246 | while another session owns the capture, an install, cleanup or renewal is refused and changes nothing, and so does a timeout closure that outlived its owner |
| `HookSafety.RecoveryOnlyWhenUnowned` | src/hyprland_capture.rs:418-428 | recovery runs exactly when the table is gone, the private submap is active and the original is known; otherwise the script of a session that is not the owner changes nothing |
| `HookSafety.PassThroughStaysInItsLane` | src/hyprland_capture.rs:160-208 | tokens never touch each other's pass-through entries |
| `HookSafety.SuppressionStaysInItsLane` | src/hyprland_capture.rs:209-326 | suppressing scripts and the lease never touch pass-through entries |
| `HookSafety.PassThroughSparesCapture` | src/hyprland_capture.rs:160-208 | pass-through scripts never touch suppression or the active submap |
| `HookSafety.OldTimerSparesNewEntry` | src/hyprland_capture.rs:174-198 | the timer of a replaced entry does not remove the newer entry under the same token; the new entry's timer does |
| `HookSafety.RecordKept` | src/hyprland_capture.rs:216-218 | through any run in which the owner stays, its recorded submap stays |
| `HookSafety.ReleaseRestores` | src/hyprland_capture.rs:257-272 | short of a reload an owner leaves only by its own cleanup or the lease, and then the recorded submap is active |
| `HookSafety.CaptureIsUndone` | src/hyprland_capture.rs:216-272 | end to end: install, any interleaving while held, release by either path, and the compositor is in the submap the install found |
| `HookSafety.RollbackRestores` | src/hyprland_capture.rs:321-324 | an install that fails and gives its claim up has put the submap back |
| `HookSafety.LeaseMayLeavePrivateSubmap` | src/hyprland_capture.rs:258-260 | a lease expiry leaves the private submap active iff that was recorded; the cleanup script never does |
| `HookSafety.LeaseCanLeavePrivateSubmap` | src/hyprland_capture.rs:216-273 | a run from a fresh compositor in which that happens: the user is in the private submap when the session installs, and the expired lease ends in it with nobody owning it |
| `HookSafety.LeaseRunsUnlessDisarmed` | src/hyprland_capture.rs:391-409 | over every run: an owner's lease runs iff it was not switched off last, by the owner's own failed cleanup or by an install that got no timer |
| `HookSafety.RenewalAfterExpiry` | src/hyprland_capture.rs:434-457 | after an expiry, suppressing renewal fails iff that expiry restored the submap; if it did not, the session renews a hook without a listener |
| `HookSafety.ExpiredLeaseCanBeRenewed` | src/hyprland_capture.rs:434-457 | a run from a fresh compositor in which the renewal succeeds without a listener |
| `HookSafety.EntryRenewalAfterExpiry` | src/hyprland_capture.rs:442-444 | in pass-through, renewal after an expiry always fails |
| `HookLease.AbandonedLease` | src/hyprland_capture.rs:260-268 | while a dead owner is still there its lease runs, extended by one lease per expiry whose restore failed |
| `HookLease.DeadOwnerIsReleasedOnTime` | src/hyprland_capture.rs:260-289 | after k failed restores a dead owner is released exactly k + 1 leases after its last renewal, into the recorded submap |
| `HookLease.DeadOwnerCannotOutstay` | src/hyprland_capture.rs:260-289 | past that time, with at most k expiries, it is no longer the owner |
| `HookLease.DisarmedOwnerIsStranded` | src/hyprland_capture.rs:391-409 | an owner whose lease is off when it dies is never released by anything but a reload |
| `HookLease.FailedCleanupStrands` | src/hyprland_capture.rs:392-409 | a cleanup that failed to restore is such a state |
| `HookLease.FirstCleanupCanStrand` | src/hyprland_capture.rs:392-409 | a run from a fresh compositor in which that happens |
| `HookLease.TimerlessInstallStrandsIff` | src/hyprland_capture.rs:257-324 | an install that gets no timer in a compositor without one strands its owner iff its rollback cannot restore the submap |
| `HookLease.FirstInstallCanStrand` | src/hyprland_capture.rs:257-324 | a run from a fresh compositor in which that happens |
| `HookLease.RenewingOwnerKeepsHook` | src/hyprland_capture.rs:448-457 | an owner that renews within the lease keeps ownership, listener and running lease, whatever the others do |
| `HookLease.RenewingEntryKeepsHook` | src/hyprland_capture.rs:439-447 | the same for a pass-through entry |
| `HookLease.PollingIsScheduled` | src/hyprland_capture.rs:1258-1312 | renewing every interval with bounded polls stays inside the lease when slack, interval and one poll do |
| `HookLease.ChordWaitKeepsLease` | src/hyprland_capture.rs:1258-1289 | the wait restarts its renewal clock without renewing; it keeps the lease for every sequence of polls iff slack + interval - 1 + one poll is below the lease |
| `HookLease.ChordWaitNeverLosesHook` | src/hyprland_capture.rs:1258-1289 | entered within one interval of the last renewal, the wait never loses the hook, for every interleaving |
| `CaptureSession.HyprlandCaptureSession.AttemptRemoval` | src/hyprland_capture.rs:1112-1133 | one removal and its check, on session and compositor, is `SessionSpec.Try` |
| `CaptureSession.HyprlandCaptureSession.RemoveUntilRestored` | src/hyprland_capture.rs:1113-1137 | the teardown loop stops at the first attempt that is confirmed |
| `CaptureSession.HyprlandCaptureSession.Close` | src/hyprland_capture.rs:1083-1137 | closing is `SessionSpec.CleanupBounded`: nothing to do when connected or closed, nothing tried with an unknown original under suppression |
| `CaptureSession.HyprlandCaptureSession.Confirm` | src/hyprland_capture.rs:990-1034 | the postcondition of an install: the private submap observed when suppressing, then the own armed event found in what the socket brings |
| `CaptureSession.HyprlandCaptureSession.Arm` | src/hyprland_capture.rs:971-1041 | arming is `SessionSpec.ArmSession`, failures and their teardown included |
| `CaptureSession.HyprlandCaptureSession.Drop` | src/hyprland_capture.rs:1583-1612 | the destructor makes one attempt |
| `CaptureSession.HyprlandCaptureSession.RenewLease` | src/hyprland_capture.rs:639-648 | renewing runs the renewal script of the session's own token and policy |
| `SessionLife.ArmingIsSafe` | src/hyprland_capture.rs:971-1041 | a refused arm changes nothing; a failed one ends `Closed` or `RestorePending` after at most three removals; a successful one is `Armed` after one install |
| `SessionLife.ArmedMeansConfirmed` | src/hyprland_capture.rs:986-1034 | `Armed` is entered iff the install was confirmed, the private submap was observed when suppressing, and the text read holds the session's own armed event as a complete line, however it is split into reads |
| `SessionLife.ClosingIsBounded` | src/hyprland_capture.rs:1093-1137 | a teardown runs at most three scripts, none without a hook or with an unknown original under suppression, and ends `Closed` iff it succeeded |
| `SessionLife.ClosedSessionHoldsNothing` | src/hyprland_capture.rs:971-1137 | over every call sequence: a session that is `Connected` or `Closed` has nothing left in the compositor |
| `SessionLife.RemovalBetweenInstalls` | src/hyprland_capture.rs:971-1137 | over every call sequence, a successful removal lies between any two installs of one session |
| `SessionRestore.ClosesIffConfirmed` | src/hyprland_capture.rs:1113-1137 | a teardown succeeds iff one of its attempts is reported to have worked and is verified |
| `SessionRestore.ClosedMeansRestored` | src/hyprland_capture.rs:1109-1146 | a suppressing session that closed has restored the recorded submap, by the attempt that closed it; the end state is that plus what others did since |
| `SessionRestore.ConnectArmClose` | src/hyprland_capture.rs:933-1137 | connect, arm, close: whatever fails on the way, reaching `Closed` means the submap seen at connect was brought back; after Lua state loss, by the name the session learned |
| `SessionRestore.OwnNameIsVerifiedIff` | src/hyprland_capture.rs:1140-1146 | back in the submap whose name it knows, a session is verified iff that name has no white space around it |
| `SessionRestore.ConnectedNameIsVerifiedIff` | src/hyprland_capture.rs:88-132 | back in the submap it connected under, it is verified unless the JSON query gave it a name with white space around it; the plain query gives a trimmed one |
| `SessionRestore.BlankNamesNeverClose` | src/hyprland_capture.rs:1111-1146 | whatever the plan, a suppressing session that knows a name with white space around it never closes |
| `SessionRestore.CanCloseIff` | src/hyprland_capture.rs:1111-1146 | under suppression a session with a known original can close at all iff the name it knows has no white space around it |
| `SessionRestore.BlankNameExample` | src/hyprland_capture.rs:88-132 | submap " a": connected by the JSON query it is not verified there, by the plain query it is |
| `SessionRestore.ClosesExactlyWhen` | src/hyprland_capture.rs:1104-1146 | without a reload, a suppressing session closes iff some attempt finds it the owner, restores, is heard and is verified |
| `SessionClose.ConnectMeans` | src/hyprland_capture.rs:933-969 | a session connects iff one of the two queries gives a name that is neither blank nor the private submap's; it has read nothing, and knows the keyboards of its first device query |
| `SessionClose.CloseMakesItsAttempts` | src/hyprland_capture.rs:1083-1137 | closing makes three attempts or as many as it takes until one is confirmed: it succeeds iff one of the three is, logs each, and ends `Closed` or `RestorePending` accordingly |
| `SessionClose.DropMakesOneAttempt` | src/hyprland_capture.rs:1583-1612 | the destructor makes one attempt, and none for a session that is connected or closed |
| `SessionClose.FailedArmTearsDown` | src/hyprland_capture.rs:971-1041 | an arm that fails is followed by a teardown like that of a close: three attempts or as many as it takes, `Closed` iff one of the three is confirmed |
| `SessionClose.CloseExactlyWhen` | src/hyprland_capture.rs:1083-1137 | without a reload, a suppressing close succeeds iff in one of its three attempts the session is still the owner, restores the record, is heard and is verified |
| `SessionClose.CloseCanSucceedIff` | src/hyprland_capture.rs:1083-1137 | a close can succeed, under some course of events, iff the known name is trimmed |
| `SessionClose.OrdinaryArm` | src/hyprland_capture.rs:971-1041 | a session that connects to a fresh compositor, installs undisturbed and reads its armed line is armed, owns the capture and has the submap recorded |
| `SessionClose.OrdinarySession` | src/hyprland_capture.rs:1083-1137 | it closes at its second attempt when the first is lost, nobody owning the capture and the submap as it was |
| `SessionRestore.ArmedElsewhereClosesIff` | src/hyprland_capture.rs:1109-1146 | armed where the record is not the submap it knows: the removal restores the record, and closes the session iff the record passes for what the session knows |
| `SessionRestore.TakenRemovalIsFinal` | src/hyprland_capture.rs:1112-1133 | an owner's removal that took effect but was not heard of, or whose check failed, can never be made up for: no later attempt closes the session |
| `SessionRestore.AnyRemovalCanBeTaken` | src/hyprland_capture.rs:490-519 | every removal that would restore the record can be lost so |
| `SessionRestore.FailedQueryVerifiesDefault` | src/hyprland_capture.rs:115-132 | a failed query verifies a session exactly when its target is the default submap |
| `SocketLine.KeyLineRoundTrip` | src/hyprland_capture.rs:843-896 | a key line as the hook prints it parses to the event it was printed for |
| `SocketLine.ArmedLineRoundTrip` | src/hyprland_capture.rs:843-896 | the armed event parses to its token |
| `SocketLine.KeyLineOnTheWire` | src/hyprland_capture.rs:843-896 | every key event stands on the wire as `custom>>whykey-probe,TOKEN,KEYCODE,STATE,MASK` with 0 for a release, 1 for a press and 2 for a repetition |
| `SocketLine.OtherLines` | src/hyprland_capture.rs:843-852 | what announces a reload, and what announces a keyboard's layout |
| `WireFormat.FourFields` | src/hyprland_capture.rs:853-896 | of any four fields: armed or ready, a key event iff the last three are numbers of 32 bits and the third is at most 2, or nothing |
| `WireFormat.LinesAreAll` | src/hyprland_capture.rs:1195-1198 | a text is its complete lines, each with its newline, and the rest |
| `SocketFeed.CaptureFeed.RefreshKeyboardState` | src/hyprland_capture.rs:1148-1177 | a device query in progress while data arrives is the step `FeedSpec.Refreshed` |
| `SocketFeed.CaptureFeed.NextObservedEvent` | src/hyprland_capture.rs:1195-1256 | reading an event decodes the lines one by one, with the device answers in order; the first event to report or a reload ends it, and nothing else does but the last line |
| `Reading.ReadingMeans` | src/hyprland_capture.rs:1195-1256 | on the lines of the socket: the first key event of the session is returned, or without `events_all` the first press of a key that is neither a modifier nor a lock; a reload before it is an error; nothing is returned iff no line is left |
| `Reading.ReportedIff` | src/hyprland_capture.rs:1240-1249 | without `events_all`, exactly presses of keys other than Ctrl, Shift, Alt, Super, Caps Lock and Num Lock are reported, told by their XKB keycodes |
| `Reading.TapIsRead` | src/hyprland_capture.rs:1195-1256 | a plain key tapped, in the hook's own lines: its press is returned; its release by the next call with `events_all`, and nothing without |
| `VirtualKeyboards.LayoutAttaches` | src/hyprland_capture.rs:780-786 | an announced layout attaches its keyboard iff that is named `hl-virtual-keyboard…` and the layout is not the one keys are decoded with |
| `VirtualKeyboards.KeyBehindLayout` | src/hyprland_capture.rs:1195-1256 | the next key is read as a bare keycode iff the announced layout was foreign or a virtual keyboard was on |
| `VirtualKeyboards.QueryFinds` | src/hyprland_capture.rs:789-812 | with no virtual keyboard on, a device query attaches the first main one with a foreign keymap, and none if there is none |
| `VirtualKeyboards.QueryCounts` | src/hyprland_capture.rs:789-818 | with one on, a query that no longer lists it counts, once, all bytes buffered and waiting |
| `VirtualKeyboards.WhenItIsAsked` | src/hyprland_capture.rs:1227-1235 | a key event is preceded by a device query iff a layout changed, the key is Caps Lock or Num Lock, or a virtual keyboard is on |
| `VirtualKeyboards.KeyIsCodeIff` | src/hyprland_capture.rs:1227-1238 | a key is read as a bare keycode iff a virtual keyboard was on or the query before it finds one |
| `VirtualKeyboards.OwnBits` | src/hyprland_capture.rs:733-745 | which XKB keycodes set and clear which modifier bit themselves |
| `VirtualKeyboards.MaskAfter` | src/hyprland_capture.rs:733-745 | the held mask after an event: its own bit is set unless it is a release, and nothing else changes |
| `SocketFeed.CaptureFeed.DrainBufferEvents` | src/hyprland_capture.rs:1320-1350 | the draining loop computes `FeedSpec.DrainAll` |
| `FeedSpec.DrainStopsAtReload` | src/hyprland_capture.rs:1320-1350 | draining fails iff there is a reload among the complete lines, and otherwise takes them all |
| `SocketFeed.CaptureFeed.DropToArmed` | src/hyprland_capture.rs:1007-1016 | the inner loop of arming drops lines up to the session's own armed event and no further |
| `SocketFeed.CaptureFeed.WaitForArmed` | src/hyprland_capture.rs:999-1025 | the outer loop, read by read, computes `FeedSpec.AwaitArmed` |
| `FeedSpec.ArmedIsRead` | src/hyprland_capture.rs:999-1025 | the wait for the armed event succeeds iff all the text read together holds it as a complete line |
| `SocketFeed.CaptureFeed.WaitForChordRelease` | src/hyprland_capture.rs:1258-1312 | the wait, with drains, renewals, checks, polls and the query after a timeout, computes `FeedWait.WaitFor` |
| `FeedWait.WaitEnds` | src/hyprland_capture.rs:1258-1312 | why a wait ends: released at a check that confirms it; timed out when the time or the polls are used up and no check confirmed it; failed only by a reload, a refused renewal, a poll error or a disconnection |
| `FeedWait.WaitIsRun` | src/hyprland_capture.rs:1258-1312 | a wait is a run of reads and draining steps over the polled text, so what holds of runs holds of it |
| `FeedWait.ClockIsPolling` | src/hyprland_capture.rs:1270-1289 | what the lease sees of a wait is a beginning of the polling schedule of `HookLease` |
| `FeedTrack.CountIsExact` | src/hyprland_capture.rs:771-841 | `queued_after_detach` stays the number of buffered bytes that were there at the detach, over every run of reads, decodes, drains, queries and dropped lines that owe nothing, for every split of the stream |
| `FeedTrack.DetachmentIsAccounted` | src/hyprland_capture.rs:771-841 | from a session that has met no virtual keyboard, over every run in which one is found detached: the count is exact from then on, an event that begins before that point is read as a keycode, and until another attaches at most one that begins later is |
| `FeedTrack.ArmKeepsCountIff` | src/hyprland_capture.rs:1001-1030 | a line dropped while arming is not counted: the count stays exact iff nothing was owed |
| `FeedTrack.ArmCanMiscount` | src/hyprland_capture.rs:1001-1030 | steps from the first byte that come to drop a line with bytes owed, after which the count is wrong; they are device queries and a dropped line, without the calls of a session around them |
| `FeedTrack.CountNeverShort` | src/hyprland_capture.rs:820-841 | with arming in the run too, the count is never too small |
| `FeedTrack.EarlyKeysAreCodes` | src/hyprland_capture.rs:1195-1256 | every key event with a byte queued before the detach is read as a keycode |
| `FeedTrack.AtMostOneLateCode` | src/hyprland_capture.rs:820-841 | at most one key event received wholly afterwards is still read as a keycode |
| `Chord.HeldKeysAreDown` | src/hyprland_capture.rs:1195-1350 | from the first byte, whatever was down then, over every run of all consumers that reads a beginning of the stream in any pieces and drops no key line of the session: the held keys are those physically down where reading has got to, but for those down since before the hook |
| `Chord.MissedMeansNotReleased` | src/hyprland_capture.rs:1195-1350 | these are the keys down before the hook that have not come up since |
| `Chord.DroppedKeyIsMadeUpForIff` | src/hyprland_capture.rs:1007-1016 | a key line of the session that arming drops is made up for iff it is no press, no release of a key seen to go down, and leaves the modifiers as they are |
| `Chord.ReleasedMeansNoNewKeyHeld` | src/hyprland_capture.rs:1314-1318 | a confirmed release means that the keys still down are exactly those down since before the hook; so nothing is down iff all of these have come up |
| `Chord.HeldBeforeIsNotSeen` | src/hyprland_capture.rs:1314-1318 | inputs for which something is down: Left Shift held from before and Right Shift tapped, or one plain key held and another tapped; the wait reports the release |
| `Chord.LastReleaseClearsMaskIff` | src/hyprland_capture.rs:733-745 | the last release empties the held mask iff that key carries no modifier or one the client clears |
| `Chord.LastReleaseIsConfirmedIff` | src/hyprland_capture.rs:1314-1318 | over every such run, whatever was down before the hook: the release is confirmed iff no other key is down where reading has got to and the last key event leaves no modifier the client knows of |
| `Chord.MaskIsEmptyIff` | src/hyprland_capture.rs:733-745 | an event of a key leaves no modifier iff it comes up and all modifiers held are of the kind it clears, or it is none and none is held |
| `Chord.NothingDownIsUpIff` | src/hyprland_capture.rs:1314-1318 | where nothing is down, that is so iff no key event came or the last was the release of a key that clears its own modifier, if it carries one |
| `Chord.WaitReleasesIff` | src/hyprland_capture.rs:1258-1318 | undisturbed, the wait never fails, and reports the release iff that condition holds at one of the checks it has time for |
| `Chord.WaitReleasesFromTheStart` | src/hyprland_capture.rs:1195-1350 | the same for a session from its first byte, whatever is down then and whatever run comes before the wait |
| `Chord.AltGrReleaseIsNotConfirmed` | src/hyprland_capture.rs:733-745 | AltGr or Hyper tapped alone: nothing is down, and the wait times out however long it is |
| `Canonical.SameQuestion` | src/recording.rs:187-214 | two questions have the same text iff their kinds are equal and their keys are equal up to field order at every depth |
| `Canonical.TextOfSame` | src/recording.rs:191-214 | the text does not depend on the order of fields |
| `Canonical.SameOfText` | src/recording.rs:191-214 | equal texts come from values equal up to the order of fields |
| `Replay.GroupInputs` | lab/run.py:619-642 | grouping in loops gives one entry per question in order of first use, a single response iff all answers were equal |
| `Replay.Recording.Load` | src/recording.rs:127-177 | loading in a loop, repeated questions included, gives the map `Loaded` |
| `ReplayFiles.LoadKeepsAll` | src/recording.rs:127-177 | of any file: a question is answered with everything listed for it, in the order of the file; the answer is fixed iff the question is listed once and with one response |
| `ReplayFiles.GroupedInOrder` | lab/run.py:619-642 | a grouped trace lists each question once, in the order of first use, with a single response iff all its answers have the same text, else with all of them |
| `ReplayFiles.AnsweredBeyondIff` | src/recording.rs:251-278 | a replay may ask a question more often than the recorded run iff that run always got one answer, up to field order |
| `Replay.Recording.Ask` | src/recording.rs:251-278 | an ask marks a fixed answer as asked or pops an ordered one, or finds nothing recorded |
| `Replay.Recording.Finish` | src/recording.rs:289-325 | of any recording, the pass reports exactly the questions with an unasked fixed answer or answers left in order; of a grouped one, those asked less often than recorded; only a strict replay then fails, with status 98 |
| `Replay.LoadOfGrouped` | lab/run.py:619-642 | loading a grouped trace gives every question its recorded answers, none asked for yet |
| `Replay.AskServes` | src/recording.rs:251-278 | the n-th ask of a question is served the n-th recorded answer, or the one answer if they were all equal, and refused iff there is none |
| `Replay.UnusedIsWhatIsLeft` | src/recording.rs:289-308 | what `finish` reports is exactly what was asked for less often than recorded |
| `Replay.ReplayServesInOrder` | src/recording.rs:231-278 | any program on any recording: each answer is the recorded one for that ask of that question, and a refusal means that none is recorded |
| `Replay.ReplayRepeatsTheRun` | src/recording.rs:231-325 | for every adaptive program and every environment: replaying the grouped recording gives the same answers in the same order and the same result, never hits an unrecorded question and leaves nothing unused |
| `Replay.DecodingReadsByName` | src/recording.rs:1094-1112 | a program that decodes command results cannot see the order of fields, as the replay theorem asks |
| `Codecs.HexRoundTrip` | src/recording.rs:329-347 | hex decoding undoes hex encoding |
| `Codecs.HexIsCanonicalIff` | src/recording.rs:339-347 | a text that decodes is the encoding of its bytes iff it has lower-case digits only; a plus sign and upper case are accepted as well |
| `Codecs.BytesRoundTrip` | src/recording.rs:349-362 | bytes come back whether or not they are UTF-8 |
| `Codecs.IoRoundTrip` | src/recording.rs:364-391 | errors come back with code or kind, unnamed kinds as `Other` |
| `Codecs.ListingRoundTrip` | src/recording.rs:812-853 | directory listings come back up to the loss of names that are not UTF-8 and of unnamed error kinds |
| `Codecs.StatusRoundTrip` | src/recording.rs:1081-1111 | exit code and signal come back iff the child was not merely stopped, which reads as a success; the core flag is lost |
| `Codecs.ErrorRoundTrip` | src/recording.rs:1114-1201 | every command error decodes, to itself iff its cause has a kind of its own and its timeout fits 64 bits of nanoseconds |
| `Codecs.CommandRoundTrip` | src/recording.rs:1081-1201 | every command result can be read back, and what is read back is recorded as itself |
| `Codecs.WhatIsLost` | src/recording.rs:1081-1201 | the status of a stopped child reads back as success, a timeout of 2^64 nanoseconds as none |
| `Codecs.CommandFromIsByName` | src/recording.rs:1094-1112 | reading a command result does not depend on the order of fields |
| `Codecs.ListingFromIsByName` | src/recording.rs:833-853 | reading a listing does not depend on the order of fields |
| `RecordingFormat.TextIsItsBytes` | src/recording.rs:349-353 | different texts have different UTF-8 bytes |
| `RecordingFormat.RecordedBytes` | src/recording.rs:349-353 | bytes are recorded as `utf8` with the text they encode, or as `hex` if they encode none |
| `RecordingFormat.HexDecodesIff` | src/recording.rs:339-347 | which texts are hexadecimal: pairs of digits, the first of which may be a plus sign |
| `RecordingFormat.WaitStatuses` | src/recording.rs:1081-1092 | the wait status of every exit code and every signal, with or without a core dump, and of a stopped child |
| `RecordingFormat.RecordedIoErrors` | src/recording.rs:364-391 | how errors of the system are recorded, and which six kinds keep their names |
| `RecordingFormat.CanonicalObject` | src/recording.rs:191-205 | the fields of an object stand in the order of their names, between braces and commas |
| `KeyCombos.ParseCombo` | src/key.rs:292-369 | the parser loop computes `KeyCombos.Parse`, error branches included |
| `KeyErrors.OneKey` | src/key.rs:292-369 | what every text without a plus sign is: empty, a lone modifier, a key with white space in it, a bad keycode, an unknown key, or a key |
| `KeyErrors.ModifierTwice` | src/key.rs:304-312 | a modifier given twice, under whatever names, is an error, whatever follows |
| `KeyErrors.KeyAndMore` | src/key.rs:318-340 | behind a key nothing may follow |
| `KeyErrors.OnlyModifiers` | src/key.rs:318-340 | a modifier alone is an error, with or without a plus sign behind it; with two the key is plus |
| `KeyAliases.ModifierAndKey` | src/key.rs:292-369 | a modifier, a plus sign and a key are the modifier's bit and the normalised key |
| `KeyAliases.ModifierAndArrow` | src/key.rs:292-369 | any modifier with any spelling of an arrow, as `ctrl+leftarrow`, is that modifier with that arrow |
| `KeyAliases.ControlLeftArrow` | src/key.rs:292-369 | `ctrl+leftarrow` is Ctrl with LEFT |
| `KeyAliases.WinPageUp` | src/key.rs:292-369 | `Win+PgUp` is Super with PAGE_UP |
| `KeyAliases.FunctionKeys` | src/key.rs:598-621 | function keys are numbered from 1 to 35, without leading zeros |
| `KeyAliases.MouseButtons` | src/key.rs:598-621 | a mouse button is known iff it is a non-empty number |
| `KeyAliases.MediaKeys` | src/key.rs:598-621 | a media key is known iff its name is not empty and of letters, digits and underscores |
| `KeyAliases.FoldedKeysAreKnown` | src/key.rs:504-597 | every name an alias is folded into is a known key |
| `KeyCombos.PrintCompact` | src/key.rs:103-127 | the compact printer's loop |
| `KeyAliases.PrintedInOrder` | src/key.rs:103-127 | all eight modifiers are printed in one order |
| `KeyCombos.PrintDisplay` | src/key.rs:371-404 | the report printer's loop, separators between modifiers and before the key |
| `KeyCombos.PrintThenParse` | src/key.rs:103-404 | both printed forms of everything the parser accepts are accepted, validated or not, and mean the same combination |
| `KeyCombos.ModifiersInAnyOrder` | src/key.rs:298-317 | permuting the modifiers before a key, with any blanks around them and repeated ones included, changes neither the combination nor the error |
| `KeyNames.NormalizingIsIdempotent` | src/key.rs:423-501 | normalising anything twice is normalising it once, all aliases and `CODE:n` included; of a key it makes no modifier and no second plus sign |
| `KeyAliases.ArrowKeys` | src/key.rs:423-428 | a direction with the word arrow before or behind it, with an underscore or without, in any case, is that direction |
| `KeyAliases.SecondNames` | src/key.rs:429-443 | abbreviations and second names of the editing keys, in any case |
| `KeyAliases.PageNames` | src/key.rs:432-439 | paging up and prior, paging down and next, and the keypad's own, in any case |
| `KeyAliases.KeypadStaysApart` | src/key.rs:430-434 | a name of the keypad stands for a key of the keypad, and no other name does |
| `KeyAliases.SymbolKeys` | src/key.rs:449-480 | a symbol's name, in any case, is the symbol |
| `KeyAliases.FirstSymbols` | src/key.rs:449-480 | the X11 names of the symbols from `!` on stand for them in the order of their codes |
| `KeyAliases.MiddleSymbols` | src/key.rs:449-480 | the same from `(` to `/` |
| `KeyAliases.SymbolsBehindDigits` | src/key.rs:449-480 | the same from `:` to `@` |
| `KeyAliases.SymbolsBehindCapitals` | src/key.rs:449-480 | the same from `[` to the grave accent |
| `KeyAliases.SymbolsBehindLetters` | src/key.rs:449-480 | the same from `{` to `~` |
| `KeyAliases.OtherKeys` | src/key.rs:481-482 | whatever has anything but letters and underscores in it, and every single character, is only put into upper case |
| `KeyAliases.ModifierBits` | src/key.rs:408-421 | the eight modifiers of X11 have the eight bits in order |
| `KeyAliases.ModifierAliases` | src/key.rs:408-421 | every other name of a modifier, in any case, has the bit of the name that is printed for it |
| `KeySequences.PrintSequence` | src/key.rs:210-221 | the sequence printer's loop |
| `KeySequences.SequencePrintThenParse` | src/key.rs:171-221 | every accepted sequence has 1 to 64 steps and is read back from what it prints |
| `KeyErrors.SequenceMeans` | src/key.rs:171-208 | a sequence is rejected without words, with more than 64, or at its first word that is no combination, with its place and the reason; else its steps are its words' combinations in order |
| `EditDistance.ComputeEditDistance` | src/key.rs:730-745 | the two-row loop computes the textbook recursion |
| `EditDistance.ZeroIffEqual` | src/key.rs:730-745 | the distance is zero iff the strings are equal |
| `EditDistance.Symmetric` | src/key.rs:730-745 | the distance is symmetric |
| `EditDistance.Triangle` | src/key.rs:730-745 | the triangle inequality |
| `EditDistance.ScriptsCostAtLeast` | src/key.rs:730-745 | no edit script is shorter than the distance |
| `EditDistance.ScriptOfDistance` | src/key.rs:730-745 | some edit script is exactly as long |
| `Redaction.RedactSecretString` | src/snapshot.rs:114-154 | the loop that rewrites the text while scanning it terminates and computes `RedactedText` |
| `Redaction.RedactionIsComplete` | src/snapshot.rs:85-154 | afterwards each of the seven keys, in any case and as `key=`, `key:` or `--key`, has an empty value or exactly `[redacted]`; redacting again changes nothing, and a text is unchanged iff it was clean |
| `SecretPlaces.NoSecretIsLeft` | src/snapshot.rs:85-154 | in characters: wherever a redacted text has one of the seven keys, in any case, with `=`, `:` or, behind two dashes, white space after it, what comes then, over blanks, tabs and quotes and up to a blank, tab, quote, comma or semicolon, is empty or `[redacted]` |
| `SecretPlaces.ReportedIffTold` | src/snapshot.rs:114-154 | a redaction is reported exactly when the original has such a place with a value that is not empty |
| `SecretPlaces.OnlySecretsAreReplaced` | src/snapshot.rs:114-154 | the redacted text is the original with such values replaced by `[redacted]`, one after the other, and nothing else |
| `SecretPlaces.ColonIsRedacted` | src/snapshot.rs:85-154 | `password: hunter2` does not stay, and is reported |
| `Redaction.OnlyValuesAreReplaced` | src/snapshot.rs:114-154 | nothing but values of secret keys is replaced, and a change is reported iff some key had a value |
| `Redaction.EndIsAsDocumentedIff` | src/snapshot.rs:85-143 | a value ends where it is documented to end iff the value the code takes has no white space in it |
| `Redaction.LineBreakIsSwallowed` | src/snapshot.rs:85-143 | an input for which it does not: the first word of the next line is replaced with the value |
| `Redaction.ReplaceKeepsClean` | src/snapshot.rs:147-150 | redacting one value never uncovers another, for any key |
| `Redaction.TreeIsRedacted` | src/snapshot.rs:93-112 | a redacted document is clean at every depth and a fixed point; an unreported one is unchanged |
| `SecretPlaces.PlacesAreKept` | src/snapshot.rs:93-112 | at the end of every path, a redacted document has the redacted string, or the same value, or an array or object of the same size and names |
| `SecretPlaces.TreeReportedIff` | src/snapshot.rs:93-112 | a document is reported exactly when some string in it is |
| `SwayFrames.SwayCaptureSession.Subscription` | src/sway_capture.rs:62-72 | the subscription is one well-formed frame |
| `SwayWire.SubscriptionOnTheWire` | src/sway_capture.rs:62-72 | the bytes of the subscription |
| `SwayWire.MessageIsRead` | src/sway_capture.rs:74-101 | for all length and kind bytes: the length is little-endian, more than a million is an error, a payload is awaited in full and cut off exactly |
| `SwayWire.BindingEventsAreDecoded` | src/sway_capture.rs:92-101 | a frame is decoded iff its kind bytes are 5, 0, 0, 0x80 |
| `SwayWire.StrangeHeader` | src/sway_capture.rs:79-82 | fourteen bytes that do not begin with `i3-ipc` are an error |
| `SwayFrames.SwayCaptureSession.ParseEvent` | src/sway_capture.rs:74-101 | the loop that drains the buffer computes `SwayFrames.Parse` |
| `SwayFrames.SwayCaptureSession.ReadIncoming` | src/sway_capture.rs:240-254 | a read appends its bytes |
| `SwayFrames.ReadsMayBeCutAnywhere` | src/sway_capture.rs:74-101 | for every byte stream and every split into reads: the same events, the same error, the same rest |
| `SwayFrames.EveryFrameArrivesOnce` | src/sway_capture.rs:62-101 | frames read in any pieces: each binding event once and in order, other frames passed over, a partial frame kept |
| `SwayFrames.FramesAreDelivered` | src/sway_capture.rs:74-101 | a stream of frames delivers the keys of its binding events up to a malformed one |
| `ReadLimited.ReadAll` | src/command.rs:440-474 | the bytes kept are the first `limit`, overflow is reported iff there were more, whatever the reads were; the first error ends it |
| `ReadLimited.CutsDoNotMatter` | src/command.rs:440-474 | however an error-free stream is cut into reads, all of it counts |
| `ReadLimited.ReadsEnd` | src/command.rs:440-474 | a stream counts up to the first read that fails, whose error is reported, or that brings nothing |
| `Conflicts.BuildConflicts` | src/conflicts.rs:75-153 | the grouping loops compute `ReportOf` |
| `Conflicts.GroupsAreClasses` | src/conflicts.rs:76-95 | the groups are exactly the classes of equal tuples among bindings with a reported key, in order and once each |
| `Conflicts.ClassificationIsExact` | src/conflicts.rs:122-133 | `the submap bind stops the binds listed after it` is said iff running the original list up to its first submap bind leaves a distinct action unrun |
| `Conflicts.ReportIsExact` | src/conflicts.rs:97-152 | exactly the groups with a known context and two distinct actions are reported, in order and once; the others with two are counted; the Hyprland classification says whether every action runs |
| `ConflictReport.ReportedIff` | src/conflicts.rs:76-121 | told by the bindings: a group is reported iff its context is known and two of its bindings with a reported key have different actions |
| `ConflictReport.ActionsAreListed` | src/conflicts.rs:112-121 | the actions of a conflict are those of its bindings, each once, in the order in which the input first has them |
| `ConflictReport.OthersAreClassified` | src/conflicts.rs:122-140 | outside Hyprland, the order is what is not exposed iff all bindings of the group are known to be in effect; else it is not known which are |
| `ConflictReport.HyprlandIsClassified` | src/conflicts.rs:125-136 | in Hyprland, whether some action of the group is not run |
| `ConflictReport.IsSubmapIff` | src/conflicts.rs:129 | an action is a submap bind iff behind white space comes `submap` and then white space or the end |

## Left out

- `generate_token`, `probe_available`, `lua_hook_supported`, `has_universal_bindings`: environment probes.
- `HyprlandHookGuard::restore_submap` (src/hyprland_capture.rs:650-690): not called by the session's teardown.
- The mask computed inside the listeners is modelled where it is received (`Chord.HookMask`), not in the scripts.
- Naming a decoded key (`decode_event`, keymap and layout lookups, XKB levels): only whether a key is read as a keycode is modelled.
- Arming a session a second time keeps the keys and the mask it had; the theorems about held keys start with a session that has read nothing.
- Sockets, polls, processes, signals and clocks appear as the results of reads, polls and ticks.
- `HookLease.ChordWaitNeverLosesHook`: stated for suppression; `HookLease.RenewingEntryKeepsHook` and `HookLease.PollingIsScheduled` give the same for pass-through.
- `Codecs.ListingRoundTrip`: names that are not UTF-8 come back as the lossy text, as the source says.
- Codecs of environment variables, links, metadata, process ids and terminal settings: the same shape with fewer cases.
- Record mode's file, the other exit statuses and the messages.
- A grouped entry keeps the key as first asked; the source keeps it with its fields sorted, which is the same question.
- Error texts of the key parser: the kinds of error are modelled, their wording and suggestions are not.
- `KeyCombo::parse_alone` and the modifiers pressed on their own: printed with a suffix that is not parsed back.
- `observed_binding` of Sway events: a parameter of the frame reader.
- The keycode attached to a conflict, filtering and rendering of conflicts.
- `redact_paths` and the list of redactions in a snapshot.
- `Redaction.TreeIsRedacted`: the document is a value here; the source changes it in place.
- Deadlines, process groups and the threads around `read_limited`; its shared flag is the result `raised`.
