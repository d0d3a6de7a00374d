# Verified model of the SSH desktop client

A Dafny 4.11 model of the parts of this repository that hold state and logic, with proofs about
them. `dafny verify dfyconfig.toml` checks everything.

Each part has the same layout. A value describes the state, functions describe what one operation
does to it, classes and methods written like the original (fields, loops, early returns, arrays
changed in place) are proved equal to those functions, and lemmas speak about the functions: one
step, then every run or every interleaving. What a function computes is fixed by statements that do
not mention it: a history of what went in, a way of writing the input, an exact condition. A failure
of something outside the model (the shell, an IPC channel, SQLite, the network, a file system) is a
parameter or an arbitrary choice, so the lemmas hold whatever fails.

## The parts

* **Terminal output** (`TerminalFlow`, `TerminalSession`, `TerminalTimeline`, `TerminalClient`,
  `TerminalProtocol`, `RefusedWindow`, `TerminalInput`).
  The backend batches shell output and lets at most eight batches be unacknowledged; the window
  never receives a sequence number, counts what arrives, and sends coalesced acknowledgements once
  it knows the session id. `TerminalProtocol` composes both ends, the FIFO channel between them,
  the xterm queue, the promise chain and the command queue into one transition system.
  `TerminalTimeline` tells a run of the loop from its wake-ups alone, `TerminalInput` follows what the
  user types.
* **Closing a terminal** (`TerminalClosing`). `close_terminal_session`, `close_all` and the commands sent
  through `send` meet the end of the session's loop over the table of senders, the bounded command
  queue and the one-shot completion, in every interleaving.
* **Attempts and sessions** (`SessionManager`, `AttemptDrivers`, `AttemptHistory`, `ClosingEvents`). The
  four commands that start a session are program counters over one shared session manager, interleaved in
  every way, with cancellation, session removal and (where stated) `clear`. `AttemptHistory` tells how an
  attempt ends from what its steps met.
* **Connection catalog** (`Contracts`, `CatalogTables`, `ConnectionRepository`, `OrderKeys`,
  `CatalogHistory`, `SettingsHistory`, `Sorting`, `ConnectionTree`, `TreeShape`). Tables are maps; the
  histories tell what they hold from the operations alone; `ConnectionTree` and `TreeShape` add the sidebar
  tree and the move buttons of the window on top.
* **OpenSSH import** (`Text`, `OpenSshScan`, `OpenSshParse`, `OpenSshReading`, `OpenSshRoundTrip`,
  `OpenSshImport`, `OpenSshPrecedence`, `ImportedCatalog`). The two quote-and-escape scanners, the
  accumulating parser, how lines as people write them are read, a printer for the round trip, the preview,
  the selection loop, and what the import does to the catalog.
* **SFTP transfers** (`Transfer`). Uploads and downloads over file systems in which a script of faults
  decides which operation fails, with or without effect, and which write silently stores something
  else; the theorems hold for every script.
* **Schema migrations** (`Migrations`).

## Findings

Properties that do not hold as one would first state them, each with an input that shows it and the
exact condition under which they hold:

* A full window whose last coalesced acknowledgement is refused never drains: the client does not send
  it again, and in no continuation is a slot freed or the shell read again
  (`TerminalProtocol.OneRefusedCallStalls`, `TerminalProtocol.StuckForGood`). At rest the window is
  empty if and only if the last acknowledgement issued was not refused
  (`TerminalProtocol.QuietMeansDrained`); if it was refused, the window is lost for good if and only if it
  is full, and with a free slot one more batch of output drains it
  (`RefusedWindow.RefusedWindowIsLostWhenFull`). Both happen (`RefusedWindow.RefusedWindowOf`).
* Closing every session does not wait for a session whose command queue is full
  (`TerminalClosing.FullQueueIsNotWaitedFor`) and misses one that is just being put into the table
  (`TerminalClosing.ConnectingIsMissed`). It goes on before a session is over exactly when it finds the queue
  full, or finds no sender although the session is not over (`TerminalClosing.AnsweredEarly`).
* A batch that arrives after the terminal was unmounted is acknowledged at once, and with it earlier
  batches that xterm has not processed (`TerminalProtocol.UnmountingAcknowledgesTooMuch`). The batches
  that left the window were all processed if and only if none of them was counted without being
  shown (`TerminalProtocol.AcknowledgementsAreSound`).
* When the session manager is cleared under a running driver, its window is never told how the
  attempt ended, whichever way the driver returns: through a bare `?`
  (`AttemptDrivers.ClearReachesTheBareExit`) or through its ordinary failure path
  (`ClosingEvents.ClearSilencesARejection`). Over all interleavings with fresh attempt ids, the window
  of an attempt that began is told if and only if the driver has returned and was not cleared in
  between (`ClosingEvents.ClosedUnlessCleared`). The bare `?` is taken exactly when the driver's entry
  is missing, foreign or not at Authenticating (`ClosingEvents.BareExitWhen`); without `clear` that is
  unreachable.
* Cancelling an attempt after the last poll of its last select has no effect
  (`ClosingEvents.CancelledTooLateHappens`), and at every other point it has
  (`AttemptDrivers.CancelledTooLate`, `AttemptDrivers.CancelledNeverConnects`).
* Deleting a group moves its connections, with their sort keys, among the ungrouped ones; the keys
  stay distinct if and only if none of them was taken there (`OrderKeys.DeleteGroupOrder`,
  `OrderKeys.DeleteGroupBreaksOrder`).
* One selected alias that is quoted white space is offered for import without an error, but then the
  repository refuses the whole selection (`ImportedCatalog.ImportMerges`,
  `ImportedCatalog.BlankAliasRefusesAll`).
* A quoted option value can expose a `#` to the comment scanner, the smallest being a letter, a
  quotation mark and a `#` (`OpenSshRoundTrip.MarkExposesComment`). A value is read back if and only
  if no `#` of it stands outside the quotation marks, where its own quotation marks close and open
  them (`OpenSshRoundTrip.ValueRoundTrip`).
* ssh_config(5) uses the first value among those given before any `Host` and in all matching `Host`
  blocks, and of `IdentityFile` every value. The importer takes one value, from an alias's own stanza
  first, then from before any `Host`, and looks at no other block, so an earlier `Host *` or an earlier
  block for the same host is ignored
  (`OpenSshPrecedence.EarlierBlockIgnored`), and so is a later `Host *` that gives what the stanza
  leaves out (`OpenSshPrecedence.LaterBlockIgnored`); a second identity file is not imported
  (`OpenSshPrecedence.SecondIdentityIgnored`). `OpenSshPrecedence.ImportedIsObtained` says for each field
  exactly when the two agree. The model follows the code.
* After a transfer there is a file of the temporary name exactly when its creation took effect while
  reporting a failure, or nothing was created where such a file was before, or the transfer got no further
  than it and removing it had no effect (`Transfer.TemporaryStays`, `Transfer.CreationLeftBehind`).
* An upload truncates a file that already has its temporary name (`Transfer.UploadTruncates`); a
  transfer that succeeds changes nothing but its target if and only if there was no such file
  (`Transfer.OkTouchesTargetOnly`).

## Model

| member | source | states |
|---|---|---|
| TerminalFlow.AcknowledgeRetires | apps/desktop/src-tauri/src/terminal.rs:813-825 | an acknowledgement below the next number retires exactly the batches up to it, never frees a slot twice, keeps the window a run of at most eight; one from the future changes nothing |
| TerminalFlow.DropFromRun | apps/desktop/src-tauri/src/terminal.rs:818-824 | popping acknowledged numbers off a run of consecutive numbers leaves a run that ends at the same place, of a length the acknowledged number determines |
| TerminalFlow.TerminalOutputFlow.constructor | apps/desktop/src-tauri/src/terminal.rs:765-772 | numbering starts at 1 with nothing pending or in flight |
| TerminalFlow.TerminalOutputFlow.Push | apps/desktop/src-tauri/src/terminal.rs:778-786 | the whole new state: empty data changes nothing, the flush timer starts with the first pending byte only |
| TerminalFlow.TerminalOutputFlow.Flush | apps/desktop/src-tauri/src/terminal.rs:797-811 | the whole new state, what reached the channel and whether it succeeded; a refused batch is gone and its timer stays set |
| TerminalFlow.TerminalOutputFlow.Acknowledge | apps/desktop/src-tauri/src/terminal.rs:813-825 | the popping loop leaves the specified window and nothing else changed |
| TerminalSession.StepKeeps | apps/desktop/src-tauri/src/terminal.rs:654-729 | every iteration, whatever is ready and whatever fails, keeps the window, the numbering, the byte account and the timer invariant |
| TerminalSession.EveryRunIsConsistent | apps/desktop/src-tauri/src/terminal.rs:654-729 | over every run: at most eight consecutive numbers in flight, a full window has nothing pending, sent + lost + pending bytes are the bytes read in order, the timer is set exactly while bytes are pending until a batch is refused |
| TerminalSession.FinishedSession | apps/desktop/src-tauri/src/terminal.rs:731-737 | the last flush never opens a ninth slot, nothing stays pending, all bytes read were sent unless a send failed, and exactly one of Exited and Error is reported |
| TerminalSession.MemoryIsBounded | apps/desktop/src-tauri/src/terminal.rs:774-811 | at the loop top pending plus unacknowledged bytes never exceed 8 * (65535 + M) for shell events of at most M bytes |
| TerminalSession.BatchesStaySmall | apps/desktop/src-tauri/src/terminal.rs:703-711 | no batch ever sent is longer than 65535 + M bytes |
| TerminalSession.RunSession | apps/desktop/src-tauri/src/terminal.rs:638-737 | the loop with its mutable flow and locals, over any script of wake-ups, ends in the state, flow, channel contents and shell input of the specification |
| TerminalSession.Iterate | apps/desktop/src-tauri/src/terminal.rs:656-728 | one biased select does what the specification's step does to flow, channel and locals |
| TerminalSession.TakeEvent | apps/desktop/src-tauri/src/terminal.rs:701-722 | the shell branch, for every kind of shell event |
| TerminalSession.Obey | apps/desktop/src-tauri/src/terminal.rs:665-700 | the command branch, for every command, closed senders and failing shell calls |
| TerminalSession.Receive | apps/desktop/src-tauri/src/terminal.rs:703-711 | pushing output sends one batch exactly when 64 KiB are pending |
| TerminalTimeline.TimerFlushes | apps/desktop/src-tauri/src/terminal.rs:723-727 | over every run, bytes pending and only the timer ready: the wake-up sends exactly them if and only if at least 8 ms have passed since the output that made something pending, otherwise changes nothing; refused, they are lost and the loop ends |
| TerminalTimeline.OutputIsBatched | apps/desktop/src-tauri/src/terminal.rs:703-711 | output that is taken waits until 64 KiB are pending and is then sent with all that was pending |
| TerminalTimeline.SendsWhen | apps/desktop/src-tauri/src/terminal.rs:654-729 | a batch is sent at a wake-up if and only if output fills one or the timer is due, told from the wake-ups, and the channel accepts it |
| TerminalTimeline.ReadIsTaken | apps/desktop/src-tauri/src/terminal.rs:701-713 | the bytes read are those of the shell events taken, in order: the ones offered when neither transport nor command was ready and fewer than eight batches were unacknowledged |
| TerminalTimeline.EndsWhen | apps/desktop/src-tauri/src/terminal.rs:654-729 | the loop runs as long as no wake-up breaks it, concludes it or loses a batch, and has failed if and only if one broke it |
| TerminalTimeline.WhatIsReported | apps/desktop/src-tauri/src/terminal.rs:731-744 | after the loop exactly the error, or the last exit status and signal the shell gave, is reported, and a completion is owed if and only if a close that wants one was taken |
| TerminalTimeline.GivenIsTaken | apps/desktop/src-tauri/src/terminal.rs:665-679 | the shell is given every write and resize that was taken, in order, and nothing else |
| TerminalClient.TerminalConnection.QueueAcknowledgement | apps/desktop/src/App.tsx:1104-1127 | at most one number is queued, always a larger one than before and the highest processed, and only once the session id is known |
| TerminalClient.TerminalConnection.HandleTerminalOutput | apps/desktop/src/App.tsx:1148-1163 | an arrival is counted, and either handed to xterm under its count or acknowledged at once |
| TerminalProtocol.NextKeeps | apps/desktop/src-tauri/src/terminal.rs:654-731 | every action of either end keeps the invariant that ties the client's counters, the acknowledgements on their way and the backend's window together |
| TerminalProtocol.AcknowledgementsAreSound | apps/desktop/src/App.tsx:1099-1163 | the client's n-th arrival is the batch the backend numbered n; all batches that left the window were processed if and only if none of them was counted without being shown |
| TerminalProtocol.EverythingIsShown | apps/desktop/src/App.tsx:1148-1163 | after a session that ended with no refused batch and a mounted terminal, every byte the shell wrote has been processed |
| TerminalProtocol.GuardNeverRejects | apps/desktop/src-tauri/src/terminal.rs:813-816 | no client acknowledgement is ever from the future, and each one taken up retires exactly up to its number, which is new |
| TerminalProtocol.QuietMeansDrained | apps/desktop/src-tauri/src/terminal.rs:654-729 | at rest everything sent was processed, and the window is empty if and only if the last acknowledgement issued was not refused |
| TerminalProtocol.NoBackpressureDeadlock | apps/desktop/src-tauri/src/terminal.rs:665-701 | with a batch in flight, unless the last acknowledgement issued was refused, a delivery, an xterm callback, the start response, a link of the promise chain or a queued command can be taken |
| TerminalProtocol.InternalDescends | apps/desktop/src-tauri/src/terminal.rs:654-731 | each such step strictly lowers a natural-number rank |
| TerminalProtocol.SilenceDrains | apps/desktop/src/App.tsx:1203-1204 | while the shell is silent at most rank many own steps follow, and at rest the window is empty exactly if the last acknowledgement issued was not refused, also when all batches were processed before the session id came |
| TerminalProtocol.StuckForGood | apps/desktop/src/App.tsx:1104-1127 | a full window with nothing pending and no acknowledgement on its way is the same in every continuation, whatever the user, the shell, the transport or the client do |
| TerminalProtocol.FullAtRestIsStuck | apps/desktop/src-tauri/src/terminal.rs:654-729 | every running system at rest with a full window is in that state, and its last acknowledgement was refused |
| TerminalProtocol.OneRefusedCallStalls | apps/desktop/src/App.tsx:1111-1127 | a reachable state of that kind, one refused acknowledgement away from the start |
| TerminalProtocol.UnmountingAcknowledgesTooMuch | apps/desktop/src/App.tsx:1152-1162 | a reachable state in which a batch was retired that the terminal never processed |
| RefusedWindow.RefusedWindowIsLostWhenFull | apps/desktop/src/App.tsx:1104-1127 | at a reachable running state at rest whose last acknowledgement was refused: the window is the same in every continuation if and only if it is full, and some continuation empties it if and only if it is not |
| RefusedWindow.RefusedWindowOf | apps/desktop/src-tauri/src/terminal.rs:654-729 | such a state is reachable with any number of batches in flight from one to eight |
| TerminalInput.InputIsInOrder | apps/desktop/src-tauri/src/terminal.rs:510-542 | in every behaviour of both ends what the user typed is what the shell was given followed by what is queued |
| TerminalInput.QueueIsBounded | apps/desktop/src-tauri/src/terminal.rs:303-303 | the command queue never holds more than 128 commands |
| TerminalClosing.NextKeeps | apps/desktop/src-tauri/src/terminal.rs:580-634 | every step of every request and of the loop keeps: at most one request gets the sender to close with, its close is queued at most once, and the completion, the table and the queue agree |
| TerminalClosing.AnsweredOnce | apps/desktop/src-tauri/src/terminal.rs:605-620 | an answer once given never changes, in any continuation |
| TerminalClosing.AnswerMeans | apps/desktop/src-tauri/src/terminal.rs:560-620 | a request to close is told it completed if and only if the loop ended by its own command, session closed only when the session is gone by another way, and all but one that there is none; after close_terminal_session its window is not authorized |
| TerminalClosing.SendAnswers | apps/desktop/src-tauri/src/terminal.rs:622-634 | a command is told that there is no session, that it is closed, or is queued last, exactly by authorization, table and receiver |
| TerminalClosing.NobodyLeft | apps/desktop/src-tauri/src/terminal.rs:691-698 | the running loop gives up for want of senders exactly if nothing is queued, the table does not list it and no request holds a sender |
| TerminalClosing.EndedForGood | apps/desktop/src-tauri/src/terminal.rs:731-745 | after the end neither table holds the session in any continuation, and whatever arrives later is told that there is none |
| TerminalClosing.StepDescends | apps/desktop/src-tauri/src/terminal.rs:580-745 | every step but a new request and a clear lowers a natural-number rank |
| TerminalClosing.QuietMeansAnswered | apps/desktop/src-tauri/src/terminal.rs:580-745 | at rest every request has its answer, and the session is listed exactly if its loop runs, authorized exactly if it runs and the manager was not cleared, and otherwise over |
| TerminalClosing.SilenceAnswers | apps/desktop/src-tauri/src/terminal.rs:580-745 | in every interleaving at most rank many steps follow without a new request, and then every request has its answer |
| TerminalClosing.AnsweredEarly | apps/desktop/src-tauri/src/terminal.rs:580-603 | close_all goes on before the session is over exactly when it finds the queue full, or no sender although the session is not over |
| TerminalClosing.FullQueueIsNotWaitedFor | apps/desktop/src-tauri/src/terminal.rs:593-598 | a reachable state in which close_all is done while the loop runs with 128 commands to obey |
| TerminalClosing.ConnectingIsMissed | apps/desktop/src-tauri/src/terminal.rs:303-310 | a reachable state at rest in which close_all is done and the session is served and in both tables |
| TerminalClosing.BothAnswersHappen | apps/desktop/src-tauri/src/terminal.rs:605-620 | a close that completed, and one that was told session closed, are reachable |
| SessionManager.SshConnectionStateMachine.Transition | crates/ssh-core/src/connection_state.rs:33-64 | the stage moves exactly along the allowed edges, otherwise it stays |
| SessionManager.TransitionsAre | crates/ssh-core/src/connection_state.rs:33-64 | the allowed edges: one by one along the way to closed, from connected to closed at once, and from any stage before connected to cancelled or failed |
| SessionManager.OwnersDecide | apps/desktop/src-tauri/src/session_manager.rs:145-177 | only its owner ends or cancels an attempt and is told so; an end is announced if and only if it may follow the stage of the entry |
| SessionManager.SshSessionManager.NextSessionId | apps/desktop/src-tauri/src/session_manager.rs:247-254 | the id handed out is one that was drawn and is not in use |
| SessionManager.SshSessionManager.CompleteAttempt | apps/desktop/src-tauri/src/session_manager.rs:101-143 | the attempt becomes a session under a fresh id, or, although it is taken out first, is still there unchanged |
| SessionManager.SshSessionManager.FinishAttempt | apps/desktop/src-tauri/src/session_manager.rs:145-164 | the owner's attempt is gone, another owner's is still there, an event is made only for an allowed edge |
| AttemptDrivers.NextKeeps | apps/desktop/src-tauri/src/terminal.rs:226-334 | every step of every driver, cancellation and removal keeps the invariant over all drivers and both tables |
| AttemptDrivers.NoLeakedAttempts | apps/desktop/src-tauri/src/terminal.rs:226-301 | in every interleaving without clear the attempts table holds exactly the running drivers' ids; the bare `?` exit and the failure branch of completing are unreachable |
| AttemptDrivers.EventTraces | apps/desktop/src-tauri/src/sftp.rs:60-184 | the window sees Created, a contiguous prefix of the stages, then at most one of Connected, Cancelled, Failed; Connected exactly for a driver that returned a session |
| AttemptDrivers.SessionProvenance | apps/desktop/src-tauri/src/session_manager.rs:101-199 | attempts are never connected or over; authorization succeeds exactly for a live session that a driver with that owner and kind produced |
| AttemptDrivers.CancellationWins | crates/ssh-core/src/session.rs:183-193 | a driver whose flag is up and whose last select is ahead stays so under any step of anyone |
| AttemptDrivers.CancelledNeverConnects | crates/ssh-core/src/session.rs:308-333 | such a driver never ends with a session, in any continuation, clear included |
| AttemptDrivers.CancelledTooLate | apps/desktop/src-tauri/src/terminal.rs:267-301 | the condition is exact: past its last select the driver connects, flag or no flag |
| AttemptDrivers.CancelReachesItsOwner | apps/desktop/src-tauri/src/session_manager.rs:166-177 | cancelling raises the flag of the one running driver with that owner and id and of no other |
| AttemptDrivers.ClearReachesTheBareExit | apps/desktop/src-tauri/src/terminal.rs:261-265 | a reachable state in which a driver returned without its window being told how the attempt ended |
| AttemptHistory.StartedWhen | apps/desktop/src-tauri/src/terminal.rs:226-301 | in every interleaving without clear a driver that returned started a session if and only if everything its steps awaited or checked went well and every select found its flag down |
| AttemptHistory.RejectedWhy | apps/desktop/src-tauri/src/terminal.rs:747-761 | a rejected driver failed in exactly one step, and the last event is Cancelled if and only if its flag was up at that select, Failed otherwise |
| AttemptHistory.NothingIsSkipped | crates/ssh-core/src/session.rs:168-225 | a driver that started a session began, resolved its key if it has one, made its checks, waited in all five stages and, for SFTP, listed the directory |
| AttemptHistory.SessionsAre | apps/desktop/src-tauri/src/session_manager.rs:101-220 | with clear at any time, the manager holds a session, under its attempt's owner and kind, if and only if a driver whose entry was in order started it and it was neither removed nor cleared since |
| ClosingEvents.ClosedUnlessCleared | apps/desktop/src-tauri/src/session_manager.rs:145-220 | over every interleaving, clear included, in which no attempt id is begun twice, the window of an attempt that began is told how it ended if and only if the driver has returned and was not cleared in between |
| ClosingEvents.BareExitWhen | apps/desktop/src-tauri/src/terminal.rs:261-265 | the bare `?` is taken exactly when the driver's entry is missing, another owner's, or not at Authenticating |
| ClosingEvents.ClearSilencesARejection | apps/desktop/src-tauri/src/session_manager.rs:145-220 | a reachable state in which a cleared driver returned through its failure path and its window was told nothing |
| ClosingEvents.CancelledTooLateHappens | apps/desktop/src-tauri/src/terminal.rs:267-301 | a reachable state in which an attempt is cancelled and its driver's next step connects |
| Text.TrimShape | crates/contracts/src/connection.rs:73-93 | trimming cuts exactly the white space at both ends |
| Text.BlankIsAllWhitespace | crates/contracts/src/connection.rs:74-104 | a text is blank exactly when it is white space throughout |
| Text.DecimalInjective | apps/desktop/src-tauri/src/openssh_import.rs:261-261 | different numbers have different numerals |
| Contracts.Resolve | crates/contracts/src/connection.rs:336-352 | each field gets the connection's value if it has one, else its group's, else the global one, else 10 or 30 |
| Contracts.ValidateReportsFirst | crates/contracts/src/connection.rs:73-138 | a configuration is reported the first complaint it deserves in the fixed order, and is valid if and only if it deserves none |
| CatalogTables.RunKeepsRows | crates/persistence/src/repository.rs:737-796 | over every run of repository operations each stored connection is valid, stands under its own id and refers to a group and key that exist |
| CatalogTables.DeleteGroupKeepsRows | crates/persistence/src/repository.rs:267-291 | deleting a group leaves no connection referring to it |
| CatalogHistory.GoesThroughWhen | crates/persistence/src/repository.rs:236-500 | an operation goes through if and only if its arguments are sound, the tables can hold its effect and SQLite accepts it; the error tells unsound arguments from the rest |
| CatalogHistory.TableIsHistory | crates/persistence/src/repository.rs:347-460 | over every run the configuration, star and liveness stored for a connection are what the operations that went through made of it, in their order |
| CatalogHistory.RevisionsCountWrites | crates/persistence/src/repository.rs:262-772 | over every run a connection's revision grows by exactly one for each time an operation that went through wrote its row, told from the operations |
| CatalogHistory.GroupsAreHistory | crates/persistence/src/repository.rs:236-291 | over every run a group is what its last save made of it, unless deleted since |
| ConnectionRepository.ValidateOrderIds | crates/persistence/src/repository.rs:922-931 | accepts exactly the lists with no blank and no repeated id |
| ConnectionRepository.ValidateCompleteOrder | crates/persistence/src/repository.rs:933-945 | accepts exactly the lists of the same length that contain every stored id |
| ConnectionRepository.AcceptedIsPermutation | crates/persistence/src/repository.rs:922-945 | the two checks together accept exactly the permutations of the stored ids, by counting |
| ConnectionRepository.Repository.QueryIds | crates/persistence/src/repository.rs:947-961 | lists each live id of the group once and nothing else |
| ConnectionRepository.Repository.NextSortOrder | crates/persistence/src/repository.rs:737-760 | one more than the largest key of the group's live connections, or 0 |
| ConnectionRepository.Repository.SaveConnectionRecord | crates/persistence/src/repository.rs:737-818 | the whole new tables, and no change when a reference does not exist |
| ConnectionRepository.Repository.SaveConnection | crates/persistence/src/repository.rs:347-365 | the new tables, or an error and the old ones |
| ConnectionRepository.Repository.SaveRecords | crates/persistence/src/repository.rs:378-385 | the loop stores all records in order or reports the first that is refused |
| ConnectionRepository.Repository.ImportConnections | crates/persistence/src/repository.rs:367-389 | all or nothing: every configuration is checked before any is stored, and a refused record undoes the rest |
| ConnectionRepository.Repository.Renumber | crates/persistence/src/repository.rs:484-495 | the updating loop gives each listed live row its index in the list |
| ConnectionRepository.Repository.ReorderConnections | crates/persistence/src/repository.rs:462-500 | the renumbered tables for an accepted list, the old ones otherwise |
| ConnectionRepository.Repository.LoadSettingOverride | crates/persistence/src/repository.rs:585-618 | the override of a scope, or none when it stores nothing |
| ConnectionRepository.Repository.GetSettings | crates/persistence/src/repository.rs:93-116 | for a live connection each setting is the one stored for it, else for its current group, else for all, else 10 or 30; none for an unknown or deleted connection, an error for a blank id |
| OrderKeys.UpsertPlaces | crates/persistence/src/repository.rs:737-796 | a row that is new to its group, or restored, goes after every live one; a row saved into its own group keeps its place; no other row is touched |
| OrderKeys.ReorderAssigns | crates/persistence/src/repository.rs:462-500 | the listed rows get 0, 1, 2, .. in list order, every other row and all group memberships stay |
| OrderKeys.ReorderAcceptsPermutations | crates/persistence/src/repository.rs:922-945 | a reorder goes through exactly for a permutation of the live ids of the group, otherwise nothing changes |
| OrderKeys.DeleteGroupOrder | crates/persistence/src/repository.rs:267-291 | deleting a group loses no live connection and keeps the keys distinct if and only if none of the group's keys is taken among the ungrouped |
| OrderKeys.DeleteGroupBreaksOrder | crates/persistence/src/repository.rs:267-291 | a well-formed catalog in which it does not |
| OrderKeys.OperationKeepsOrder | crates/persistence/src/repository.rs:347-500 | each operation keeps the keys of every group pairwise distinct |
| OrderKeys.RunKeepsOrder | crates/persistence/src/repository.rs:347-500 | so does every run in which no group is deleted under that clash |
| SettingsHistory.WritesOneScope | crates/persistence/src/repository.rs:798-872 | writing a scope sets or unsets its two fields and leaves every other scope alone |
| SettingsHistory.TableIsLatest | crates/persistence/src/repository.rs:391-419 | after any run the table holds the latest word of the history on every scope and field |
| SettingsHistory.EffectiveIsLatest | crates/persistence/src/repository.rs:570-621 | the resolved value is the latest said for the connection if there is one, else for its current group, else globally, else the default, as four cases |
| SettingsHistory.ImportForgetsOwnSettings | crates/persistence/src/repository.rs:367-389 | an import leaves every connection it writes without settings of its own |
| Sorting.SortIsSorted | apps/desktop/src/App.tsx:3028-3033 | sorting under a linear order gives a sorted arrangement of the same elements |
| Sorting.SortIgnoresOrder | apps/desktop/src/App.tsx:3043-3050 | the result does not depend on the order the elements come in |
| ConnectionTree.BranchShape | apps/desktop/src/App.tsx:3025-3060 | a branch of the tree is the sorted list of exactly the live connections of its group |
| TreeShape.ShownUnder | apps/desktop/src/App.tsx:3025-3060 | in any catalog a connection is shown under its group if the catalog has it and among the ungrouped otherwise |
| TreeShape.TreeIs | apps/desktop/src/App.tsx:3025-3060 | one branch per group in order of place, name and id, last the ungrouped if any, and in each exactly the live connections of its group, favourites first, then by place, name and id |
| TreeShape.EveryConnectionOnce | apps/desktop/src/App.tsx:3025-3060 | every live connection stands at exactly one place of the tree |
| ConnectionTree.MoveId | apps/desktop/src/App.tsx:3161-3167 | exchanges the first occurrence with its neighbour in place, or changes nothing and says so |
| ConnectionTree.RefillInPlace | apps/desktop/src/App.tsx:865-871 | writes the moved ids, in order, into the places the moving ids had |
| ConnectionTree.MoveConnection | apps/desktop/src/App.tsx:856-883 | the click asks the repository for the specified order, or does not ask |
| ConnectionTree.MoveIsAdjacentSwap | apps/desktop/src/App.tsx:861-871 | the order asked for exchanges two neighbours of the full list exactly when the neighbour exists and is a favourite just if the connection is; otherwise nothing is asked |
| ConnectionTree.MoveIsAccepted | crates/persistence/src/repository.rs:462-500 | the backend accepts the order a click asks for |
| ConnectionTree.OtherBranchStays | apps/desktop/src/App.tsx:3034-3053 | reordering one group leaves the shown list of every other group as it was |
| ConnectionTree.TwoCanMove | apps/desktop/src/App.tsx:856-883 | the hypotheses of the next row can be met, by a catalog of two connections |
| ConnectionTree.MoveSwapsNeighbours | apps/desktop/src/App.tsx:856-883 | full stack: after one click and a new listing the tree is the old one with those two neighbours exchanged in their branch and nothing else changed |
| OpenSshScan.KeptIsPrefix | apps/desktop/src-tauri/src/openssh_import.rs:461-486 | stripping keeps exactly what precedes the first `#` that is neither quoted nor escaped |
| OpenSshScan.StripCommentLoop | apps/desktop/src-tauri/src/openssh_import.rs:461-486 | the scanning loop computes that |
| OpenSshScan.SameStates | apps/desktop/src-tauri/src/openssh_import.rs:461-528 | on every prefix the two scanners are in the same quote and escape state |
| OpenSshScan.SplitWordsLoop | apps/desktop/src-tauri/src/openssh_import.rs:488-528 | the splitting loop computes the specified words |
| OpenSshScan.LinesConcat | apps/desktop/src-tauri/src/openssh_import.rs:368-368 | text that ends its last line can be followed by more text without changing a line |
| OpenSshParse.ParseConfig | apps/desktop/src-tauri/src/openssh_import.rs:365-411 | the loop with its accumulator and current stanza computes the specified configuration |
| OpenSshParse.ParseLine | apps/desktop/src-tauri/src/openssh_import.rs:369-406 | one line opens a stanza, sets an unset option of the current stanza or of the defaults, or is ignored |
| OpenSshParse.ParserRefinesMeaning | apps/desktop/src-tauri/src/openssh_import.rs:365-438 | the accumulator yields, before any Host and per stanza, the first value of each keyword in any case |
| OpenSshParse.ParseConcat | apps/desktop/src-tauri/src/openssh_import.rs:365-411 | appending a file with no option before its first Host appends its stanzas, lines counted on, and keeps the first file's defaults |
| OpenSshReading.BareValueIsRead | apps/desktop/src-tauri/src/openssh_import.rs:440-459 | after a known keyword in any case, any separator and before any comment, a value without quotation marks, backslashes and hash signs is read as it is written |
| OpenSshReading.QuotedValueIsRead | apps/desktop/src-tauri/src/openssh_import.rs:530-540 | in quotation marks of either kind a value without that mark and without backslashes is read as what is between the marks |
| OpenSshReading.HostLineIsRead | apps/desktop/src-tauri/src/openssh_import.rs:488-528 | a Host line of bare words, quoted words and words written with backslashes, with any white space between them, is read as exactly its words |
| OpenSshReading.FinalBackslash | apps/desktop/src-tauri/src/openssh_import.rs:488-528 | a backslash at the very end of a Host line is part of its last word |
| OpenSshReading.KeywordAloneIsIgnored | apps/desktop/src-tauri/src/openssh_import.rs:440-459 | a keyword without an argument is ignored, with or without an equals sign and before any comment |
| OpenSshReading.UnknownIsIgnored | apps/desktop/src-tauri/src/openssh_import.rs:413-438 | a line with any other keyword is ignored |
| OpenSshReading.CommentIsIgnored | apps/desktop/src-tauri/src/openssh_import.rs:441-446 | a line with white space or a comment only is ignored |
| OpenSshReading.LinesAre | apps/desktop/src-tauri/src/openssh_import.rs:368-368 | lines end with a line feed, with or without a carriage return before it, the last one also with neither |
| OpenSshRoundTrip.WordsRoundTrip | apps/desktop/src-tauri/src/openssh_import.rs:488-528 | words printed in quotation marks with escapes are split back into themselves, whatever they contain |
| OpenSshRoundTrip.QuotedIsKept | apps/desktop/src-tauri/src/openssh_import.rs:461-486 | a value without quotation marks survives the comment scanner once quoted |
| OpenSshRoundTrip.ValueRoundTrip | apps/desktop/src-tauri/src/openssh_import.rs:441-486 | a printed option is read back if and only if no `#` of its value stands where the scanner, started inside the quotation marks, is neither quoted nor escaped |
| OpenSshRoundTrip.SurvivorIsKept | apps/desktop/src-tauri/src/openssh_import.rs:461-486 | that is exactly when the comment scanner leaves the quoted value whole |
| OpenSshRoundTrip.MarkExposesComment | apps/desktop/src-tauri/src/openssh_import.rs:461-486 | the value of a letter, a quotation mark and a `#` is not read back |
| OpenSshRoundTrip.HostIsRead | apps/desktop/src-tauri/src/openssh_import.rs:372-390 | a printed Host line is read back with exactly its aliases |
| OpenSshRoundTrip.ConfigRoundTrip | apps/desktop/src-tauri/src/openssh_import.rs:365-528 | parsing a printed configuration gives it back up to line numbers |
| OpenSshImport.PortRoundTrip | apps/desktop/src-tauri/src/openssh_import.rs:542-550 | the numerals of 1 to 65535 are read back, every other number gives 22 and an error |
| OpenSshImport.PortsRead | apps/desktop/src-tauri/src/openssh_import.rs:542-550 | a text is read as a port if and only if it is an optional plus sign, zeros and the numeral of a number up to 65535 |
| OpenSshImport.SourceIdInjective | apps/desktop/src-tauri/src/openssh_import.rs:261-261 | equal source ids mean equal line and equal alias |
| OpenSshImport.StanzaBeforeDefaults | apps/desktop/src-tauri/src/openssh_import.rs:220-240 | each option of an alias is its stanza's value, else the one given before any Host |
| OpenSshPrecedence.ParserSeesFile | apps/desktop/src-tauri/src/openssh_import.rs:365-438 | parsing keeps of the file the comparison is about, with every value given, the first value of each option before any Host and in each block |
| OpenSshPrecedence.ImportedIsObtained | apps/desktop/src-tauri/src/openssh_import.rs:220-240 | HostName, Port and User: what is imported is the first value ssh_config(5) has in force exactly when the stanza applies and no earlier value differs, or it gives none and no matching block does unless one stands before any Host, or a negated pattern excludes the alias and the first value in force is the same; IdentityFile: it is the whole list in force exactly when the list has at most one value, given in the stanza or before any Host, or a negated pattern excludes the alias and the list is that one value |
| OpenSshPrecedence.EarlierBlockIgnored | apps/desktop/src-tauri/src/openssh_import.rs:220-240 | for every host pattern that admits a name and any two values of HostName, Port or User: a source text in which the first is obtained while the second is imported |
| OpenSshPrecedence.LaterBlockIgnored | apps/desktop/src-tauri/src/openssh_import.rs:220-240 | for every field: a source text in which only a later matching Host line gives a value, which is obtained while none is imported |
| OpenSshPrecedence.SecondIdentityIgnored | apps/desktop/src-tauri/src/openssh_import.rs:220-240 | a source text in which two identity files are obtained and the first is imported |
| OpenSshPrecedence.OwnHostMatches | apps/desktop/src-tauri/src/openssh_import.rs:552-557 | an alias that is no pattern is matched by its own Host line unless a negated pattern there excludes it |
| OpenSshImport.SameIdSameItem | apps/desktop/src-tauri/src/openssh_import.rs:214-271 | two preview items with the same source id agree in every field |
| OpenSshImport.AliasStandsOnItsLine | apps/desktop/src-tauri/src/openssh_import.rs:372-390 | every alias found in a text is a word of the Host line that stands at its line number |
| OpenSshImport.FindDuplicate | apps/desktop/src-tauri/src/openssh_import.rs:289-307 | nothing is found exactly when no connection has the name or the endpoint; otherwise the first of that name, or the first with that endpoint if none has the name |
| OpenSshImport.PreviewStanza | apps/desktop/src-tauri/src/openssh_import.rs:215-272 | the inner loop shows every concrete alias and counts every pattern |
| OpenSshImport.BuildPreview | apps/desktop/src-tauri/src/openssh_import.rs:204-280 | the nested loops give one item per concrete alias in file order, under the stanza's options and then the defaults; items and ignored patterns add up to all aliases |
| OpenSshImport.Collect | apps/desktop/src-tauri/src/openssh_import.rs:87-125 | the selection loop stores exactly the taken items in order; imported + overwritten + skipped is the number of selected items and imported + overwritten the number of configurations |
| OpenSshImport.ImportConnections | apps/desktop/src-tauri/src/openssh_import.rs:51-125 | when each error is returned; a vanished duplicate is never one; otherwise the batch of the loop |
| ImportedCatalog.ItemErrors | apps/desktop/src-tauri/src/openssh_import.rs:235-259 | each error, the port used and the identity file warning, exactly when there is cause |
| ImportedCatalog.ItemDuplicate | apps/desktop/src-tauri/src/openssh_import.rs:252-268 | a duplicate is warned of and named exactly when some connection has the name or the endpoint, and the one named does |
| ImportedCatalog.NameBeforeEndpoint | apps/desktop/src-tauri/src/openssh_import.rs:289-307 | if some connection has the item's name, the duplicate named is one of them |
| ImportedCatalog.ItemFields | apps/desktop/src-tauri/src/openssh_import.rs:220-271 | id, alias, host and user name of an item, told from its alias and options |
| ImportedCatalog.ItemIdentityFile | apps/desktop/src-tauri/src/openssh_import.rs:559-569 | an identity file below the home directory is joined to it, any other is named as written |
| ImportedCatalog.WhichAreShown | apps/desktop/src-tauri/src/openssh_import.rs:215-219 | offered are exactly the aliases without `*` and `?` that do not begin with `!`, each with its options |
| ImportedCatalog.WhichAreStored | apps/desktop/src-tauri/src/openssh_import.rs:87-125 | stored are exactly the selected items without an error that are no duplicate or are to overwrite it |
| ImportedCatalog.StoredFields | apps/desktop/src-tauri/src/openssh_import.rs:309-336 | every field of a new connection, and what an overwritten one keeps |
| ImportedCatalog.ImportableWhen | apps/desktop/src-tauri/src/openssh_import.rs:242-251 | an item has no error exactly when host and user name are not blank and the port, if given, is 1 to 65535 |
| ImportedCatalog.ConfigIsValid | apps/desktop/src-tauri/src/openssh_import.rs:309-332 | the configuration made from a usable item passes validation exactly when its alias is not blank |
| ImportedCatalog.ImportMerges | apps/desktop/src-tauri/src/openssh_import.rs:127-133 | the import is stored if and only if no stored alias is blank; then every configuration is stored, every live row keeps its group, place and star, unmentioned rows do not change, new rows come last among the ungrouped |
| ImportedCatalog.BlankAliasRefusesAll | apps/desktop/src-tauri/src/openssh_import.rs:104-133 | source texts whose two importable aliases are refused together and one of them accepted alone |
| Transfer.TemporaryNameInjective | crates/ssh-core/src/sftp.rs:283-289 | two temporary names are equal only for the same target, process and number |
| Transfer.CopyAndHash | crates/ssh-core/src/sftp.rs:222-247 | the summary is that of the whole source whatever happened to what was written; the destination holds what the faults made of the copy and nothing else changed |
| Transfer.SftpClient.HashRemoteFile | crates/ssh-core/src/sftp.rs:197-207 | a summary only of the whole stored content, and exactly which faults prevent it |
| Transfer.SftpClient.HashLocalFile | crates/ssh-core/src/sftp.rs:249-255 | the same for a local file |
| Transfer.SftpClient.UploadFile | crates/ssh-core/src/sftp.rs:68-125 | an upload is refused and changes nothing or is the specified delivery; Ok means the target holds the source's bytes (under an injective hash), the temporary file is gone and no other path changed; whatever happens only those two paths are touched |
| Transfer.SftpClient.DownloadFile | crates/ssh-core/src/sftp.rs:127-195 | the same for a download, whose temporary file must be new |
| Transfer.FaultFreeDelivers | crates/ssh-core/src/sftp.rs:68-195 | without a fault every delivery succeeds and stores the source's bytes |
| Transfer.CopiedWhen | crates/ssh-core/src/sftp.rs:222-247 | a copy goes through if and only if none of the reads it makes, the one that finds the end included, and none of its writes fails |
| Transfer.ReadsThroughWhen | crates/ssh-core/src/sftp.rs:197-207 | reading back goes through if and only if none of its reads fails |
| Transfer.SucceedsWhen | crates/ssh-core/src/sftp.rs:84-124 | a delivery succeeds if and only if no operation of it reports a failure and what is read back has the length and hash of what was sent |
| Transfer.MismatchWhen | crates/ssh-core/src/sftp.rs:109-124 | a mismatch with both hashes is returned if and only if nothing is reported and yet what is read back differs; every other failure is an input or output error |
| Transfer.UploadBegins | crates/ssh-core/src/sftp.rs:68-83 | the exact condition under which an upload begins, and what each refusal means |
| Transfer.DownloadBegins | crates/ssh-core/src/sftp.rs:127-146 | the same for a download |
| Transfer.TemporaryIsBeside | crates/ssh-core/src/sftp.rs:291-302 | the temporary file of a download is a hidden one in the directory of its target |
| Transfer.DeliveryEnds | crates/ssh-core/src/sftp.rs:84-124 | everything a delivery can end in, for every script: result and file system by what failed and what took effect |
| Transfer.DeliveredOk | crates/ssh-core/src/sftp.rs:109-124 | success means the target holds what was sent, the temporary file is gone and nothing else changed |
| Transfer.DeliveryFrame | crates/ssh-core/src/sftp.rs:84-124 | only the temporary file and the target are ever touched, the target only once the rename was asked for, and a mismatch is reported only after the rename |
| Transfer.TemporaryStays | crates/ssh-core/src/sftp.rs:86-106 | there is a file of the temporary name afterwards if and only if its creation took effect while reporting a failure, or nothing was created where one was before, or the delivery got no further than it and removing it had no effect |
| Transfer.TargetStays | crates/ssh-core/src/sftp.rs:96-122 | after an error the target is there if and only if the rename took effect while reporting a failure, or it succeeded and removing the target had no effect |
| Transfer.ErrorTraces | crates/ssh-core/src/sftp.rs:84-124 | an error leaves the file system as it was if and only if it leaves no target and under the temporary name what was there, which is nothing where no file had it |
| Transfer.OkTouchesTargetOnly | crates/ssh-core/src/sftp.rs:84-86 | a success changes nothing but the target if and only if there was no file of the temporary name |
| Transfer.CreationLeftBehind | crates/ssh-core/src/sftp.rs:86-86 | a script under which an empty temporary file stays behind |
| Transfer.UploadTruncates | crates/ssh-core/src/sftp.rs:86-86 | a successful upload after which a file of the temporary name is gone |
| Migrations.RepeatDoesNothing | crates/persistence/src/database.rs:104-119 | a migrated database is at the last version and migrating it again does nothing |
| Migrations.PathIndependence | crates/persistence/src/database.rs:92-144 | migrating in two steps ends like migrating at once, in the same database or with the same failure, if and only if the first step does not refuse a newer database (or both lists are the same) |
| Migrations.GoesThroughWhen | crates/persistence/src/database.rs:92-144 | a run goes through, and to which database, if and only if the versions increase, the database is not newer and a sequence of schemas leads there, each what the executor makes of the one before and the next migration above the old version |
| Migrations.FailsWhen | crates/persistence/src/database.rs:125-136 | a failure names the first migration whose SQL fails on the schema reached before it |
| Migrations.EncryptedDatabase.ApplyMigrations | crates/persistence/src/database.rs:92-144 | success means the schema was led through every migration above the version in order, a failed migration is the first that fails, and any failure, an unreadable version and a failed begin or commit included, changes nothing |

## Left out

- User interface: rendering, dialogs, translations, preferences, menus, tray and window handling.
- Protocol and storage libraries: SSH, SFTP packets, the asynchronous runtime, IPC, xterm, SQLite and the keyring appear only as queues, maps and results that may be failures.
- Cryptography: the database key, the credential store, private key loading, the updater. The transfer hash is any function, injective where a theorem says so.
- OpenSshPrecedence.Obtained: arguments are compared as text, so `none`, `%` tokens and a repeated identity file are taken as written.
- `Match` and `Include` lines: the importer ignores them, and the comparison with ssh_config(5) is about files without them.
- Integer widths: sequence numbers (u64 and JavaScript numbers), keys, revisions and versions are unbounded; the port's u16 range is modelled where it is parsed.
- TerminalClosing.System: one session and one window; `close_all` is its part for that session. A freed queue slot goes to whichever request asks first, not to the sender that has waited longest; the time limit on the cleanup at exit is not modelled.
- SessionManager.SshSessionManager.BeginAttempt: whether the id is a random UUID is a given boolean; the parser is not part of this model.
- SessionManager.SshSessionManager: the state machine of an attempt is held as its stage, not as an object inside the map.
- AttemptDrivers.NoLeakedAttempts: `clear` is excluded, with a reachable state that shows why; what holds with it is `ClosingEvents.ClosedUnlessCleared`, which needs attempt ids to be fresh, and the cancellation theorem allows it.
- Fairness of the runtime: that a step which can be taken is taken at some time is not modelled; `TerminalProtocol.SilenceDrains` bounds how many such steps there are.
- CatalogTables.Saved: reasons for SQLite to refuse a statement other than missing references, taken group names and unknown owners are one given boolean.
- ConnectionRepository.Repository.ReorderConnections: the conversion of a stored key to u32 when it is listed is not modelled.
- Group reordering, the collapsed flag, recent-connection counts, host fingerprints, key references as records, and timestamps: rows with one or two columns that would add only easy members.
- Setting values: the JSON text around a stored number is not modelled.
- ConnectionTree.BuildTree: `localeCompare` is any total order and the library sort an insertion sort; both are fixed by the proof that a sorted arrangement is unique.
- OpenSshImport.ExpandHome: joining a path to the home directory is a given function, as is the digest of the source text; reading the file and its size limit are left out.
- Text.Lower: only ASCII letters have case, as in the comparisons the code makes.
- OpenSshRoundTrip.ConfigRoundTrip: holds for texts without line feeds, aliases that are not empty, at least one alias per stanza and values with no exposed `#`; others cannot be printed on a line.
- Transfer.FileSystem: used by one transfer at a time, reads that do not fail return what is stored, paths are not resolved, and elapsed time and speed are not part of the summary.
- Directory listing and its order, canonical paths and permissions: a sort by two fields.
