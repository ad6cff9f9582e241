# Verified models of Kodosi's core

This project models the parts of Kodosi whose behaviour is hardest to see from one function, and
proves what they keep. Each component has a specification on values (`...States`, `...Views`,
`Gates`, `Ledgers`), classes whose methods update their fields as the program does and are proved
against that specification, and lemmas about every run of its steps. A run is a sequence of
handler calls in any order. Time is a natural number of nanoseconds. The laws come in two kinds:
what never happens, and what does happen exactly when. The second kind speaks of the turns of the
run and not of the specification's functions; `Histories` says what holds since it began in one
turn and did not end in a later one.

- **Live video.** `FlowStates` and `Flows` are one window's flow: seats, byte accounting, wrapped
  frame ids, the sliding least round trip, the bitrate controller, and the rule that drops
  hopeless viewers. `Gates` and `Delivery` are the way of a picture from the encoder to a viewer:
  the engine's link, the host's queue of a window, and the viewer's seat, each of which may drop a
  frame. `DeliveryRuns` puts them in series, over all windows and viewers, with windows that open
  and close and encoders that start again, and shows that a viewer never gets a delta without the
  picture before it. One lemma about any gate does the work (`GateStep`). `FrameRuns` and `GateRuns`
  add what each gate lets through, and `SteerRuns` what each turn makes of the bitrate.
- **A driver's view of a shared browser.** `DriverMessages`, `DriverViews`, `Drivers`
  and `Connections` are the filter between an agent's driver and the browser. `DriverRuns`,
  `HeldNews`, `HeldOrder`, `DriverProvenance` and `DriverIsolation` prove over every connection
  that the record of what the driver was told is exact, that news which waits comes once and never
  after its page ended, when it keeps its order, where sessions and targets come from, and that
  other windows make no difference. `DriverReach`, `DriverCommands` and `WaitingNews` say which
  messages reach the driver, which of its commands go out, and what becomes of news that comes early. Request ids are not reused while they are unanswered.
- **Shell quoting.** `ShellQuoting` is the printer. `PosixWords` (sections 2.2.1 and 2.2.2 of the
  Shell Command Language of POSIX.1-2017, with `$'...'` of section 2.2.4 of POSIX.1-2024),
  `FishWords`, `PowerShellWords`, `CmdWords` (the argument rules of the Microsoft C runtime) and
  `NuWords` are readers, and `ShellRoundTrip` shows that each undoes the printer on every text.
- **Schema flattening.** `Schemas` holds the validator that gives schemas their meaning,
  `Flattening` the merge of two schemas, and `ProtocolShapes` the structures and enumerations that
  are built with it.
- **Tabs and windows.** `EngineStates`, `Engines` and `EngineRuns` are the engine's windows, tabs,
  host pages, dialogs and frame handles under asynchronous browser creation. `EngineDraws` says
  which tab of a window draws after each step, and `EngineTabs` what the engine has by what happened
  and when it may end. `Placements` is how the host takes in the engine's report.
- **Requests and attention.** `Ledgers`, `Attentions`, `Runtimes`, `LedgerRuns`, `LedgerHistory`,
  `AttentionRuns` and `CallRuns` are the answer ledger and the rules for terminals that call for a
  person.
- **Launching agents.** `LaunchPlans` is the launch planner with its saved picks, `LaunchLines` what
  its plans are by the lists, and `AccountCommands` the command that starts an account and how its folder is read back.

`Wrappers`, `Text`, `Filters` and `Sizes` hold what the others share.

Three promises are false as they stand. Each holds exactly under a condition, and a run shows it fail:

- A driver's commands name only its own targets and sessions. A command that passes does so unless
  it is a `Page.bringToFront` in an own session whose parameters name something else: nobody looks
  at them (`OnlyBringToFrontNamesOthers`, and `BringToFrontNamesAnother` for a run).
- Messages about a page keep their order. They do exactly while no `Target.targetCrashed` passes
  when earlier news of its page still waits (`OrderHoldsExactly`, and `CrashRunBreaksOrder` for a
  run). Even then each message comes once and nothing else is out of order (`NewsKeepsItsOrder`).
- An answer goes to who asked and ends its request. It does unless its kind is
  `repositories.result` or `repositories.error`, which `EventBody::request_id` does not list
  (`AnswersReachWhoAsked`): these go to every client and leave their request open, so 256 of them
  leave a client no further request (`RepositoriesUseUpAClient`).

## Model

| member | source | states |
|---|---|---|
| Flows.Seat.Measure | browser/crate/src/flow.rs:60-69 | the new round trip enters the least of the seat and of its window, and a window that lasted long enough completes |
| Flows.Seat.Frame | browser/crate/src/flow.rs:117-136 | a seat over its limit takes no frame and goes once it was over for 15 s; otherwise a live seat takes every frame, another one only a key frame |
| Flows.Seat.Ack | browser/crate/src/flow.rs:168-184 | the first frames that are not newer across a wrap go, their bytes no longer wait, and the last of them is measured |
| Flows.Flow.Frame | browser/crate/src/flow.rs:112-141 | all seats at once: who takes the frame, whether a key frame is asked for, and who is dropped, each listed exactly once |
| Flows.Flow.Lost | browser/crate/src/flow.rs:143-154 | the seat forgets the lost frame and its bytes if it was the last, and waits for a key frame; other seats stay |
| Flows.Flow.AskKeyframe | browser/crate/src/flow.rs:156-166 | at most one key frame is allowed a second, and one that is allowed starts the wait |
| Flows.Flow.LongestLive | browser/crate/src/flow.rs:193-199 | the longest queue of the viewers that get frames, or none when nobody does |
| Flows.Flow.Steer | browser/crate/src/flow.rs:187-218 | a step of the controller by the longest queue, and the new bitrate exactly when it changed |
| FlowRuns.SeatsAreApart | browser/crate/src/flow.rs:112-184 | what a step does to one viewer's seat depends on that seat alone |
| FlowRuns.WaitingIsBounded | browser/crate/src/flow.rs:112-184 | in every reachable state the bytes that wait are the sum of the frames on their way, and never above the limit and one frame |
| FlowRuns.KeyframesAreApart | browser/crate/src/flow.rs:156-166 | in every run the flow has the engine asked for a key frame at most once a second |
| FrameRuns.FramesGoExactly | browser/crate/src/flow.rs:117-136 | in every run a frame goes to a viewer exactly when at most 2 MiB are on its way and it is a key frame, or the frame before it went to the same seat and was not lost |
| FrameRuns.LostTakesOffTheLast | browser/crate/src/flow.rs:143-154 | a frame lost right after it went out is on its way no more, and losing another one takes nothing off |
| FrameRuns.SeatsComeAndGo | browser/crate/src/flow.rs:104-141 | a viewer has an empty seat after it joins, none after it leaves, and otherwise only a frame takes its seat |
| FrameRuns.AsksExactly | browser/crate/src/flow.rs:112-166 | the engine is asked for a key frame exactly when a viewer asks, or gets nothing of a delta with at most 256 KiB on its way, and no ask was made in the second before |
| AckRuns.OutstandingAreSent | browser/crate/src/flow.rs:112-184 | in every run the frames on their way are distinct, rising, and have the ids of their unwrapped numbers |
| AckRuns.AckTakesOffWhatIsNotNewer | browser/crate/src/flow.rs:168-184 | within half the id range, an ack removes exactly the frames that are not newer than the acked one, across any wrap |
| HopelessRuns.DroppedExactlyWhenStuck | browser/crate/src/flow.rs:117-131 | a frame drops a viewer exactly when it stayed over the limit without a break, in its current seat, since a frame at least 15 s ago |
| HopelessRuns.StuckGetsNothing | browser/crate/src/flow.rs:117-131 | in that time nothing is sent to it |
| RoundRuns.LeastRoundIsTheSlidingMinimum | browser/crate/src/flow.rs:60-69 | in every run the least round trip is the least of all samples of the last completed window and the current one |
| RoundRuns.QueueNeverSaturates | browser/crate/src/flow.rs:53-58 | the least is never above the newest sample, so the queue is their plain difference |
| BitrateRuns.ControlFollowsTheSteers | browser/crate/src/flow.rs:187-218 | nothing but the steers of a run moves its controller |
| BitrateRuns.BitrateStaysInBounds | browser/crate/src/flow.rs:203-212 | the bitrate never leaves its bounds |
| BitrateRuns.ChangesAreApart | browser/crate/src/flow.rs:188-192 | two changes of the bitrate lie at least 250 ms apart |
| BitrateRuns.NoRiseSoonAfterCongestion | browser/crate/src/flow.rs:201-211 | no rise comes within 2 s of a steer that found congestion |
| BitrateRuns.CongestionReachesTheLowest | browser/crate/src/flow.rs:201-212 | congestion at seventeen steers takes any bitrate to the lowest |
| BitrateRuns.EightyFourRaises | browser/crate/src/flow.rs:207-212 | each raise is strict below the highest bitrate, and 84 of them reach it from anywhere |
| BitrateRuns.CalmReachesTheHighest | browser/crate/src/flow.rs:201-212 | calm at 84 steers, none of them sooner than 2 s after the last cut before, takes any bitrate to the highest |
| BitrateRuns.RunsStayInBounds | browser/crate/src/flow.rs:112-218 | in every run of the flow's handlers the bitrate is in its bounds |
| BitrateRuns.RunChangesAreApart | browser/crate/src/flow.rs:112-218 | in every timed run of the handlers two changes of the bitrate lie at least 250 ms apart |
| BitrateRuns.RunRisesWait | browser/crate/src/flow.rs:112-218 | in every timed run of the handlers a rise comes at least 2 s after each steer that found congestion |
| SteerRuns.SteersExactly | browser/crate/src/flow.rs:187-218 | the bitrate after each turn of a run: a steer 250 ms after the last one that looked cuts to four fifths above 40 ms of delay, raises a sixteenth below 20 ms when none found congestion for 2 s, and nothing else changes it |
| Delivery.Link.SendFrame | browser/engine/src/link.rs:36-49 | a delta of a broken window and a frame that finds no room are refused and break the window, any other goes in and mends it |
| Delivery.Routes.DeliverFrame | browser/crate/src/engine.rs:539-557 | the host posts, drops or refuses a frame, and asks the engine for a key frame exactly when the window falls behind |
| Delivery.Live.Frame | browser/crate/src/window.rs:575-605 | ids wrap, every taker that its pipe does not reach has lost the frame, and hopeless viewers lose their pipes |
| Delivery.Live.Watch | browser/crate/src/window.rs:553-559 | a viewer that says it watches gets a new seat that waits for a key frame |
| Delivery.Live.Free | browser/crate/src/window.rs:266-274 | a pipe that goes frees only the seat that its own join took |
| DeliveryRuns.GateStep | browser/engine/src/link.rs:36-49 | any gate that lets deltas out only while open, and is open only after a frame it let out, lets out a stream in order that decodes |
| DeliveryRuns.HandledSeat | browser/crate/src/flow.rs:112-154 | a viewer is live after a frame only if the frame reached it, and a delta reaches it only if it was live |
| DeliveryRuns.RunsKeep | browser/crate/src/engine.rs:539-557 | the invariant of the whole way, in every run, for every window and viewer |
| DeliveryRuns.DeliveredPicturesDecode | browser/crate/src/window.rs:575-605 | from a seat call on, what a viewer gets is made by the window's encoders, in their order and each picture once; it first gets a key frame, and right before each delta the very picture that the encoder made right before it |
| GateRuns.LinkTakesExactly | browser/engine/src/link.rs:36-49 | in every run the link takes a picture exactly when less than four wait and it is a key frame or its predecessor was taken |
| GateRuns.HostPostsExactly | browser/crate/src/engine.rs:539-557 | the host queues a picture of an open window exactly when there is room and it is a key frame or its predecessor was queued |
| GateRuns.ViewerGetsExactly | browser/crate/src/window.rs:575-605 | a viewer gets the next picture exactly when it has a seat with at most 2 MiB on its way and a pipe with room, and the picture is a key frame or it got the predecessor |
| GateRuns.OnItsWayIsGot | browser/crate/src/window.rs:575-605 | a picture counts as on its way to a viewer exactly when it goes there, with the next id and its size |
| GateRuns.GotCameTheWholeWay | browser/crate/src/window.rs:575-605 | what a viewer got, the host queued and the link took |
| GateRuns.OldPipesFreeNothing | browser/crate/src/window.rs:266-274 | a pipe that goes takes the viewer's pipe and seat exactly when it is the one of its last join |
| GateRuns.JoinsGivePipes | browser/crate/src/window.rs:266-274 | a join gives the viewer its pipe and leaves its seat |
| GateRuns.WatchesGiveSeats | browser/crate/src/window.rs:553-559 | a viewer that watches has a seat with nothing on its way |
| GateRuns.PipesGoWithSeats | browser/crate/src/window.rs:575-605 | a picture that takes a viewer's seat takes its pipe, and no other pipe |
| Drivers.View.Ask | browser/crate/src/driver.rs:297-369 | what becomes of a command, and that only a command whose answer matters leaves a mark |
| Drivers.View.Tell | browser/crate/src/driver.rs:371-419 | what becomes of a browser message and of the view |
| Drivers.View.TellEvent | browser/crate/src/driver.rs:421-506 | each kind of browser event passes, waits or is dropped by whose target it is |
| Drivers.View.TellTargets | browser/crate/src/driver.rs:508-533 | a target list keeps exactly the own pages in their order, the active one first, and the driver was told of them |
| Drivers.View.Release | browser/crate/src/driver.rs:536-551 | all waiting news of own pages goes out in its order, young news of unplaced pages waits on, the rest is gone |
| Drivers.View.Opened | browser/crate/src/driver.rs:553-562 | a tab that opened is the driver's own at once |
| Connections.Connection.FromDriver | browser/crate/src/driver.rs:118-156 | a command's turn is the step of a run that `DriverRuns` speaks of, with the answers that the driver gets at once, and a ninth tab that opens at a time is refused |
| Connections.Connection.FromBrowser | browser/crate/src/driver.rs:157-172 | a message's turn lets news go before it takes the message, against one placement |
| Connections.Connection.Placed | browser/crate/src/driver.rs:173-178 | a new placement lets the news of its pages go |
| Connections.Connection.TabOpened | browser/crate/src/driver.rs:179-183 | the answer to an opened tab goes before the news that it frees |
| DriverRuns.ViewsAreBounded | browser/crate/src/driver.rs:357-362 | at most 1024 commands and 256 news wait in every run |
| DriverRuns.ToldIsExact | browser/crate/src/driver.rs:438-475 | in every run the record of told targets is what the driver can work out from the messages it got |
| DriverRuns.DestroyedReachesWhoKnows | browser/crate/src/driver.rs:457-469 | the end of a page reaches the driver exactly when it knows the page, and it does not know it after |
| DriverReach.WaitsExactly | browser/crate/src/driver.rs:340-419 | a command waits for its answer exactly since it went out, until something answers its id or another command takes it |
| DriverReach.OpenedExactly | browser/crate/src/driver.rs:457-562 | a tab that the driver opened is its own until the browser says that it is gone |
| DriverReach.SessionsExactly | browser/crate/src/driver.rs:371-506 | a session is open for a target exactly since it started there in a way that is the driver's, until it is detached or starts anew |
| DriverReach.MessagesReachExactly | browser/crate/src/driver.rs:371-533 | in its turn a message reaches the driver exactly when it is of an open session, about an own page or a page that the driver knows, or an answer; a list that it asked for holds exactly its own pages, the active one first |
| DriverCommands.CommandsGoExactly | browser/crate/src/driver.rs:297-369 | which commands go to the browser, by the open sessions, the own targets and what waits |
| DriverCommands.CommandsShowExactly | browser/crate/src/driver.rs:297-369 | a command shows a tab exactly when it brings its session's page to the front or activates an own target |
| DriverCommands.CommandsAreAnsweredOnce | browser/crate/src/driver.rs:297-369 | a command that opens no tab and does not go out has exactly one answer, the one that its first failing test gives |
| DriverCommands.NewTabsOpen | browser/crate/src/driver.rs:118-156 | a command for a new tab opens one at its address, and is refused while eight open |
| DriverCommands.DialogsAreAnswered | browser/crate/src/driver.rs:297-320 | a dialog of an open session's page is answered in the host |
| DriverCommands.OpeningsAreAnsweredFirst | browser/crate/src/driver.rs:179-183 | a tab that opened or did not is the answer to its command, before any news |
| WaitingNews.NewsGoesWhenItsPageIsOwn | browser/crate/src/driver.rs:428-551 | news that came before its page had a place goes out in the first turn in which the page is the driver's, if it waited less than 5 s, its page did not end and less than 256 waited |
| WaitingNews.WaitingIsYoung | browser/crate/src/driver.rs:536-551 | nothing waits for 5 s or more |
| WaitingNews.OldestMakesRoom | browser/crate/src/driver.rs:438-456 | when 256 wait, exactly the oldest makes room |
| HeldNews.NewsKeepsItsOrder | browser/crate/src/driver.rs:428-475 | what the driver gets about a page, turn by turn, is what the browser told then, or news that it told before while the page lived ever since; each once, and in the browser's order but for events of a crash |
| HeldNews.NothingComesAfterItsEnd | browser/crate/src/driver.rs:457-469 | whatever the driver gets about a page in a turn after its end was told after its end |
| HeldOrder.OrderHoldsExactly | browser/crate/src/driver.rs:470-475 | no crash event of a run passes while news of its page waits, exactly when after every turn any placement of pages still leaves the order as it was told |
| HeldOrder.OrderIsVisible | browser/crate/src/driver.rs:428-475 | when no two messages about the page are the same, the order is kept exactly when what the driver got can be explained in the browser's order |
| HeldOrder.CrashRunBreaksOrder | browser/crate/src/driver.rs:470-475 | a run in which the driver hears of a crash before it hears of the change that came before the crash |
| DriverProvenance.SessionsAreGranted | browser/crate/src/driver.rs:381-418 | every session of a driver was attached to a target that was its own then, was its own command's answer, or started inside its own session |
| DriverProvenance.OwnTargetsAreRooted | browser/crate/src/driver.rs:286-295 | every own target was placed in this window, opened by this driver, or came inside one of its sessions |
| DriverProvenance.PassingCommandsAreOwn | browser/crate/src/driver.rs:297-369 | a command that goes to the browser names only granted sessions and own targets, unless it brings a page to the front, and none that would end the browser goes there |
| DriverProvenance.OnlyBringToFrontNamesOthers | browser/crate/src/driver.rs:297-369 | a command that goes to the browser names only the driver's own sessions and targets, exactly unless it brings a page to the front and its parameters name another |
| DriverProvenance.BringToFrontNamesAnother | browser/crate/src/driver.rs:303-309 | a run after which a command passes that names another window's target and session |
| DriverIsolation.StepIsHidden | browser/crate/src/driver.rs:371-533 | one message about another window changes neither the view nor what the driver gets |
| DriverIsolation.OthersMakeNoDifference | browser/crate/src/driver.rs:371-533 | deleting all that the browser says about other windows' targets and sessions from any run changes nothing for the driver |
| ShellRoundTrip.Quote | runtime/src/agents/mod.rs:463-487 | what is printed is read as one word, the text, by the shell of that name, and is typed without a raw line break or tab |
| ShellQuoting.Parts | runtime/src/agents/mod.rs:463-487 | the loop over breaks gives the runs of the text and its escapes, in order |
| ShellQuoting.QuotePart | runtime/src/agents/mod.rs:503-551 | one run without breaks, quoted for its family, with the quotes of PowerShell doubled and the slashes of cmd counted in loops |
| ShellQuoting.UsedPiecesAreTheText | runtime/src/agents/mod.rs:463-487 | the runs and escapes say the text again |
| PosixWords.RoundTrip | runtime/src/agents/mod.rs:463-551 | a POSIX shell reads a quoted text as one word, which is the text |
| FishWords.RoundTrip | runtime/src/agents/mod.rs:463-551 | fish reads a quoted text as one word, which is the text |
| PowerShellWords.RoundTrip | runtime/src/agents/mod.rs:463-551 | PowerShell reads a quoted text as one word, whatever kinds of quotes it holds |
| CmdWords.RoundTrip | runtime/src/agents/mod.rs:524-542 | the argument rules of the C runtime give back one argument, with every run of backslashes before a quote |
| NuWords.RoundTrip | runtime/src/agents/mod.rs:543-551 | nu reads a quoted text as one word, because no run of hashes in it ends its string |
| ShellRoundTrip.OneWord | runtime/src/agents/mod.rs:463-551 | the shell of each name, with its own reader, reads every quoted text as exactly one word, which carries the text |
| ShellRoundTrip.NothingBreaksTheLine | runtime/src/agents/mod.rs:463-502 | what goes to a shell holds no raw line break and no tab |
| Flattening.MergeObjects | runtime/src/protocol_gen.rs:228-258 | two objects merge exactly when no name is in both, into all fields and all required names |
| Flattening.MergeSucceeds | runtime/src/protocol_gen.rs:221-259 | a merge succeeds exactly when every pair of leaves has no name in common |
| Flattening.MergedLeaves | runtime/src/protocol_gen.rs:221-259 | the leaves of a merge are exactly the pairs of leaves, put together |
| Flattening.MergeMeaning | runtime/src/protocol_gen.rs:221-259 | an object matches a merge exactly when its fields split into a part of each schema, with exactly one variant where variants are meant |
| Flattening.OnlyObjectsMatch | runtime/src/protocol_gen.rs:221-259 | only objects match a merge |
| Flattening.MergeKeepsWellFormed | runtime/src/protocol_gen.rs:221-259 | a merge can be merged again |
| Schemas.NoLeafNoMatch | runtime/src/protocol_gen.rs:359-400 | a schema with no leaf matches nothing |
| ProtocolShapes.StructureOf | runtime/src/protocol_gen.rs:148-200 | the fold over the fields with its flattened ones gives the structure or the first failed merge |
| ProtocolShapes.StructureSucceeds | runtime/src/protocol_gen.rs:148-200 | a structure can be built exactly when its fields are objects and no two that go out share a name |
| ProtocolShapes.StructureMeaning | runtime/src/protocol_gen.rs:148-200 | an object matches a structure exactly when each field takes its part and nothing is left |
| ProtocolShapes.StructuresMatchExactly | runtime/src/protocol_gen.rs:148-200 | an object matches a structure exactly when it is how serde writes all its fields, flattened ones as their own fields |
| ProtocolShapes.PlainFieldPart | runtime/src/protocol_gen.rs:148-200 | a plain field's part is its value, which may be missing only when it is optional |
| ProtocolShapes.EnumerationMeaning | runtime/src/protocol_gen.rs:69-146 | a value matches an enumeration exactly when it is how exactly one variant is written, for all four taggings |
| ProtocolShapes.TaggedEnumerationMeaning | runtime/src/protocol_gen.rs:69-146 | with different names on the wire, a value matches a tagged enumeration exactly when it is how some variant is written |
| ProtocolShapes.EnumerationKeepsWellFormed | runtime/src/protocol_gen.rs:69-146 | an enumeration can be flattened into a structure |
| Engines.Engine.PlacePopup | browser/engine/src/engine.rs:287-308 | a popup goes to its opener's window unless that closes, and becomes active unless it is a background tab |
| Engines.Engine.Create | browser/engine/src/engine.rs:313-364 | a new browser is taken in, and stays only if its window or page does; a wanted or first tab becomes active |
| Engines.Engine.Close | browser/engine/src/engine.rs:396-453 | a closed tab hands over to its opener or the last tab, a closing window goes with its last tab, and the engine may end when nothing is left |
| Engines.Engine.CloseWindow | browser/engine/src/engine.rs:456-468 | a window without tabs goes at once, another one closes all its tabs |
| Engines.Engine.OpenWindow | browser/engine/src/engine.rs:669-690 | a known window or one that comes while the engine quits opens nothing |
| Engines.Engine.OpenDialog | browser/engine/src/engine.rs:510-528 | a dialog shows only where a tab has none |
| Engines.Engine.OpenPage | browser/engine/src/engine.rs:853-867 | a page of the host's own waits for its browser, unless the engine quits |
| Engines.Engine.LearnTarget | browser/engine/src/engine.rs:378-392 | a target that is known answers the ask that opened its tab, once |
| Engines.Engine.FrameHandle | browser/engine/src/engine.rs:594-603 | a frame keeps the handle that it got |
| EngineRuns.RunsAreSound | browser/engine/src/engine.rs:287-468 | with fresh ids, every interleaving keeps all of the following |
| EngineRuns.OneTabDraws | browser/engine/src/engine.rs:606-613 | while the engine does not quit, exactly one tab of a window that has any draws, and the report names the same one |
| EngineRuns.ClosingWindowGoesWithItsLastTab | browser/engine/src/engine.rs:425-468 | a closing window always has a tab, and is gone exactly when its last one closed |
| EngineRuns.PopupsStayWithTheirOpener | browser/engine/src/engine.rs:287-308 | a popup is in its opener's window, however late it is made |
| EngineRuns.PopupTakesOver | browser/engine/src/engine.rs:287-327 | a popup that is made next draws alone in its window, a background tab leaves the one that draws |
| EngineRuns.DialogsMatchTheirTabs | browser/engine/src/engine.rs:510-535 | what the host is told opens and closes dialogs in turn, and is open exactly while the tab has one |
| EngineRuns.HandlesNameFrames | browser/engine/src/engine.rs:594-603 | handles and frames name each other one to one, and a closed tab's handles name nothing |
| EngineDraws.ActivatedDraws | browser/engine/src/engine.rs:748-758 | an activated tab draws alone in its window |
| EngineDraws.ClosingHandsOver | browser/engine/src/engine.rs:396-453 | when the tab that draws closes, exactly its opener draws if it is still there, and else exactly the last tab of the window; when another one closes, the same tab draws on |
| EngineDraws.MadeTabDraws | browser/engine/src/engine.rs:313-364 | a new tab is what its origin says and draws exactly when its open window has no tab or waits for one |
| EngineDraws.OthersKeepDrawing | browser/engine/src/engine.rs:287-535 | nothing but activating, making and closing a tab changes which tabs draw |
| EngineDraws.WindowsExactly | browser/engine/src/engine.rs:287-468 | a window is open exactly since it opened until it is told to close, and waits for a tab exactly since one was asked for until one is made there |
| EngineTabs.BrowsersExactly | browser/engine/src/engine.rs:313-453 | the engine has a browser exactly since it was made until it closed |
| EngineTabs.EndsExactly | browser/engine/src/engine.rs:425-453 | the engine may end exactly when it was told to quit and every browser that was made closed |
| EngineTabs.BrowsersStayExactly | browser/engine/src/engine.rs:313-364 | a new browser stays exactly when its window or page is open and the engine was not told to quit |
| EngineTabs.PagesExactly | browser/engine/src/engine.rs:471-480 | a page is open exactly since it was asked for, until it is told to close, fails, or its browser closes |
| EngineTabs.DialogsShowExactly | browser/engine/src/engine.rs:510-535 | the host shows a dialog exactly since its tab asked for it, until it is answered or the tab closes |
| EngineTabs.TargetsExactly | browser/engine/src/engine.rs:378-392 | the engine reports a tab's target exactly since it learned it, until it learns another or the tab closes |
| EngineTabs.AsksAreAnsweredOnce | browser/engine/src/engine.rs:378-392 | the first target of a tab answers the ask that opened it, and no later one does |
| EngineTabs.FramesGetHandles | browser/engine/src/engine.rs:594-603 | a frame that is named has its old handle or a new one that names no other frame, and the others keep theirs |
| Placements.Places.Place | browser/crate/src/engine.rs:70-96 | the host forgets earlier places, places each tab and target of its windows, and each window hears of its own tabs in order and of the first active one |
| Placements.HostShowsTheTabThatDraws | browser/crate/src/engine.rs:70-96 | in every run of the engine, the tab that the host calls active is the one that draws, and a window hears of all its tabs |
| Placements.TargetsArePlaced | browser/crate/src/engine.rs:70-96 | a target is placed exactly when a tab of the report has it, in that tab's window |
| Placements.LastEntriesCount | browser/crate/src/engine.rs:70-96 | a tab and a target are placed exactly by the last entry of the report that has them |
| Placements.WindowsHearInOrder | browser/crate/src/engine.rs:70-96 | a window hears of exactly its own tabs in the report's order, and of the first one that is active |
| Runtimes.Runtime.ExpectAnswer | runtime/src/runtime.rs:1281-1305 | a request is refused while its id waits or while its client has 256 that wait |
| Runtimes.Runtime.Emit | runtime/src/runtime.rs:1222-1243 | an event for a request goes only to who asked, its answer ends the wait, and one for a request that does not wait goes nowhere |
| Runtimes.Runtime.PruneAnswers | runtime/src/runtime.rs:1317-1322 | exactly the requests and the screens of clients that left go |
| Runtimes.Runtime.PublishCatalog | runtime/src/runtime.rs:1358-1378 | every terminal with news that calls is noticed, in order, then only listed ones call and the catalog goes out with who calls |
| Runtimes.Runtime.See | runtime/src/runtime.rs:1470-1495 | what a watching client shows calls no more, and the catalog goes out if that changed anything |
| Runtimes.Runtime.Ring | runtime/src/runtime.rs:2956-2967 | every client hears the bell, and it calls once, unless somebody watches |
| LedgerRuns.WaitingIsCurrent | runtime/src/runtime.rs:1281-1305 | every request that waits was accepted from the client it waits for and got no answer since |
| LedgerRuns.EventsGoToWhoAsked | runtime/src/runtime.rs:1222-1243 | every event for a request goes to the client whose acceptance of it is the last |
| LedgerRuns.AnswersAlternate | runtime/src/runtime.rs:1222-1243 | between two answers to a request it is accepted again, so each acceptance has one answer at most |
| LedgerRuns.NoClientAsksTooMuch | runtime/src/runtime.rs:1291-1301 | no client has more than 256 requests waiting in any run |
| LedgerRuns.FinalKinds | runtime/src/protocol.rs:2457-2459 | the kinds whose name ends a request are the results and the errors |
| LedgerRuns.AnswersReachWhoAsked | runtime/src/protocol.rs:1439-1474 | while a request waits, an event for it goes to its client alone, and a result or error ends the wait, exactly unless it is one of repositories, which goes to every client and leaves it open |
| LedgerRuns.RepositoriesUseUpAClient | runtime/src/protocol.rs:1439-1474 | a client that got 256 answers of repositories has no request accepted again |
| LedgerHistory.RequestsWaitExactly | runtime/src/runtime.rs:1222-1322 | a request waits for its client exactly since it was accepted with less than 256 waiting, until it is answered for good or the client's lifetime ends |
| LedgerHistory.EventsGoExactly | runtime/src/runtime.rs:1222-1315 | an event of a request goes to who waits for it or nowhere, a refusal to its client alone, and every other event to all |
| AttentionRuns.CallingIsUnwatched | runtime/src/runtime.rs:1358-1385 | in every run no terminal calls that a live client watches, and only terminals of the last catalog call |
| AttentionRuns.SameNewsCallsNobody | runtime/src/runtime.rs:1358-1378 | a catalog whose terminals do what they did calls for no terminal |
| AttentionRuns.SeenStaysSeen | runtime/src/runtime.rs:1462-1495 | a terminal that a watching client saw does not call again until it does something else |
| CallRuns.CatalogsCallExactly | runtime/src/runtime.rs:1358-1378 | a terminal calls after a catalog exactly when it is listed and called before, or may call, no live client watches it, and its work stopped or it waits in a way in which the last catalog did not have it |
| CallRuns.BellsCallExactly | runtime/src/runtime.rs:2956-2967 | a bell of a terminal that may call and does not, calls unless it is watched, and a catalog follows; another bell changes nothing |
| CallRuns.SightsEndCallsExactly | runtime/src/runtime.rs:1462-1495 | exactly what a watching client shows stops calling, and a catalog follows if that or something else changed |
| CallRuns.ClientsShowExactly | runtime/src/runtime.rs:1317-1322 | a client shows something exactly since it said so, until it says something else or is cleared away |
| CallRuns.CatalogsSendExactly | runtime/src/runtime.rs:1358-1378 | a catalog sends one notice for each terminal that begins to call, in its order, and then itself with who calls |
| LaunchPlans.PlanFailsExactly | runtime/src/agents/launch.rs:298-382 | by the lists and the saved pick alone, a plan fails exactly for an unknown account, model or effort, or without any account |
| LaunchPlans.PicksAreListed | runtime/src/agents/launch.rs:298-382 | a pick names items of the lists with an effort that its model allows, and what was asked for |
| LaunchPlans.PlanIsStable | runtime/src/agents/launch.rs:298-382 | planning again from the pick gives the same line and pick |
| LaunchPlans.PlanPicksWhatIsShown | runtime/src/agents/launch.rs:237-270 | a start with nothing asked for picks exactly what the launcher shows |
| LaunchLines.PlansAreExact | runtime/src/agents/launch.rs:298-382 | a plan has the first account, model and effort of the wanted names that the lists allow, its line is their arguments with spaces between, and its pick their names |
| LaunchLines.ErrorsAreExact | runtime/src/agents/launch.rs:298-382 | a plan that fails says what is unknown: the account first, then the model, then the effort |
| LaunchLines.SavedIsShownFirst | runtime/src/agents/launch.rs:237-270 | until the accounts or the models are known, those that were saved are shown |
| LaunchPlans.ModelsMatterOnlyWhenWanted | runtime/src/agents/launch.rs:151-160 | leaving the models out makes no difference when neither a model nor an effort is wanted |
| LaunchPlans.StartIsRemembered | runtime/src/agents/launch.rs:161-167 | after a start the launcher shows its pick, the next start is the same, and other agents keep theirs |
| LaunchPlans.WithPickOnceEach | runtime/src/agents/launch.rs:214-224 | setting a pick keeps one pick of each agent |
| LaunchPlans.Choice.Set | runtime/src/agents/launch.rs:214-224 | a pick takes the place of the agent's earlier one, or comes last |
| LaunchPlans.Choice.Apply | runtime/src/agents/launch.rs:207-212 | a change sets the shown agent or one agent's pick, and leaves the other |
| LaunchPlans.Choice.Begin | runtime/src/agents/launch.rs:130-168 | a start gives the planned line and remembers its pick, and a failed one remembers nothing |
| AccountCommands.HomeIsReadBackExactly | runtime/src/agents/accounts.rs:136-191 | the folder of a command is read back from it exactly when it is absolute, has no `$` and takes no step up, bare or quoted |
| AccountCommands.FoundIsOrdinary | runtime/src/agents/accounts.rs:144-191 | every folder found in a text is absolute and ordinary |

## Left out

- Sockets, processes, files, timers and threads: each handler is one atomic step, and a queue with no room is a send that may fail.
- The browser and its encoder: a new encoder starts with a key frame, and the browser gives no id twice.
- Encoder requests for a key frame: whether and when one comes is open, so nothing is said about how soon a picture shows again.
- Delivery.Live.Watch: the same handler also sizes the page, updates its capture and asks the engine for a key frame, none of which changes a seat.
- The hop behind a viewer's pipe (runtime/src/canvas/browser.rs), and the time between a second join and its seat call.
- JSON text: messages and schemas are data types with the fields that the code reads.
- ProtocolShapes: describing a type, renaming it and the errors of unsupported types.
- Flattening.MergeObjects: which duplicate field an error names, because the program takes the first of an ordered map.
- The order of the lists of a frame's takers and of a report's tabs, which the program takes from its maps.
- cmd.exe's own parsing of a line, such as `%`, and `$'...'` in shells older than POSIX.1-2024.
- The name of a shell: it comes as text, and not as a path.
- The limit of eight drivers of a window.
- When the engine's report comes: the placement that a turn of a driver's connection sees is an input.
- Captures, titles, addresses, loading, shapes and sizes of the engine's tabs, and its reload rule.
- Connections, views, mentions and restoring of the runtime, and the text of its events.
- LaunchPlans.Choice.Begin: reading the catalog again when an agent is missing and wrapping the line for its context are left out, so the lists are an input.
- Reading the catalog and the models of agents, how long the launcher keeps them, and the texts of its errors.
- Paths that are not Unicode text: a command's path is a string.
