# hops: a model of its state machines, and what they keep

hops shares one mouse and keyboard between machines. Its hard logic is a set of
single-threaded tasks that stay correct while links drop, devices are edited,
trust is withdrawn and files change underneath them. This project models those
tasks and proves what every run of them keeps.

Each part has a specification (a datatype holding the whole state, and a
function for each thing that can happen to it), lemmas over every run of that
specification, and, where the source updates an object in place, a class whose
methods are proved to do exactly what the specification's functions say.

| files | what they model |
|---|---|
| `Crossing.dfy`, `CaptureTask.dfy` | the capture task: Begin, Enter, Ack, input, Leave, relinks, deadlines, backoff, held buttons, coalesced and absolute motion |
| `Watcher.dfy`, `CrossingSafety.dfy`, `CrossingAnswers.dfy`, `Coalescing.dfy` | an onlooker that judges the log of frames by the rules of a crossing; proof that no run breaks them; what capture answers to each thing it hears, exactly; proof that coalescing shows the peer the same |
| `Links.dfy`, `Connection.dfy` | the link table: dials, dial-ins, late tasks, revoking |
| `LinkRuns.dfy`, `LinkPins.dfy` | what each step leaves of links and devices; and over whole runs: what ends a link or takes a device off it, what a dial lands on, which machine a device's frames reach |
| `Registry.dfy`, `ClientManager.dfy`, `ConfigFile.dfy`, `Matching.dfy`, `Reload.dfy` | the device registry, its entries in the config file, reload matching |
| `ConfigWatch.dfy`, `ConfigDaemon.dfy` | the daemon and the watcher's thread keeping up with hand edits of the config file |
| `Clipboard.dfy`, `ClipboardSharing.dfy` | the clipboard poller against a clipboard that changes between its looks, and any number of machines sharing |
| `Discovery.dfy`, `DiscoveredMachines.dfy` | the bounded list of machines seen on the network |
| `DialBack.dfy`, `TrustPrompts.dfy` | dialling out to be driven; what a failed dial may be believed to have learned |
| `CacheListed.dfy` | the record that makes a deleted cache line read as a removal |
| `Common.dfy`, `Proto.dfy`, `Identity.dfy` | shared types, frames, names and fingerprints |

A crossing's run alternates capture's own steps with `World` steps in which the
links and devices become anything at all, so its safety holds whatever the rest
of the daemon does. Writes fail at arbitrary places, hash sets are walked in an
arbitrary order, and times only have to go forwards.

Where a promise does not hold as it reads, the project says exactly when it
does and shows a case where it does not:

- A Begin for another device, let through while a visit is under way, replaces
  that visit with no Leave (`CrossingSafety.StepHolds`,
  `CrossingSafety.ABeginTakesOver`). It is the only rule of a crossing any run
  can break, and it is broken at exactly those steps. Buttons the replaced device
  holds then get their ups at the other device, in its visit's ending
  (`CrossingSafety.EveryRunLetsGo`).
- Motion a coalescing task holds back when a visit ends is dropped, so the frames
  that end the visit find the peer's pointer short by it, unless a Begin at another
  device's edge ends it (`Coalescing.CoalescingShowsTheSame`,
  `Coalescing.LettingGoDropsMotion`).
- Two devices whose addresses come to name one place: the later link takes the
  table's entry and the earlier one is neither closed nor listed
  (`Links.StepKeepsTracked`, `LinkPins.TwoDevicesShareAPlace`).
- The comment at `src/connect.rs:968-972` makes trust, the device's pin and its
  switch conditions of taking a dial-in. They are asked for before its stream opens
  and not again, so one that lost them meanwhile is taken
  (`LinkPins.DialInFromCheckToLanding`, `LinkPins.DialInOutlivesRevoking`).
- A device can be put on another machine's link, by a port or an address written
  over its active one, a ping answered there or a link registered there, a dial-in's
  included (`LinkPins.StepKeepsMachines`).
- A machine gets a second device in one way, a config entry that names it
  (`Registry.OnePerMachineKept`).
- A saved entry reads back as itself exactly when its name is a plain one
  (`ConfigFile.TomlRoundTrip`, `ConfigFile.NameCleanedTwiceCanDiffer`).
- The comment at `src/config.rs:1258-1273` says every event queued re-reads the
  file; an error queued there does not. A channel full of errors drops the
  notice of an edit, and the edit stays unread (`ConfigWatch.StepLosesSight`,
  `ConfigWatch.ErrorsHideAnEdit`).
- Where a platform keeps no count of copies, text only ever held in marked
  copies can be sent (`Clipboard.MarkedTextIsSent`); with a count it
  never is (`Clipboard.MarkedIsNeverSent`).
- Hearing the very same announcement again is reported as news once more when
  its addresses were out of order or its name carried a conflict's suffix
  (`DiscoveredMachines.SameAnnouncementAgain`); and a name with two suffixes is
  not found again by the name it is withdrawn under
  (`DiscoveredMachines.WithdrawnUnderItsOwnName`,
  `DiscoveredMachines.ListedAfterItsWithdrawal`).
- The removal record's file parses back to what was recorded exactly when every
  entry is not empty and holds no line break (`CacheListed.WrittenReadsBack`).
- The comment at `src/cache_listed.rs:60-61` says a file that cannot be read
  forgets nothing. The start itself does not; the next record that lands replaces
  the file with what memory then holds, and a device still granted no longer reads
  as removed (`CacheListed.StillReadsAsRemoved`,
  `CacheListed.AnUnreadableStartCanForget`).

`dafny verify dfyconfig.toml` checks the whole project.

## Model

| member | source | states |
|---|---|---|
| CrossingSafety.EveryRunKeepsTheRules | src/capture.rs:490-589 | in every run, whatever the links and devices do between steps, no frame breaks a rule of a crossing but a takeover, and none at all when no Begin takes a visit over; the rules include that positions are numbered one by one from each anchor, and that nothing but what lets go follows a refused frame |
| CrossingSafety.StepHolds | src/capture.rs:694-868 | each step keeps the invariant and adds exactly the fault Replaced, exactly when a Begin takes another device's visit over |
| CrossingSafety.ABeginTakesOver | src/capture.rs:760-774 | concrete run: two devices that can be crossed to, two Begins, and the first visit is replaced with no Leave |
| CrossingSafety.PressesOnlyWhereAcked | src/capture.rs:519-542 | a pressing frame was written only to the device being visited, on a link an Ack came on since that visit began, with no Leave in between |
| CrossingSafety.EveryRunPressesWhereAcked | src/capture.rs:519-542 | the same of every run from the start, takeovers included |
| CrossingSafety.EveryLeaveLetsGo | src/capture.rs:973-1043 | in a log with no stray frame, no Leave while holding and no bad ending: the frames before a Leave are exactly one up for each button whose last frame is a down, one key-up for each of some set of keys and a zero modifier mask; no button is down after; and a visit begun with none under way began with no button down |
| CrossingSafety.EveryRunLetsGo | src/capture.rs:973-1043 | so every Leave of every run from the start; where no Begin took a visit over, the ups are for the buttons last down among its own visit's frames and no other, and after a takeover they include what the replaced device was left holding |
| CrossingSafety.LeavingReleases | src/capture.rs:973-1043 | whenever a visit ends its device alone is sent one up for each button last sent down, one key-up for each key capture holds as pressed, a zero modifier mask and Leave, and nothing else |
| CrossingSafety.EveryRunNumbersPositions | src/capture.rs:655-681 | in every run each position is numbered one above how many went out since the anchor was last set |
| CrossingSafety.EveryRunStopsAtARefusal | src/capture.rs:682-692 | in every run, after a frame of a visit no link took, only what lets go follows in it, and no visit outlives such a frame |
| CrossingSafety.NothingBeforeANewEnter | src/capture.rs:973-1043 | in a log with no stray frame and no visit that opens without an Enter, nothing goes to a device after a Leave before a new visit begins and an Enter goes out |
| CrossingSafety.EveryRunEntersAnew | src/capture.rs:973-1043 | so in every run from the start, takeovers included |
| CrossingSafety.LeavingHolds | src/capture.rs:973-1043 | leaving keeps the invariant, leaves capture idle and adds to the log exactly the ending frames of what is held |
| CrossingSafety.EndFramesLetGo | src/capture.rs:985-1040 | the ending frames only let go, end with Leave and leave no button down |
| CrossingSafety.EndingIsNeverRefused | src/connect.rs:875-899 | every ending frame is written by send_to whatever trust says, as long as the link is there |
| CrossingSafety.MotionIsConserved | src/capture.rs:595-692 | at every moment of every run, motion captured while Sending equals deltas sent plus the last position sent plus what is pending; before the Ack the peer was shown none |
| CrossingSafety.WaitsExactlyWithADeadline | src/capture.rs:503-542 | a visit waits for an Ack exactly while a deadline is set, and the buttons recorded as down are exactly those whose last frame in the log was a down |
| CrossingSafety.DeadlineNeverMoves | src/capture.rs:759-840 | no step moves the deadline of a crossing still waiting, re-sent Enters included |
| CrossingSafety.NothingWithinTheBackoff | src/capture.rs:912-967 | after a give-up at time t nothing goes to that device before t plus the backoff, unless its capture is destroyed |
| CrossingAnswers.WhyACrossingIsRefused | src/capture.rs:912-934 | each reason a crossing is refused for, exactly: the machine at its link's end, or else its pin's, may not be driven; no link up and answered on; its peer takes no input; given up on within five seconds; in that order |
| CrossingAnswers.ABeginIsAnswered | src/capture.rs:756-791 | a Begin is let through exactly when none of those holds: anchored, begun, an Enter out, a deadline a second away, and going on only if a link took the Enter; else refused, the visit under way ended, and a device with no link dialled |
| CrossingAnswers.EntersAtTheOppositeEdge | src/capture.rs:810-815 | an Enter names the edge opposite the one the device's first capture is at |
| CrossingAnswers.DeadlineIsASecondAway | src/capture.rs:759-774 | whatever step starts a crossing or makes it again, its deadline is a second after |
| CrossingAnswers.AnAckIsHeard | src/capture.rs:511-542 | an Ack of the device crossed to starts sending, lifts the deadline, forgives a give-up and records link and place; one of another device changes nothing |
| CrossingAnswers.APongIsHeard | src/capture.rs:884-905 | a waiting Enter goes out exactly on a Pong of its device's own link, once |
| CrossingAnswers.InputBeforeTheAck | src/capture.rs:810-840 | input before the Ack is an Enter again, or waits exactly while the link up is unanswered and may be driven |
| CrossingAnswers.MotionIsSent | src/capture.rs:655-692 | acknowledged motion goes out as a position numbered one above the last, or as a step, as the peer takes it; coalesced, it adds to what is held back |
| CrossingAnswers.FlushIsSent | src/capture.rs:595-612 | what is held back goes out whole, unless it comes to nothing |
| CrossingAnswers.InputIsSent | src/capture.rs:816-856 | any other input goes out once, on the visit's link, but for a lock key already down |
| CrossingAnswers.LockRepeatsAreSwallowed | src/capture.rs:796-808 | over any input of an acknowledged visit, a lock key's down goes out exactly when it was not down already, and each of its ups does |
| CrossingAnswers.ARelinkIsCrossedAgain | src/capture.rs:623-645 | a visit whose device is on another link than its Ack's is anchored and entered again before anything else is sent of it |
| CrossingAnswers.TheReleaseBindEndsIt | src/capture.rs:700-705 | with the release bind held, whatever is captured ends the visit, sends to no other device, and does nothing with none under way |
| CrossingAnswers.OtherEdgesAreSilent | src/capture.rs:727-785 | input at an edge that is not crossed, and anything at an edge watched for incoming pointers, does nothing |
| CrossingAnswers.WhatEndsAVisit | src/capture.rs:543-589 | a peer's Leave and a capture's end end their own device's visit and no other; a release, a passed deadline and a session's end, any |
| CrossingAnswers.AGiveUpIsKept | src/capture.rs:952-967 | a crossing left unanswered is noted with its time |
| CrossingAnswers.DestroyRemovesCaptures | src/capture.rs:564-580 | destroying removes every capture of the device and no other, and forgets its give-up |
| CrossingAnswers.CapturesAreAdded | src/capture.rs:560-585 | a capture made is the last of all and a release bind set is the one asked for, and neither does anything else |
| CrossingAnswers.EndingGoesToItsLink | src/capture.rs:973-1043 | an acknowledged visit's ending is written, frame by frame, on the link at the place its Ack was heard, whatever became of its device or of trust |
| CrossingAnswers.EndingGoesToNoOther | src/capture.rs:973-1043 | any other visit's ending goes to its own device's link or nowhere |
| CrossingAnswers.PlaceIsKept | src/capture.rs:973-1043 | that place changes only with another Ack of the device, and is forgotten only as a visit ends |
| Watcher.AckedMeans | src/capture.rs:519-542 | a link counts as acknowledged only by an Ack on it since the last Begin |
| Watcher.VisitingMeans | src/capture.rs:759-782 | a device is visited only from its Begin on, until a Leave or another Begin |
| Watcher.EnteredMeans | src/capture.rs:810-840 | a visit counts as entered only by an Enter since its Begin |
| Watcher.HeldAfterMeans | src/capture.rs:842-851 | a button is held after frames exactly when it went down in them and not up since, or was held before and never went up |
| Watcher.HeldWentDownLast | src/capture.rs:842-851 | what the onlooker takes as held is what went down last, of all frames sent |
| Watcher.VisitMeans | src/capture.rs:759-851 | a visit under way has one Begin, with no Leave and no Begin since; its start is what was held at that Begin and its frames are all that went out since |
| Coalescing.CoalescingShowsTheSame | src/capture.rs:595-612 | from any steady moment of a run, under any schedule of input, flushes, repeated Begins and their Acks, other devices' events and capability changes, a coalescing task and a plain one hand over the same frames that are not motion, each with the pointer moved equally far; and when the visit ends, that goes on exactly if it ends by a Begin at another device's edge, or the motion captured since the last flush sums to zero |
| Coalescing.OnlyTheseEndAVisit | src/capture.rs:490-589 | while the link carries every frame, a step ends the visit exactly if it is the release bind, the peer's Leave, a release, a destroy or the session's end, or a Begin at another device's edge |
| Coalescing.BeginElsewhereShowsTheSame | src/capture.rs:709-767 | a Begin at another device's edge, turned away or let through, leaves the same marks in both tasks, whatever was pending |
| Coalescing.EndsShortOfWhatIsHeldBack | src/capture.rs:973-1043 | however else it ends, both tasks send the same ending frames, the coalescing one with the pointer short by exactly the pending motion |
| Coalescing.LettingGoDropsMotion | src/capture.rs:973-977 | concrete run: Begin, Ack, one step of motion and a release; the Leave finds the pointer a step short |
| CaptureTasks.CaptureTask.Turn | src/capture.rs:490-589 | one turn of the loop on the real fields does what the specification says, for every kind of event |
| CaptureTasks.CaptureTask.HandleCaptureEvent | src/capture.rs:694-868 | release bind, relink, coalescing, Begin and input: the new state and log are the specification's |
| CaptureTasks.CaptureTask.LeaveActiveClient | src/capture.rs:973-1043 | letting go of everything held, to the connection the crossing was taken on |
| CaptureTasks.CaptureTask.SendMotionTo | src/capture.rs:655-692 | absolute to a peer that takes it, else a delta; a failed send ends the visit |
| CaptureTasks.CaptureTask.FlushPendingMotion | src/capture.rs:595-612 | what is pending is sent once, unless the link is new or there is nothing to send |
| CaptureTasks.CaptureTask.CrossAgainIfRelinked | src/capture.rs:623-645 | a visit acknowledged on another link than the device's is made again from the origin |
| CaptureTasks.CaptureTask.CannotCrossTo | src/capture.rs:912-934 | why a crossing cannot land now, in the source's order, dialling a link that is down |
| CaptureTasks.CaptureTask.GiveUpOnCrossing | src/capture.rs:952-967 | an unanswered crossing is left and starts its backoff |
| CaptureTasks.CaptureTask.SendWaitingEnter | src/capture.rs:884-905 | a waiting Enter goes out on the first answer of the device's own link only |
| CaptureTasks.CaptureTask.HeardAck | src/capture.rs:511-542 | an Ack counts only for the device crossed to, and records the link it came on |
| CaptureTasks.CaptureTask.DestroyCapture | src/capture.rs:564-580 | the visit to a destroyed capture's device ends first, and its backoff is forgotten |
| CaptureTasks.CaptureTask.SwallowsRepeat | src/capture.rs:796-808 | a held lock key's repeats are swallowed, and which are held is tracked |
| LinkPins.TwoDevicesShareAPlace | src/connect.rs:1419-1529 | concrete run from nothing: two devices added at one place, both dialled, two machines answering; the first ends up on the second's link, its own open and in no table |
| LinkPins.DialFromStartToLanding | src/connect.rs:1150-1529 | over any run, with dials that fail, pair first or have trust withdrawn under them: a landing belongs to one dial, begun, read and answered at three earlier steps and not ended since; the machine is the one the device was pinned to as it was read, if any, at an address it then had, and was in trust as it was reached unless it was to be paired with; what the landing leaves is exactly as below |
| LinkPins.LandingExactly | src/connect.rs:1419-1529 | registered exactly when the device exists, is on, dials that address, has no link, is pinned to no other machine, no device before it is that machine's and a machine just paired with may be driven; else closed, with no link changed and at most the device pinned |
| LinkPins.DialInFromCheckToLanding | src/connect.rs:973-1042 | over any run, a dial-in that lands was let in at one earlier step by the trust, pin and switch of that moment; it is taken exactly when its stream opened and no link dialled from here is up by then, whatever became of that trust, pin and switch |
| LinkPins.DialInOutlivesRevoking | src/connect.rs:973-1038 | concrete run from nothing: a dial-in let in, trust and pin then withdrawn, its stream opening after; the device is left on the link of a machine it is not pinned to and that may not be driven |
| LinkRuns.LinkLastsUntilEnded | src/connect.rs:1941-2012 | over any run, a link is in the table exactly while no step has ended it, and never comes back |
| LinkRuns.DeviceKeepsItsLink | src/connect.rs:1015-1038 | over any run, a device is on one link exactly while no step ends that link or takes the device off it |
| LinkRuns.DialledLinkOutlivesItsOwn | src/connect.rs:1450-1461 | the case of `DeviceKeepsItsLink` for a device's own dials and dial-ins, dials that start, read, reach or fail, and late tasks of other links: none of them takes the link this machine dialled |
| LinkRuns.DialledLinkGivesWayToAnotherDevice | src/connect.rs:1015-1038 | the only dial or dial-in that ends such a link is another device's, registered at its address |
| LinkRuns.DialledInLinkGivesWay | src/connect.rs:1016-1021 | a link dialled in gives way to a dial-in, or to another device's link at its address |
| LinkRuns.LateTaskChangesNoLink | src/connect.rs:1941-2012 | once a link has ended in a run, its task's late end changes no link and no other device, and leaves its own dark exactly when that is recorded at the address or nowhere and has no newer link of its own there |
| LinkRuns.DisconnectGoesDark | src/connect.rs:1941-2012 | when a link's end clears its device, and exactly then: recorded nowhere, not alive, no capability and not answered; its config, switch, pin, addresses and other records as they were, and no other device changed |
| LinkRuns.LostLinkGoesDark | src/connect.rs:786-834 | so after a write that failed, or one refused for want of trust |
| LinkRuns.CloseGoesDark | src/connect.rs:1903-1930 | closing an address leaves so every device recorded there, and no other |
| LinkRuns.SendExactly | src/connect.rs:786-834 | sending to a device, in every case: with no link it is dialled, unless it is being; without trust its link closes; with its peer taking no input nothing happens; else the frame is written, and a write that fails ends the link |
| LinkRuns.SendToExactly | src/connect.rs:875-899 | sending to a place, in every case: only a missing link, or a frame that can press without trust, is refused, and then nothing changes |
| LinkRuns.PongExactly | src/connect.rs:1759-1772 | a Pong records where its device is up, that it answered and whether it takes input, and nothing else |
| LinkRuns.LandedDevice | src/connect.rs:1419-1529 | what each answer to a landing leaves of its device: linked, up there, pinned and not removed; one whose machine another device has, refused as that machine; just paired with, pinned; else as it was |
| LinkRuns.AdoptingDevice | src/connect.rs:1003-1038 | what a dial-in that is taken leaves of its device: up there, not removed by its peer, and known to dial here |
| LinkPins.LinksStayTheirDevices | src/connect.rs:1419-1529 | over any run, every link proved its device's pin at every moment exactly when no step removes a device or clears a pin under a link, or lands a dial-in whose device's pin went while its stream opened |
| LinkPins.StepKeepsMachines | src/client.rs:339-347 | the steps that put a device on another machine's link, exactly: an address or port written over its active one, a ping answered there, a link registered there, a dial-in landing after its pin went, pins cleared |
| LinkPins.SendsReachThePinnedMachine | src/connect.rs:786-834 | over any run without such a step, a frame sent to a device is written only on a link of the machine it is pinned to |
| Links.StepKeepsTracked | src/connect.rs:1150-1552 | every open link stays in the table at every step, exactly but for a link registered where another is |
| Links.RunKeepsTracked | src/connect.rs:1150-1552 | so over every run in which no step overwrites, each link made and not closed is in the table under one serial |
| Links.CloseEachCloses | src/connect.rs:1879-1930 | closing a list of addresses closes exactly the links there and keeps every other |
| Links.RevokingClosesEveryLink | src/connect.rs:1854-1870 | closing a machine's links leaves no open link that proved it, and closes no other |
| Links.WithdrawnTrustWritesNoPress | src/connect.rs:786-899 | from trust withdrawn until it returns, only frames that let go are written on links that proved that machine |
| Proto.WhatLetsGo | src/connect.rs:388-402 | the frames that only let go, exactly: Leave, a key's or button's up, modifiers with none held |
| Connection.LanMouseConnection.Send | src/connect.rs:786-834 | trust, the peer's state and the link decide; a failed write ends the link; no link starts a dial |
| Connection.LanMouseConnection.SendTo | src/connect.rs:875-899 | written to the link at that address, refused only for a pressing frame without trust |
| Connection.LanMouseConnection.DialLands | src/connect.rs:1419-1529 | a dial's checks and its record, in one step under the lock; after pairing on it, closed if the machine may not be driven |
| Connection.LanMouseConnection.DialReads | src/connect.rs:1170-1180 | the dial's task reads the device's pin and addresses once, when it begins |
| Connection.LanMouseConnection.DialIn | src/connect.rs:991-1002 | a dial-in is turned away for trust, pin or switch, in that order, or goes on to open its stream |
| Connection.LanMouseConnection.Adopt | src/connect.rs:1003-1038 | once that opened or did not: taken unless it failed or a link dialled from here is up, replacing an older dial-in |
| Connection.LanMouseConnection.Disconnect | src/connect.rs:1941-2012 | ends the link asked for and no other, and clears the device only when it is down |
| Connection.LanMouseConnection.CloseAddr | src/connect.rs:1903-1930 | the link at an address is closed and cleared from every device recorded there |
| Connection.LanMouseConnection.StartDial | src/connect.rs:845-866 | one dial at a time for a device |
| Registry.RunKeepsValid | src/client.rs:25-78 | over every run of requests, handles to come are unused and the side tables name only devices that exist |
| Registry.RunKeepsAddresses | src/client.rs:258-312 | over every run of requests a device is dialled at exactly the addresses given for it and found for it |
| Registry.HandlesNeverReissued | src/client.rs:147-153 | the handles a run hands out strictly ascend and none was in use |
| Registry.WriteThroughAbsent | src/client.rs:53-56 | a request through a handle that is gone changes nothing |
| Registry.RemovedHandleIsDead | src/client.rs:231-237 | a removed device stays removed whatever runs after, so a late write lands on nothing |
| Registry.PinningAddsNoSecondDevice | src/client.rs:559-651 | pin and claim_for_dial_in never add a device to a machine that has one, and never replace a pin by another machine's |
| Registry.OnePerMachineKept | src/client.rs:559-651 | one device per machine is kept by a request exactly unless it adds an entry naming a machine that has one |
| Registry.PinIsKept | src/client.rs:739-748 | nothing but removing the device or revoking its machine takes a pin away, over any run |
| Registry.EditKeepsPin | src/client.rs:171-312 | an edit leaves the pin alone, and the switch unless that is what it edits |
| Registry.EntryIsWhatWasChosen | src/client.rs:790-802 | of any device, an entry lists what a person chose, its switch and its pin: of its addresses those given, and none found |
| Registry.EditedEntry | src/client.rs:171-312 | an edit changes the one key of the entry it is of, and what is learned of a device, no key |
| Registry.EditedState | src/client.rs:258-535 | what an edit makes of all else known of a device: another hostname forgets the link and what was found, another port moves the link's address, and everything else sets one thing |
| Registry.EditedRecords | src/client.rs:457-490 | that a device answered goes with its link's address and comes with a ping, and its refusal goes when it is pointed elsewhere |
| Registry.RemovedLeavesNoTrace | src/client.rs:231-237 | removing a device removes every record of it and touches no other |
| Registry.PinExactly | src/client.rs:559-585 | pinned to another machine: refused; that machine already another device's: noted as refused, against the first such device; else pinned, newly or again, with no refusal on record |
| Registry.ClaimExactly | src/client.rs:621-651 | a machine that dials in is taken for the first device pinned to it, else the first that reached it, which is pinned, else none |
| Registry.ClearPinsExactly | src/client.rs:739-748 | revoking a machine unpins its devices and does nothing else |
| Registry.AnsweredAsExactly | src/client.rs:590-605 | what a dial read is kept for a device that is there, and forgotten otherwise |
| Registry.AddedDevice | src/client.rs:116-144 | a device started from an entry shows no link, has found and answered nothing, and is taken to dial here exactly when pinned with no name and no address |
| Registry.ClipboardNeedsEverySwitch | src/client.rs:716-729 | allowed exactly when the device dialled for, if any, is on, and so is every device pinned to the machine |
| Registry.FromEntry | src/client.rs:116-144 | the device an entry is started as has that entry: config_entry inverts add_with_config |
| Manager.ClientManager.AddWithConfig | src/client.rs:116-144 | a device with that entry under the next handle, returned |
| Manager.ClientManager.RemoveClient | src/client.rs:231-237 | the device and every trace of it in the side tables gone, and it is returned |
| Manager.ClientManager.SetHostname | src/client.rs:294-312 | a new hostname forgets the addresses found, the link's address and the refusal; the same one changes nothing |
| Manager.ClientManager.SetPort | src/client.rs:339-347 | the active address follows the port |
| Manager.ClientManager.UpdateIps | src/client.rs:278-287 | the addresses dialled are those given and those found |
| Manager.ClientManager.Pin | src/client.rs:559-585 | pins, or says which device or machine it was refused for |
| Manager.ClientManager.DiallerOf | src/client.rs:69-77 | the first device added of those pinned to a machine |
| Manager.ClientManager.FirstReached | src/client.rs:621-651 | among unpinned devices, the lowest that proved the machine by its own dial, at an address it still has |
| Manager.ClientManager.ClaimForDialIn | src/client.rs:621-651 | the device a dial-in goes to, and whether it was pinned now |
| Manager.ClientManager.ClearPinsMatching | src/client.rs:739-748 | exactly the devices pinned to that machine are unpinned and returned |
| Manager.ClientManager.SwitchAllowsClipboard | src/client.rs:716-729 | allowed exactly when the device dialled for is on and so is every device pinned to the machine |
| Manager.ClientManager.PlanReload | src/client.rs:398-418 | the loop that takes matched devices out of a vector plans what the matching says |
| Reload.ReorderingTheFileChangesNothing | src/client.rs:398-418 | reordering the file removes the same devices and adds the same entries |
| Reload.ReloadKeepsHandles | src/client.rs:398-418 | of the devices that read an entry, as many keep their handle and state as the file has lines that do; the other lines become new devices under handles never used |
| Reload.ReloadMatchesFile | src/client.rs:398-418 | after applying the plan the devices' entries are the file's, as a multiset |
| Reload.ReloadTwiceIsOnce | src/client.rs:398-418 | planning again finds nothing to do |
| Reload.UnchangedFileReloadsToNothing | src/client.rs:398-418 | devices started from a file, and any run of lookups, links, pings and what peers say: reloading the file, its lines in any order, plans nothing |
| Reload.AReloadIsRequests | src/service.rs:1625-1645 | a reload is a removal for each device no line matches and an entry added for each line no device does, so it keeps all that every run of requests keeps |
| Matching.MatchIsDifference | src/client.rs:398-418 | matching is multiset difference, both ways |
| Matching.MatchIgnoresOrder | src/client.rs:398-418 | which devices are left over does not depend on the order of the list |
| ConfigFile.TomlRoundTrip | src/config.rs:403-466 | a saved entry reads back as itself exactly when it has no name or a plain one (not empty, at most 64 characters, all rendered, no space at either end) and its fingerprint is well formed |
| ConfigFile.AnEmptyTableReads | src/config.rs:403-433 | a table with no key reads as a nameless device at the default port and the left edge, off |
| ConfigFile.DefaultsAreLeftOut | src/config.rs:435-466 | a save leaves out a default port and a switch that is off, and always writes the position and every address |
| Identity.PlainNamesAreKept | crates/hops-ipc/src/identity.rs:54-66 | cleaning keeps exactly the plain names |
| Identity.FingerprintIsHexPairs | crates/hops-ipc/src/identity.rs:35-49 | a fingerprint is well formed exactly when its parts between colons are thirty-two pairs of lower-case hex digits |
| ConfigFile.NameCleanedTwiceCanDiffer | src/config.rs:406-410 | a name that changes again when it is read a second time |
| ConfigFile.RestartKeepsDevices | src/config.rs:403-466 | a save and a restart bring every device back, switched and pinned as it was |
| ConfigFile.SwitchedOffMachineGetsNoClipboard | src/client.rs:716-729 | once a device pinned to a machine is off, clipboard with it stays refused through any requests and restarts until it is switched on, removed or unpinned |
| ConfigWatch.NoEditStaysUnread | src/config.rs:1094-1285 | over every interleaving, the file's text is as last read or written, or was read and refused, or something still has it read |
| ConfigWatch.StepLosesSight | src/config.rs:1194-1285 | the steps at which a text on disk is left that nothing will read, exactly |
| ConfigWatch.EveryEditIsRead | src/config.rs:1194-1285 | without errors of the watcher, failed arming or failed reads, no edit is ever lost sight of, saves failing or not |
| ConfigWatch.EveryEditSinceTheStartIsRead | src/config.rs:750-785 | so from the start: once nothing is left to have the file read, its text was read |
| ConfigWatch.InvHolds | src/config.rs:1094-1236 | an order to disarm is always followed by one to arm, and only events that can change the config are queued |
| ConfigWatch.ReadTakesItIn | src/config.rs:1036-1085 | a read of a text that is new, not blank and parses makes it the config, the devices and the text seen; any other changes nothing, and one refused is noted |
| ConfigWatch.SaveWritesTheConfig | src/config.rs:1137-1176 | a save writes what the format makes of the config held, merged into the text on disk or rendered where there is none; that text counts as seen unless an unread one was merged; and where none can be made, or a read or write fails, nothing changes |
| ConfigWatch.EveryWriteCarriesTheConfig | src/config.rs:1094-1176 | over any run with hand edits, saves and failures: once the daemon edits its config, and until it edits it again or reads the file, each write that works leaves on disk that config, merged into the text its save read |
| ConfigWatch.SavesAreNoEdits | src/config.rs:1036-1176 | until the next hand edit no save, re-arming, error or notice has a read report a change |
| ConfigWatch.UnreadEditIsReadAfterSave | src/config.rs:1145-1174 | a save over an unread edit writes the merge and leaves it to be read |
| ConfigWatch.CatchingUpReadsTheFile | src/config.rs:808-842 | even with errors queued, the two threads can come to rest with the text on disk read |
| ConfigWatch.AnyScheduleReadsTheFile | src/config.rs:1204-1229 | with no error queued they come to rest so in whatever order they take their steps, within as many as there is work |
| ConfigWatch.ErrorsHideAnEdit | src/config.rs:1258-1285 | concrete run: sixteen errors fill the channel, the notice of an edit is dropped, and the edit stays unread |
| ConfigDaemon.Config.TakeIn | src/config.rs:1045-1085 | an empty or unparseable text changes nothing; else the config, devices and text seen are the file's |
| ConfigDaemon.Config.ReadIfEdited | src/config.rs:1036-1042 | a text as last read or written is no change, a failed read neither |
| ConfigDaemon.Config.WriteConfigFile | src/config.rs:1137-1176 | what is written, and that it counts as seen unless it kept an unread edit; a failure changes nothing |
| ConfigDaemon.Config.WriteBack | src/config.rs:1094-1130 | whatever the write does, the watcher is ordered off and on; with no config nothing happens |
| ConfigDaemon.Config.Changed | src/config.rs:808-842 | notices are received in turn until a read reports a change |
| ConfigDaemon.ReportsOnlyAChange | src/config.rs:808-842 | a change is reported only for a usable text that is not the one seen just before and parses to another config than the daemon had, which is then the config; otherwise the config is as it was and every notice had the file read |
| ConfigDaemon.Watching.ForwardWatchEvent | src/config.rs:1274-1285 | never waits: only what can change the config takes a slot, and a full channel drops it |
| ConfigDaemon.Watching.CarryOut | src/config.rs:1204-1229 | orders are carried out in turn, each arming followed by a notice to read the file once more |
| ConfigDaemon.SavesEndArmed | src/config.rs:1194-1236 | however many saves were ordered, the watcher ends armed and a notice is queued |
| ConfigDaemon.AnOrderIsCarriedOut | src/config.rs:1204-1229 | a disarmed watcher has nothing left to report, and one armed has a notice to read the file queued, as the thread carries orders out |
| ConfigDaemon.ASaveIsBracketed | src/config.rs:1094-1130 | a save that ends, whatever it came to, gave an order to disarm and one to arm |
| Clipboard.SentOnlyIfFoundTwice | src/clipboard.rs:203-271 | text is sent only when two polls in a row, both wanted, found it and found a copy unmarked; it is one copy exactly when nothing was copied in between, which a count guarantees |
| Clipboard.SentExactlyWhen | src/clipboard.rs:203-271 | over any run, a poll sends a text exactly when it and the poll before, both wanted and of a poller that reads, found it at one count, neither knowing the clipboard to hold it, and the first did not send it |
| Clipboard.AQuietCopyIsSent | src/clipboard.rs:231-250 | with a count or without, an unmarked copy of a text not known to be there, left alone for two wanted polls, is sent by the second, or by the first if it was settling |
| Clipboard.WhatAPollForgets | src/clipboard.rs:251-269 | a marked copy, or one with no text, has the poller forget what was there; marks that cannot be told, or a count that moved, only start settling over |
| Clipboard.UnwantedStops | src/clipboard.rs:204-229 | once nobody takes the clipboard nothing is read or settling, and the first poll after takes what is there as known and sends nothing |
| Clipboard.SentIsADistinctUserCopy | src/clipboard.rs:188-286 | each text sent is that of a different copy the user made here; text applied for a peer never is |
| Clipboard.PresentCopyIsNeverSent | src/clipboard.rs:214-229 | the copy there when reading starts, and all before it, are never sent |
| Clipboard.SpentStaysUnsent | src/clipboard.rs:188-286 | nothing up to the last copy sent, applied or found at the start is sent again |
| Clipboard.MarkedIsNeverSent | src/clipboard.rs:82-95 | a copy marked before a poll checks it is found unmarked by none, and with a count is never sent |
| Clipboard.MarkedTextIsSentOnlyUnchecked | src/clipboard.rs:82-95 | in a run from the start, a text only ever copied with a mark is sent only where no count is kept, by the second of two polls in each of which a copy of it landed after that poll's check and before its read |
| Clipboard.MarkedTextIsSent | src/clipboard.rs:82-95 | concrete run from the start in which text only ever held in marked copies is sent |
| Clipboard.StepHolds | src/clipboard.rs:203-286 | every look, copy, mark, poll and write keeps the poller's invariant |
| ClipboardSharing.NothingGoesRoundInCircles | src/clipboard.rs:188-312 | any number of machines, any delivery: never more sends than user copies, and all text applied was copied by some user |
| ClipboardSharing.ClipboardTask.PollOnce | src/clipboard.rs:203-270 | one poll on the poller's own fields |
| ClipboardSharing.ClipboardTask.WriteIncoming | src/clipboard.rs:272-284 | only a write that worked is what the clipboard is taken to hold |
| ClipboardSharing.ClipboardTask.Apply | src/clipboard.rs:309-312 | the latest text waiting replaces the one before |
| ClipboardSharing.ClipboardInbox.NextText | src/clipboard.rs:642-672 | the first text both the switch and the pairing allow; those before it are dropped, those after untouched |
| ClipboardSharing.AdmittedExactly | src/clipboard.rs:642-672 | a text is let in exactly when the pairing takes it, the device its link was made for is on, and so is every device pinned to its sender |
| ClipboardSharing.ClipboardIsTaken | src/clipboard.rs:115-120 | read exactly while some pairing that takes the clipboard has no device switched off here |
| DiscoveredMachines.OnlyAFloodDropsAMachine | src/discovery.rs:377-409 | a machine not withdrawn is dropped only after as many distinct others as the list holds were heard of since |
| DiscoveredMachines.ListedExactlyWhileRecent | src/discovery.rs:377-409 | with nothing withdrawn, listed exactly while fewer distinct others than that were heard of since |
| DiscoveredMachines.RunHolds | src/discovery.rs:366-409 | at most 64 machines of at most 16 addresses, each filed under what it claims, over every run |
| DiscoveredMachines.HeardIsListed | src/discovery.rs:377-409 | a machine heard of is listed under its claim or name, heard now: new, as it announced itself with the first sixteen addresses; known, with claim, name and addresses merged; and no other entry changes but one that makes room |
| DiscoveredMachines.NewsIsAChange | src/discovery.rs:377-409 | it is news exactly when the machine was not listed or its entry comes out another |
| DiscoveredMachines.SameAnnouncementAgain | src/discovery.rs:434-472 | the same announcement is news a second time exactly when its machine was new and its addresses were unsorted or its name numbered, and never a third |
| DiscoveredMachines.WithdrawnUnderItsOwnName | src/discovery.rs:417-425 | a machine filed under a base name is found by the name withdrawn exactly when that base does not itself end in a number in brackets |
| DiscoveredMachines.ABaseCanHaveASuffix | src/discovery.rs:328-338 | a name with two suffixes, whose base is not its own base |
| DiscoveredMachines.ListedAfterItsWithdrawal | src/discovery.rs:377-425 | concrete run: heard of twice, cut to its base, withdrawn under its own name, and still listed |
| DiscoveredMachines.MergeInto | src/discovery.rs:453-472 | the loop that folds an announcement in, and whether anything changed |
| DiscoveredMachines.DiscoveredPeers.Found | src/discovery.rs:377-409 | heard again, added, or added in the stalest one's place; and whether that is news |
| DiscoveredMachines.DiscoveredPeers.StalestKey | src/discovery.rs:385-390 | a machine none was heard from longer ago than |
| DiscoveredMachines.DiscoveredPeers.Lost | src/discovery.rs:417-425 | exactly one machine of that base name is forgotten, none when there is none |
| Discovery.MergeKeepsAddresses | src/discovery.rs:453-472 | no address kept is dropped, each new one there is room for is taken, and the bound holds |
| Discovery.MergeKeepsTheShorterName | src/discovery.rs:453-472 | a claim made is kept and the first is taken; the name gives way only to a base that is shorter in bytes |
| Discovery.BytesOfCharacters | src/discovery.rs:453-472 | a name's length is that of its encoding |
| Discovery.MergeTwiceIsOnce | src/discovery.rs:453-472 | merging the same again changes nothing |
| Discovery.MergeOrderDoesNotMatter | src/discovery.rs:434-446 | addresses that fit end up the same list in whatever order they were announced |
| Discovery.SuffixComesOff | src/discovery.rs:328-338 | a conflict's suffix comes off any name |
| Discovery.OnlyNumbersComeOff | src/discovery.rs:328-338 | a name is cut exactly when it ends, but for spaces, in a number in brackets after a space |
| DialBack.RefusalsAreProven | src/dial_back.rs:120-246 | what each answer of an address comes to, exactly: a link, a removal, a refusal and a link not taken only of the pinned machine, proven; another machine, with the fingerprint it showed; an older version, said in the handshake or after it |
| DialBack.ReachedMeans | src/dial_back.rs:690-706 | a failed dial is taken to have reached its machine, and its addresses are kept, exactly when that machine proved itself and said something of this one |
| DialBack.DialToBeDriven | src/dial_back.rs:251-282 | the first link made, or a failure that none outranks |
| DialBack.OrderDoesNotMatter | src/dial_back.rs:251-293 | in whatever order attempts complete, a link or the same kind of failure is reported |
| DialBack.MostTelling | src/dial_back.rs:251-293 | the failure reported is the most telling: another machine, a removal, a refusal, an older version, a link not taken, silence |
| DialBack.RefusalComesFromThePinnedMachine | src/dial_back.rs:148-282 | a reported refusal, removal or link comes from an address where the handshake completed with the pinned fingerprint |
| DialBack.PeopleAreToldWhatWasProven | src/dial_back.rs:417-439 | what a person is told of a dial that made no link, exactly: another machine answered, if one did anywhere; else the pinned machine, proven, removed this one; else it refused; else an older version answered; else nothing; each of an address that did so |
| DialBack.WaitIsDoubledSinceReset | src/dial_back.rs:633-711 | the wait is a second doubled for each pass since it started over, at most thirty |
| DialBack.EachSleepIsDoubled | src/dial_back.rs:633-711 | each pass sleeps that wait |
| DialBack.Holder.After | src/dial_back.rs:633-711 | how long one pass sleeps and the wait it leaves |
| DialBack.DialBack.Reconcile | src/dial_back.rs:489-538 | afterwards exactly the devices on, addressed and pinned to a machine that may drive this one are held, right ones untouched, others by new tasks, and each link that went was closed once and no other |
| DialBack.EachIsClosedOnce | src/dial_back.rs:506-554 | each link stopped is closed once, with the reason its pairing gives it |
| DialBack.DialBack.StopStale | src/dial_back.rs:506-554 | stops exactly the held links that no longer stay, closing each once |
| DialBack.DialBack.Stop | src/dial_back.rs:541-554 | the close reason is "removed" exactly when no pairing with the other end is held |
| TrustPrompts.DecideTrustPrompt | src/connect.rs:425-440 | nothing, one machine all answers agree on, or a conflict |
| TrustPrompts.NobodyWinsByAnsweringLate | src/connect.rs:416-440 | any order of the same answers decides the same, about the same machine |
| TrustPrompts.OnlyASignatureIsRead | src/connect.rs:442-464 | a machine is read exactly when every answer named it and it signed at an address still dialled |
| TrustPrompts.ADisagreementIsRead | src/connect.rs:442-464 | no one machine is read exactly when two answers named different ones |
| TrustPrompts.OnlyAListedSignerIsMeasured | src/connect.rs:482-501 | a listed machine is measured exactly when every answer named it and it signed somewhere |
| CacheListed.WrittenReadsBack | src/cache_listed.rs:129-141 | what is written parses back to what was recorded exactly when every entry can stand on a line |
| CacheListed.StepKeepsMemoryOnDisk | src/cache_listed.rs:62-141 | memory is what the file says after a step exactly when a write that landed can stand on lines, the file was read, or nothing changed it; an unreadable start breaks it unless the file says nothing |
| CacheListed.MemoryIsOnDisk | src/cache_listed.rs:62-141 | through any mix of records, unrecords, failed writes and starts, readable or not: memory is what the file says exactly when a write landed or a start read the file since the last that did not |
| CacheListed.KeepingOnlyGrows | src/cache_listed.rs:103-118 | while keep is set what the file says grows at every step exactly when no record lands over something memory lacks |
| CacheListed.ReadableStartsNeverOverwrite | src/cache_listed.rs:62-118 | no record does so while every start reads the file, and then memory only grows |
| CacheListed.StillReadsAsRemoved | src/cache_listed.rs:81-118 | a device on disk, still granted and missing from the table reads as removed at a readable start anywhere in the run, exactly when no record that does not name it lands while memory lacks it |
| CacheListed.RecordedStaysOnDisk | src/cache_listed.rs:62-118 | memory lacks such a device exactly from a start that could not read the file until the next that does, or a record that names it |
| CacheListed.WhatARecordHolds | src/cache_listed.rs:103-141 | recording adds the listed and keeps the rest when told to, unrecording drops exactly the named, and a write that works has the file say so |
| CacheListed.SpellingsAreOneEntry | src/cache_listed.rs:54-58 | spellings that differ in case or in the space around them are one entry, with no capital in it |
| CacheListed.UnreadableStartThenRecord | src/cache_listed.rs:62-141 | the run that loses it: an unreadable start, then a record of other devices lands |
| CacheListed.AnUnreadableStartCanForget | src/cache_listed.rs:71-76 | that run on a file of one device |
| CacheListed.NeverListedNeverRemoved | src/cache_listed.rs:81-101 | a device never recorded never reads as removed, whatever starts could read |
| CacheListed.TwoReadsMustAgree | src/cache_listed.rs:143-157 | removed is confirmed exactly for what two reads of the table agree on |
| CacheListed.Listed.Read | src/cache_listed.rs:62-79 | a record read from its file, or empty when it cannot be |
| CacheListed.Listed.Save | src/cache_listed.rs:129-141 | only a change is written, and memory follows only a write that worked |
| CacheListed.Listed.RecordKeeping | src/cache_listed.rs:108-118 | records what is listed, keeping the rest when told to |
| CacheListed.Listed.Unrecord | src/cache_listed.rs:122-126 | stops recording what is dropped |

## Left out

- Crossing.React: the notices capture sends the interface (`Told`), the enter hook and the capture backend's own calls are not modelled; an error of the backend ends the session (`SessionEnds`) after the step it came from, where the source leaves the step early.
- CrossingSafety.StepHolds: assumes nothing of the links and devices, but takes each step as atomic with its sends; a link that changes between two frames of one step is a failed write here.
- Crossing.SendMotion: positions are reals and the sequence number unbounded; the source rounds to 32-bit floats and wraps the number.
- Coalescing.CoalescingShowsTheSame: from a steady moment on, and while the link carries every frame until the visit ends; a send that fails ends the visit, at a moment that depends on when motion is flushed.
- Connection.LanMouseConnection.DialLands: a landing whose certificate cannot be read; the dial read that same connection's when it reached the machine.
- LinkPins.DialFromStartToLanding: the pairing itself, and what it checks as it begins, are ways for a dial to fail (`DialEnds`) between reaching a machine and landing.
- Links: a link gets its serial as it is registered or refused; the source numbers it as it is made.
- Links.WithdrawnTrustWritesNoPress: a write is the moment a frame is handed to the link; what QUIC does with it after is not modelled.
- Registry: fingerprints are canonical, so comparing them exactly and ignoring case are one question; `set_label`, `set_port` and the address setters are edits here, `set_pos`, `set_geometry`, `set_resolving`, `set_peer_commit` and whole-state writes are not modelled (they touch nothing a property here is about).
- Registry.FromEntry: a set of addresses becomes a list in ascending order; the source's order is the hash set's.
- ConfigFile.SwitchedOffMachineGetsNoClipboard: a restart is a save of every device followed by a load; the merge that keeps comments and unknown keys is not part of this model.
- ConfigWatch: parsing, merging and rendering are arbitrary functions (`config/merge.rs` is not part of this model); a change to the file while the watcher is armed is taken to be reported, and the watcher's thread and channel live as long as the daemon.
- ConfigWatch.NoEditStaysUnread: speaks of the text on disk; an edit saved between a save's read and its rename is overwritten, as the source says of itself.
- Clipboard: the count of copies is the copy's number; a copy's text reads the same each time and marks are never removed; a write that fails leaves the clipboard as it was.
- ClipboardSharing.NothingGoesRoundInCircles: the pairing and transport that carry text are an arbitrary delivery of texts some machine sent.
- Discovery: addresses are numbers in their sort order; `classify`, the mDNS responder and the quiet-network notice are left out.
- DiscoveredMachines.OnlyAFloodDropsAMachine: for strictly increasing times; two announcements at one instant leave the choice to the hash map's order.
- DialBack: what a handshake, a pin and a first frame come to is given; sockets, TLS and timeouts are not modelled, nor the port probe of `older_version_at` and the lookup of a hostname.
- CacheListed: lower-casing is that of ASCII letters, all a fingerprint has; durability across power loss is not modelled.
- QUIC and TLS setup, certificates and signing, platform clipboard marks, DNS, mDNS, logging, notices, permissions and the command line are left out.
- The listener, trust store, transport, pairing and emulation are seen only through what they tell the parts modelled.
