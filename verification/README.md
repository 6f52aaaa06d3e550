# Herdr remote: a verified model

Herdr remote lets a phone (the Device) drive terminal panes on a computer (the Host) through a relay that
forwards encrypted frames. This project models the parts of it that keep state or transform data, and proves what
they promise, over every input and every interleaving.

| files | what they model |
|---|---|
| `Store`, `Pairing`, `Host`, `HostProtocol`, `HostSafety`, `HostPhrases`, `HostRuns` | the Host bridge: paired devices on disk, one pairing session, and every task and command interleaving on the state behind one mutex |
| `LineSync`, `InputQueue`, `OutgoingQueue` | bringing a pane's line to what the Device wants, the bridge's request loop with its merging of whole-line inputs, and the thinning of outgoing pane frames |
| `FrameCodec` | compression records, fragments and timed reassembly |
| `Rooms`, `RoomSafety`, `RoomClosing`, `RoomForwarding`, `RoomRuns`, `RoomWedge`, `RoomChains` | the relay's room map and the connections that register, forward, drop their receiver and disconnect later |
| `Limits`, `Push` | the relay's rate limiters and its bounded store of push registrations |
| `Calendar` | the relay log's closed-form calendar and its timestamp text |
| `Text`, `Utf8`, `Phrase`, `HandleCodec`, `PairingUri` | the pairing phrase, the routing handle's text, and the pairing URI |
| `Keychain` | the iOS keychain session, whose reads take the lock twice |

**Form.** An object the program updates in place is a class, and each of its critical sections a method whose
contract gives the whole new state as a function of the old one. Protocols are step relations over those functions;
the main results are about every run of steps, and most are if-and-only-if statements or compare the code with a
reference that is defined without it: counting days one by one, a limiter that forgets nothing, requests served
one at a time, a list rebuilt from the history of enrolments, the context a history of reads unlocked.

**Assumptions.** A task aborted late is a claim dropped as late as it likes; task aborts are never used to rule a step
out. A restart can come at any point and ends every task. Minted handles and claims are new, and the stored list the
Host starts from has distinct device ids and handles. Clock readings are natural numbers of nanoseconds; readings taken
within one critical section are one reading, unless the section reads the clock again after a save or a mint. Inflating
undoes deflating (RFC 1950); an established Noise transport is an in-order channel.

## Where the code and its documentation differ

- `open_pairing` is documented as leaving the stopped state. It returns early while a live pairing is open, and stays
  stopped: `HostSafety.OpenLeavesStopped` gives the exact condition, `HostRuns.OpeningAgainStaysStopped` a run.
- A Device-sent revocation of everything empties the list before it rotates the key; when only the rotation fails, the
  list is gone and no session is closed. `HostSafety.WireRevokeAllCloses` gives the exact condition,
  `HostRuns.RotationFailureKeepsTheSession` a run.
- A leaving peer's application close code is documented as reaching the survivor verbatim. It does not when a
  registration of the handle finds the leaver's channel closed first, and the survivor is told a plain 1001
  (`RoomRuns.ACloseIsLost` gives a run), nor when the survivor's queue holds 32 messages as it is told, and the close
  is dropped (`RoomRuns.ACloseFindsNoRoom`). `RoomClosing.VerbatimIff` says that these are exactly the cases.
- A close, of either kind, is documented as what tells the survivor that its peer is gone. One that finds the queue
  full is not offered again, and the survivor stays out of every room untold: `RoomClosing.LostForGood`.
- A send is documented as never holding a connection for good. Forwarding into a peer's queue has no time limit, and
  two roommates that fill each other's queue stop for good, and with them whoever waits for one of the two:
  `RoomWedge.StuckExactlyWhenWedged` and `RoomChains.StuckForGoodIff` say exactly who and when,
  `RoomWedge.AWedgeIsReached` gives a run.
- Merging consecutive line inputs does not look at the bypass flag, so a run that mixes the flag is not served as its
  requests would be one by one: `InputQueue.MergesExactlyWhenUniform` gives the exact condition,
  `InputQueue.AMixedRunIsReached` a run. With calls to Herdr that fail, `InputQueue.MergesWhateverHerdrDoesIff` does.
- Percent-decoding slices its text by byte position, so a percent sign before a two-byte character can end the call
  without an answer: `PairingUri.PanicsIff` says exactly when, `PairingUri.ParsingCanPanic` gives a text.
- For codec 1 the declared length of a record is only capped, never compared with the output:
  `FrameCodec.DeclaredLengthIsOnlyCapped`.
- Segmentation of a phrase is documented as unambiguous because no hyphenated entry's left half is an entry.
  `Phrase.LeftHalvesAbsentIsEnough` confirms that; `Phrase.DecodesUniquelyIff` gives the weaker condition that is
  necessary and sufficient.

## Model

| member | source | states |
|---|---|---|
| `Store.DeviceStore.Load` | crates/herdr-relay/src/store.rs:119-130 | loading gives the saved list, and an empty one when there is no file |
| `Store.DeviceStore.Save` | crates/herdr-relay/src/store.rs:132-145 | the file changes only when staging and renaming both succeed, and no staged file survives the call |
| `Store.DeviceStore.Add` | crates/herdr-relay/src/store.rs:165-196 | enrolling drops every older entry of the device and appends the new one, in memory only after the save |
| `Store.DeviceStore.Revoke` | crates/herdr-relay/src/store.rs:204-219 | removes the first entry of the device; an unlisted device and a failed save change neither copy |
| `Store.DeviceStore.ClearAll` | crates/herdr-relay/src/store.rs:226-232 | empties both copies and returns what was listed, or changes neither |
| `Store.DeviceStore.TouchLastSeen` | crates/herdr-relay/src/store.rs:235-251 | sets one entry's time in both copies, or changes neither |
| `Store.RunStaysInSync` | crates/herdr-relay/src/store.rs:132-251 | after any calls with any save failures, memory equals what reloading the file gives, and ids loaded distinct stay distinct |
| `Store.FailureChangesNothing` | crates/herdr-relay/src/store.rs:132-251 | a call whose save fails changes neither copy |
| `Store.RunIsEnrolmentOrder` | crates/herdr-relay/src/store.rs:165-251 | from any saved list with distinct ids, the list is exactly the loaded entries that no later call ended, in file order, then the enrolments that no later call ended, in the order they were made, each with its last touch |
| `Pairing.PairingSession.RecordFailedAttempt` | crates/herdr-relay/src/pairing.rs:307-316 | a failure counts against a live phrase only, and the third spends it |
| `Pairing.PairingSession.Regenerate` | crates/herdr-relay/src/pairing.rs:333-343 | only a successful mint replaces the session, with no failures counted |
| `Pairing.LiveMeansUntouched` | crates/herdr-relay/src/pairing.rs:221-328 | between two mints a session is live exactly when fewer than three attempts failed, nothing was enrolled and no reading of the clock was past 600 s; it is then the minted one |
| `Pairing.LiveIsAnInitialStretch` | crates/herdr-relay/src/pairing.rs:221-328 | a session live now was live, with the same credentials, after every earlier operation: nothing expired, spent or used comes back |
| `Pairing.GivenOutIsFresh` | crates/herdr-relay/src/pairing.rs:253-303 | an accessor gives out the minted set, and does so exactly while this and every earlier reading is at most 600 s after the mint, with fewer than three failures and no enrolment |
| `Host.HostState.DoClaimActive` | crates/herdr-relay/src/bridge.rs:1312-1327 | claiming succeeds only with no session active and the bridge not stopped, and marks the link connected |
| `Host.HostState.DoReleaseActive` | crates/herdr-relay/src/bridge.rs:1329-1349 | releasing unregisters the handle, and frees the guard only when it names that handle |
| `Host.HostState.DoSetIdle` | crates/herdr-relay/src/bridge.rs:1353-1358 | idle never overrides a live session or a stop |
| `Host.HostState.DoSetOffline` | crates/herdr-relay/src/bridge.rs:1298-1307 | offline never overrides a live session or a stop |
| `Host.HostState.DoStop` | crates/herdr-relay/src/bridge.rs:581-597 | stop marks the link and keeps the pairing |
| `Host.HostState.DoOpenPairing` | crates/herdr-relay/src/bridge.rs:677-717 | a live pairing is kept as it is; otherwise a successful mint opens a new one and leaves the stopped state |
| `Host.HostState.DoClosePairing` | crates/herdr-relay/src/bridge.rs:568-577 | closing drops the pairing and nothing else |
| `Host.HostState.DoDropDeadPairing` | crates/herdr-relay/src/bridge.rs:1160-1189 | a pass works with a live phrase and its deadline, or destroys the pairing |
| `Host.HostState.DoPairingRegistered` | crates/herdr-relay/src/bridge.rs:1202-1208 | only the pairing whose handle registered is marked |
| `Host.HostState.DoHandshakeFailed` | crates/herdr-relay/src/bridge.rs:1243-1249 | a failed handshake counts against the pairing it came from, if that is still the open one |
| `Host.HostState.DoHandshakeTimedOut` | crates/herdr-relay/src/bridge.rs:1251-1263 | a timed-out handshake closes the pairing it came from, if that is still the open one |
| `Host.HostState.DoEnrolmentTimedOut` | crates/herdr-relay/src/bridge.rs:1409-1417 | an enrolment that ran out of time closes the pairing with that deadline and no other |
| `Host.HostState.DoEnrol` | crates/herdr-relay/src/bridge.rs:1444-1495 | enrolling needs a running bridge, an open deadline and the very phrase on offer; only a saved entry ends the phrase and names the device in the guard |
| `Host.HostState.DoRegisterSession` | crates/herdr-relay/src/bridge.rs:1518-1533 | a session registers only while running, with the host id and handle the store holds for its device |
| `Host.HostState.DoRevokeOne` | crates/herdr-relay/src/bridge.rs:722-761 | removes the entry, closes every session of the device, and frees the guard if it names the device |
| `Host.HostState.DoRevokeAll` | crates/herdr-relay/src/bridge.rs:767-816 | empties the list and the registry and drops the pairing and the guard, or changes nothing |
| `Host.HostState.DoWireRevoke` | crates/herdr-relay/src/watch/devices.rs:80-107 | exactly one of a device and all is accepted; a failed save or rotation closes no session |
| `HostSafety.StepKeepsInv` | crates/herdr-relay/src/bridge.rs:1312-1358 | every step of every task, and a restart, keeps the invariant on the store, the minted handles, the tokens held, the guard, the registry and the link |
| `HostSafety.OneSession` | crates/herdr-relay/src/bridge.rs:1312-1349 | in every reachable state at most one session can dispatch, the guard names exactly it, and nothing else is registered |
| `HostSafety.StaleDropIsHarmless` | crates/herdr-relay/src/bridge.rs:186-190 | dropping any other claim, however late, leaves the session that can dispatch registered and the guard on it |
| `HostSafety.GuardIsNeverLeaked` | crates/herdr-relay/src/bridge.rs:1312-1349 | with no claim outstanding no session is active and none is registered |
| `HostSafety.LinkIsHonest` | crates/herdr-relay/src/bridge.rs:1298-1358 | stopped exactly when the link says so; connected implies an active session; offline implies none |
| `HostSafety.LinkFollows` | crates/herdr-relay/src/bridge.rs:1298-1358 | what the link reads after each step, by what happened: connected from a claim until its session ends, otherwise what a task without a session reports, stopped until a pairing opens |
| `HostSafety.GuardFollows` | crates/herdr-relay/src/bridge.rs:1312-1349 | who holds the guard after each step, by what happened: whoever was granted it, until that session ends; the device enrolled is named from its enrolment on |
| `HostSafety.StoppedAdmitsNothing` | crates/herdr-relay/src/bridge.rs:1446-1533 | while stopped no claim, enrolment or registration changes anything |
| `HostSafety.OpenLeavesStopped` | crates/herdr-relay/src/bridge.rs:677-717 | opening a pairing leaves the stopped state exactly when no live pairing was open and the mint succeeds |
| `HostRuns.OpeningAgainStaysStopped` | crates/herdr-relay/src/bridge.rs:680-686 | a run from a fresh install, open, stop, open again, after which the bridge is still stopped |
| `HostSafety.StopKeepsThePairing` | crates/herdr-relay/src/bridge.rs:581-597 | stop never touches the pairing, the list, the guard or the registry |
| `HostSafety.EnrolmentIsFresh` | crates/herdr-relay/src/bridge.rs:1444-1495 | an enrolment uses the phrase on offer, at most 600 s old with fewer than three failures, by the claim that holds the guard; the phrase is then gone and the device may register |
| `HostPhrases.PhraseGoesOnIff` | crates/herdr-relay/src/bridge.rs:1160-1263 | a step ends the phrase on offer exactly when it reads the clock past 600 s, is its third failed handshake, its handshake timeout, its enrolment or its deadline running out, or closes the pairing, revokes everything or restarts; otherwise the phrase stays, with a failure more if its own handshake failed and marked if its own handle registered |
| `HostPhrases.EnrolmentEndsItsPhrase` | crates/herdr-relay/src/bridge.rs:1456-1495 | a successful enrolment takes the phrase away, unless it ran out during the save, and names the device in the guard, which its claim holds |
| `HostPhrases.DeadPairingIsDropped` | crates/herdr-relay/src/bridge.rs:1160-1189 | a pass and a status report leave a pairing open exactly while its phrase is on offer and not over |
| `HostPhrases.OpeningOffers` | crates/herdr-relay/src/bridge.rs:677-717 | a mint puts its own phrase on offer with nothing counted once none is on offer any more; a failed mint leaves none |
| `HostPhrases.FailuresAreCounted` | crates/herdr-relay/src/bridge.rs:1243-1249 | however the tasks interleave, a phrase still open has counted exactly the failed handshakes of its own handle since it went on offer |
| `HostPhrases.ThirdFailureEnds` | crates/herdr-relay/src/bridge.rs:1243-1249 | from any reachable state, the third failed handshake of a minted phrase ends it for good; failures for other handles do not count |
| `HostPhrases.PhraseCanBeUsed` | crates/herdr-relay/src/bridge.rs:1444-1533 | while the bridge runs with no session, the phrase on offer can be claimed, enrolled with and registered for dispatch until its time is over |
| `HostPhrases.ListedDeviceCanReturn` | crates/herdr-relay/src/bridge.rs:1518-1533 | while the bridge runs with no session, a listed device with a handle can claim and register for dispatch again |
| `HostSafety.GoneForever` | crates/herdr-relay/src/bridge.rs:722-857 | a used handle that no device and no phrase holds stays so, and unregistered, in every later state, across restarts |
| `HostSafety.RevocationIsFinal` | crates/herdr-relay/src/bridge.rs:722-857 | once a revocation succeeds no session of the device dispatches, and no handle it was ever enrolled with can register again, even after the device enrols anew or the bridge restarts |
| `HostSafety.RevokingAllEndsEveryClaim` | crates/herdr-relay/src/bridge.rs:767-816 | revoking everything ends every outstanding claim: its handle can never register or enrol again |
| `HostSafety.WireRevokeAllCloses` | crates/herdr-relay/src/watch/devices.rs:86-93 | a Device-sent revocation of everything closes a live session exactly when both the save and the key rotation succeed |
| `HostSafety.WireAnswerIff` | crates/herdr-relay/src/watch/devices.rs:80-107 | a Device-sent revocation is answered as done exactly when it asks for one thing and all of that went through; then nothing of it is listed or registered |
| `HostRuns.ASessionDispatches` | crates/herdr-relay/src/bridge.rs:1444-1533 | a run from a fresh install in which a Device enrols and its session can dispatch |
| `HostRuns.RotationFailureKeepsTheSession` | crates/herdr-relay/src/watch/devices.rs:86-93 | that run followed by a revocation of everything whose key rotation fails: the list is empty and the session still dispatches |
| `HostSafety.RestartIsSafe` | crates/herdr-relay/src/store.rs:119-145 | a restart is a step of every run: it reads back the list as it was, again with distinct ids and handles, and starts with no task of the old process; handles gone for good stay gone |
| `HostSafety.ListIsTheCalls` | crates/herdr-relay/src/bridge.rs:722-816 | in every run, restarts included, the list and its file are what the calls of its enrolments, touches and revocations make of the list the Host started from |
| `InputQueue.CoalesceInput` | crates/herdr-relay/src/bridge.rs:1831-1863 | takes the longest run of line inputs for one pane, answers for all, and hands back the request that ended it |
| `InputQueue.ReplyToInputs` | crates/herdr-relay/src/bridge.rs:1865-1877 | one acknowledgement per merged correlation id, in order, after what was sent before |
| `InputQueue.JoinsTheRunIff` | crates/herdr-relay/src/bridge.rs:1837-1854 | a request joins the merged run exactly when it and all before it carry a line alone, no text, keys or deferral, for that pane |
| `InputQueue.AcceptedIff` | crates/herdr-relay/src/watch/input.rs:30-65 | a line alone is accepted exactly for the watched pane, without the bypass flag, when Herdr accepts every call |
| `LineSync.ReconcileLine` | crates/herdr-relay/src/watch/input.rs:128-164 | backspaces in batches of 64 down to the common prefix, then the tail typed, stopping at the call that fails with the shadow shortened by the batches that went through |
| `LineSync.ShadowFollowsThePane` | crates/herdr-relay/src/watch/input.rs:128-164 | whatever call fails, the shadow is what the accepted calls made of the pane's line; when none fails both are the wanted line |
| `LineSync.ErasesOnlyTheDifference` | crates/herdr-relay/src/watch/input.rs:134-158 | the calls never erase more than the old line has beyond what the two lines share, at most 64 graphemes a call |
| `LineSync.CallsUpToTheFailure` | crates/herdr-relay/src/watch/input.rs:128-164 | when nothing fails, as few calls as batches of 64 allow and one for a tail that is not empty; when one fails, exactly those before it were made and the line is not taken |
| `InputQueue.LineKeepsTheShadowTrue` | crates/herdr-relay/src/watch/input.rs:44-59 | the bridge's shadow of a pane follows the pane across failures, and is the line once the line is acknowledged |
| `InputQueue.MergesExactlyWhenUniform` | crates/herdr-relay/src/bridge.rs:1831-1863 | while Herdr accepts every call, merging a run equals serving it one by one, from every state, exactly when the bypass flag is the same throughout |
| `InputQueue.MergesWhateverHerdrDoesIff` | crates/herdr-relay/src/bridge.rs:1831-1863 | whichever calls fail, merging equals serving one by one exactly when the run is one request or carries the bypass flag throughout |
| `InputQueue.AMixedRunIsReached` | crates/herdr-relay/src/bridge.rs:1842-1861 | a run of the loop in which a mixed run is refused as a whole, where one by one its first line would have been taken |
| `InputQueue.RequestsAreServedInOrder` | crates/herdr-relay/src/bridge.rs:1969-2143 | served, then in hand, then queued is what arrived, in order, none lost or repeated; each input not deferred is acknowledged exactly once, in that order |
| `InputQueue.MergingIsInvisible` | crates/herdr-relay/src/bridge.rs:2017-2034 | while Herdr accepts every call and no line carries the bypass flag, the shadow lines and everything sent are those of serving each request on its own |
| `InputQueue.QuietStepsTakeTheRun` | crates/herdr-relay/src/bridge.rs:1842-1861 | step by step with nothing arriving, the loop takes up the same run as in one go |
| `OutgoingQueue.Outbox.Drain` | crates/herdr-relay/src/bridge.rs:1879-1896 | takes every waiting message and returns them less the frames a later one replaces |
| `OutgoingQueue.KeepLatest` | crates/herdr-relay/src/bridge.rs:1887-1894 | the backward walk with a set of panes keeps exactly the frames nothing later replaces |
| `OutgoingQueue.LatestIsASubsequence` | crates/herdr-relay/src/bridge.rs:1879-1896 | nothing is added or reordered |
| `OutgoingQueue.LatestKeepsOthers` | crates/herdr-relay/src/bridge.rs:1879-1896 | every message that is not a pane frame is kept, in order |
| `OutgoingQueue.LatestKeepsTheLastFrame` | crates/herdr-relay/src/bridge.rs:1879-1896 | of each pane's frames exactly the last is kept |
| `OutgoingQueue.DeviceEndsTheSame` | crates/herdr-relay/src/bridge.rs:1879-1896 | a Device holding the latest frame per pane ends where the whole batch would have taken it |
| `FrameCodec.BoundedZlibDecompress` | crates/herdr-relay/src/frame_codec.rs:105-124 | the streaming loop gives the bounded result and never holds more than one read buffer beyond the cap |
| `FrameCodec.RecordRoundTrip` | crates/herdr-relay/src/frame_codec.rs:131-189 | a record decodes to its envelope and is at most five bytes longer |
| `FrameCodec.RecordIsTheShorter` | crates/herdr-relay/src/frame_codec.rs:131-151 | a record carries the deflated envelope exactly when that is shorter, behind its length, most significant byte first; only an envelope over 1 MiB has none |
| `FrameCodec.BigEndianShifts` | crates/herdr-relay/src/frame_codec.rs:148 | the length is written most significant byte first |
| `FrameCodec.DecodesIff` | crates/herdr-relay/src/frame_codec.rs:155-189 | a record decodes to an envelope exactly when it is the envelope behind codec 0 and its own length, or inflates cleanly to it behind codec 1 and a length of at most 1 MiB |
| `FrameCodec.DeclaredLengthIsOnlyCapped` | crates/herdr-relay/src/frame_codec.rs:161-184 | for codec 1 any declared length up to the cap is accepted |
| `FrameCodec.FragmentsFit` | crates/herdr-relay/src/frame_codec.rs:195-214 | at most 17 fragments, so the 8-bit casts lose nothing, and each fits a transport message with its tag |
| `FrameCodec.Reassembler.AcceptFragment` | crates/herdr-relay/src/frame_codec.rs:265-351 | the state and answer of one fragment, every rejection included |
| `FrameCodec.IdleUnlessInProgress` | crates/herdr-relay/src/frame_codec.rs:265-351 | every error and every completed record leaves the reassembler idle |
| `FrameCodec.InProgressIsARun` | crates/herdr-relay/src/frame_codec.rs:311-350 | after any calls, a record in progress is the run of fragments since the reassembler was idle, within every limit |
| `FrameCodec.HandedOutIffRun` | crates/herdr-relay/src/frame_codec.rs:265-351 | an envelope is handed out exactly when a complete run of fragments of one count, with gaps of at most 10 s, joins and decodes to it |
| `FrameCodec.ConversationRoundTrip` | crates/herdr-relay/src/frame_codec.rs:131-351 | any list of envelopes built, split and fed in order comes back exactly, if no record is interrupted for more than 10 s; between records any time may pass |
| `Rooms.SessionMap.Register` | crates/herdr-relay-hub/src/session.rs:145-196 | finishes a teardown in flight, then admits or refuses with the error the branch order gives; the limiter is asked only for a Host whose handle is free |
| `Rooms.SessionMap.Disconnect` | crates/herdr-relay-hub/src/session.rs:239-260 | the locked half: takes out the room only while the slot still holds this connection, and names whom it leaves behind |
| `Rooms.SessionMap.TellPeer` | crates/herdr-relay-hub/src/session.rs:261-268 | the half with no lock held: offers the peer left behind the leaver's application close, or a plain departure |
| `Rooms.SessionMap.ClosePeer` | crates/herdr-relay-hub/src/session.rs:288-297 | the close is offered once and lost on a full or closed queue |
| `RoomSafety.StepKeepsInv` | crates/herdr-relay-hub/src/relay.rs:51-150 | every step of every connection keeps the invariant on rooms, channels and addressees |
| `RoomClosing.RoomsAreSound` | crates/herdr-relay-hub/src/session.rs:145-274 | in every reachable state each room has a Host, the cap holds and no channel sits in two slots |
| `RoomClosing.NobodyIsForgotten` | crates/herdr-relay-hub/src/session.rs:153-297 | every open connection is in its room and was offered nothing, or is out of it with exactly one leaver still to tell it, or is out of it and was offered exactly one close, which its queue took, or lost for want of room |
| `RoomClosing.FramesStayOnTheirHandle` | crates/herdr-relay-hub/src/relay.rs:155-163 | every queued frame came from the other end of the same handle |
| `RoomForwarding.LookupFindsThePeer` | crates/herdr-relay-hub/src/relay.rs:155-158 | a frame is on its way to whoever sits in the opposite seat of the handle, and is dropped with nothing changed exactly when nobody does |
| `RoomForwarding.RoommatesGetEverything` | crates/herdr-relay-hub/src/relay.rs:155-163 | of two roommates, every frame one ever had while it was not alone in its room is, verbatim and in order, one the other drained, then one queued for it, then the one still waiting for space: none lost or repeated |
| `RoomForwarding.NothingIsLost` | crates/herdr-relay-hub/src/relay.rs:155-163 | the same for any two connections while the receiving one runs, of the frames forwarded from the one to the other |
| `RoomForwarding.NothingIsReordered` | crates/herdr-relay-hub/src/relay.rs:155-163 | and in any run, even once the receiver has left, what it drained from a sender is an initial stretch of what that sender forwarded to it |
| `RoomClosing.StaleDisconnectIsANoOp` | crates/herdr-relay-hub/src/session.rs:239-252 | a disconnect changes the map exactly when its connection still holds its slot |
| `RoomClosing.OffersAreExact` | crates/herdr-relay-hub/src/session.rs:153-297 | one step offers a connection exactly the close it owes it, what a leaver tells or what a registration finds, and nothing else; the queue then ends in that close exactly when it was open with fewer than 32 messages, and is unchanged otherwise |
| `RoomClosing.QueuedCloseWaits` | crates/herdr-relay-hub/src/relay.rs:111-116 | a close in a queue leaves it exactly when the owner of the queue drains it or drops its receiver |
| `RoomClosing.LostForGood` | crates/herdr-relay-hub/src/session.rs:282-297 | a connection whose one close was lost is never told again, whatever anyone does: it stays out of every room with no close in its queue |
| `RoomClosing.DisconnectHandsOver` | crates/herdr-relay-hub/src/session.rs:239-268 | the locked half of a disconnect offers nothing and leaves the roommate out of the room for the leaver to tell its farewell |
| `RoomClosing.FarewellIs` | crates/herdr-relay-hub/src/session.rs:261-297 | a leaver tells its own close when its code is 4000 to 4999, and otherwise 1001 with the side that is gone named |
| `RoomClosing.SurvivorHears` | crates/herdr-relay-hub/src/session.rs:232-274 | however steps interleave after a peer dropped its receiver, once its disconnect is what ends the room the survivor is offered its farewell, or is still about to be; the queue takes it exactly if it has room when the leaver tells, and nothing later changes that |
| `RoomClosing.SurvivorOfARegistration` | crates/herdr-relay-hub/src/session.rs:153-166 | when a registration of the handle ends the room instead, the survivor is offered a plain 1001, which its queue takes exactly if it has room then, and nothing later changes that |
| `RoomClosing.VerbatimIff` | crates/herdr-relay-hub/src/session.rs:221-270 | once the leaver has nothing left to tell, its application close was taken verbatim by the survivor's queue exactly when its disconnect preceded any registration of the handle and the queue was open with fewer than 32 messages when it told; it was offered verbatim exactly when the disconnect came first |
| `RoomRuns.ACloseIsLost` | crates/herdr-relay-hub/src/session.rs:156-166 | a run in which a registration comes first and the survivor hears a plain departure instead of the application close |
| `RoomRuns.ACloseIsHeard` | crates/herdr-relay-hub/src/session.rs:239-268 | a run in which the survivor is first out of its room and untold, then told the application close |
| `RoomRuns.ACloseFindsNoRoom` | crates/herdr-relay-hub/src/session.rs:261-268 | a run in which nobody registers, the leaver tells a survivor with 32 frames queued, and the survivor runs on outside every room with the close lost |
| `RoomClosing.HostJoinsIff` | crates/herdr-relay-hub/src/session.rs:167-180 | a Host gets its handle exactly when no live room has it, its address is within its allowance and the other rooms leave one free; each refusal names the first of these that fails |
| `RoomClosing.AllowanceIsUsedIff` | crates/herdr-relay-hub/src/session.rs:167-180 | only a Host whose handle no live room has uses up its address's allowance, admitted or not; a Device never does |
| `RoomClosing.DeviceJoinsIff` | crates/herdr-relay-hub/src/session.rs:181-194 | a Device joins exactly a live room, within 600 s of a pairing Host's registration, with an empty seat; each refusal names the first of these that fails |
| `RoomClosing.WindowIsTheHosts` | crates/herdr-relay-hub/src/session.rs:174-187 | in every run, a room records the request its Host registered with, so a Device is late exactly when that request asked for pairing and came more than 600 s before |
| `RoomClosing.RefusalTouchesNoLiveRoom` | crates/herdr-relay-hub/src/session.rs:44-46 | a refused registration, or one on another handle, leaves a live room and its channels as they were |
| `RoomClosing.StragglerReachesTheNewHost` | crates/herdr-relay-hub/src/session.rs:201-208 | lookup is by handle and role: a Device still draining after its Host was replaced reaches the new Host |
| `RoomWedge.WedgedForGood` | crates/herdr-relay-hub/src/relay.rs:155-163 | two connections that wait for each other's full queue wait for good, whatever anyone does |
| `RoomWedge.StuckExactlyWhenWedged` | crates/herdr-relay-hub/src/relay.rs:51-163 | two running roommates have no step left, now or ever, exactly when each waits for the other's full queue |
| `RoomWedge.AWedgeIsReached` | crates/herdr-relay-hub/src/relay.rs:155-163 | a run that gets there: thirty-three frames each way with nobody draining |
| `RoomChains.StuckForGoodIff` | crates/herdr-relay-hub/src/relay.rs:26-29 | any running connection, in its room or not, has no step left, now or ever, exactly when following who waits for whom from it leads to two connections that wait for each other |
| `RoomChains.AStrandedHostSendsOn` | crates/herdr-relay-hub/src/session.rs:201-208 | a run in which a Host outside every room sends to the Device of the room that came after, so that such chains can be longer than one |
| `Limits.IpRateLimiter.Allow` | crates/herdr-relay-hub/src/routes/limits.rs:35-49 | pops what is a window old, then admits below the limit and records the reading |
| `Limits.KeepsEnough` | crates/herdr-relay-hub/src/routes/limits.rs:40-45 | the pruned queue decides as a limiter that never forgot an event |
| `Limits.LetThroughIff` | crates/herdr-relay-hub/src/routes/limits.rs:35-49 | a hit passes exactly when the second ending with it holds fewer than the limit of that address's passed events |
| `Limits.NoSecondHoldsMore` | crates/herdr-relay-hub/src/routes/limits.rs:35-49 | no half-open second of the whole history holds more than the limit for one address |
| `Limits.RefusalMeansFull` | crates/herdr-relay-hub/src/routes/limits.rs:46-48 | a refusal means the last second already held exactly the limit |
| `Limits.AddressesAreIndependent` | crates/herdr-relay-hub/src/routes/limits.rs:39 | each address is treated as if the others had never called |
| `Limits.FrameRateLimiter.Allow` | crates/herdr-relay-hub/src/routes/limits.rs:71-79 | restarts the window a second after it began, counts every frame, admits up to the limit |
| `Limits.AtMostTwice` | crates/herdr-relay-hub/src/routes/limits.rs:71-79 | the fixed window admits at most twice its limit in any half-open second |
| `Limits.TwiceIsReached` | crates/herdr-relay-hub/src/routes/limits.rs:71-79 | the factor two is attained |
| `Push.PushStore.Register` | crates/herdr-relay-hub/src/routes/push.rs:36-59 | a new handle evicts the oldest registration of a full table; a refresh keeps the time of the last wake |
| `Push.PushStore.TakeWake` | crates/herdr-relay-hub/src/routes/push.rs:61-71 | a wake is dropped for an unknown handle or within 30 s of the last, else recorded and returned |
| `Push.PushStore.RemoveGeneration` | crates/herdr-relay-hub/src/routes/push.rs:73-81 | removes the entry only while it is of that generation |
| `Push.RunIsValid` | crates/herdr-relay-hub/src/routes/push.rs:36-81 | after any operations at most 4096 entries, with distinct generations up to the counter |
| `Push.EntryIsTheLastRegistration` | crates/herdr-relay-hub/src/routes/push.rs:48-58 | an entry carries the token of the last registration of its handle and its place in the order of all registrations |
| `Push.FullTableEvictsTheOldest` | crates/herdr-relay-hub/src/routes/push.rs:38-47 | a full table loses exactly the entry whose registration is older than every other live one |
| `Push.LateFailureSparesTheNewRegistration` | crates/herdr-relay-hub/src/routes/push.rs:73-81 | a delivery that fails after the handle registered again changes nothing |
| `Push.FailedDeliveryRetiresIff` | crates/herdr-relay-hub/src/routes/push.rs:73-81 | a failed delivery takes out its handle exactly when it names the registration that made the entry, and touches no other entry |
| `Push.ListedIff` | crates/herdr-relay-hub/src/routes/push.rs:36-81 | after any operations a handle is listed exactly when it was registered and nothing since unregistered it, failed a delivery of that registration, or evicted it as the one registered longest ago |
| `Push.WakeIsDeliveredIff` | crates/herdr-relay-hub/src/routes/push.rs:61-71 | a wake is delivered exactly when the handle is registered and every wake delivered since it was last absent is at least 30 s old |
| `Push.WakesAreSpaced` | crates/herdr-relay-hub/src/routes/push.rs:36-71 | two delivered wakes of a handle not removed in between are at least 30 s apart, even across refreshes |
| `Push.RemovalForgetsTheWake` | crates/herdr-relay-hub/src/routes/push.rs:36-37 | a run in which a removal lets a second wake through at once |
| `Calendar.YearOfEraIsRight` | crates/herdr-relay-hub/src/routes/logging.rs:197-200 | the year of an era is the one whose days hold the day, with no subtraction below zero |
| `Calendar.ClosedFormSteps` | crates/herdr-relay-hub/src/routes/logging.rs:194-205 | every day number gives a valid date, and the next day number the next date |
| `Calendar.ClosedFormCounts` | crates/herdr-relay-hub/src/routes/logging.rs:194-205 | the closed form is the date reached by counting days one by one from 1970-01-01 |
| `Calendar.TimestampRoundTrip` | crates/herdr-relay-hub/src/routes/logging.rs:177-190 | the text is 24 characters, digits with the separators of RFC 3339 at their places, every field in range, and reads back to the instant, up to year 9999 |
| `Calendar.CastIs` | crates/herdr-relay-hub/src/routes/logging.rs:178 | the cast keeps the millisecond count modulo two to the 64, inside the signed range |
| `Calendar.YearTextReads` | crates/herdr-relay-hub/src/routes/logging.rs:185 | any year is written with its sign in at least four characters and reads back |
| `Phrase.Normalize` | crates/herdr-relay-proto/src/phrase.rs:238-253 | trims, lowercases ASCII and collapses each run of spaces and hyphens |
| `Phrase.NormalizedIff` | crates/herdr-relay-proto/src/phrase.rs:238-253 | the normalised text is the one text without double hyphens that the input writes out between blanks: each hyphen as a run of whitespace and hyphens, anything else as itself, ASCII letters in either case |
| `Phrase.NormalizedIsNormal` | crates/herdr-relay-proto/src/phrase.rs:234-237 | it has no upper-case ASCII letter, no whitespace and no double hyphen, and normalising it again changes nothing |
| `Phrase.SegmentWords` | crates/herdr-relay-proto/src/phrase.rs:207-232 | the loop over byte spans yields the left-to-right regrouping of the parts |
| `Phrase.ParseCanonical` | crates/herdr-relay-proto/src/phrase.rs:138-170 | the first failure in the order list size, separator, case, word count, word; else the normalised text with its words |
| `Phrase.RejectsIff` | crates/herdr-relay-proto/src/phrase.rs:134-160 | which failure is reported for which text, each exactly |
| `Phrase.ParsedIsListed` | crates/herdr-relay-proto/src/phrase.rs:138-170 | for any list, a parsed phrase has six listed words that join to its canonical text, the normalised candidate |
| `Phrase.DecodesUniquelyIff` | crates/herdr-relay-proto/src/phrase.rs:191-206 | every six entries are read back as themselves exactly when no one-part entry followed by the first part of an entry spells a third |
| `Phrase.LeftHalvesAbsentIsEnough` | crates/herdr-relay-proto/src/phrase.rs:199-206 | it suffices that no hyphenated entry's left half is an entry |
| `Phrase.ClashIsMisread` | crates/herdr-relay-proto/src/phrase.rs:216-230 | otherwise every choice that begins with the clash is misread |
| `Phrase.ParsesIff` | crates/herdr-relay-proto/src/phrase.rs:138-170 | a text parses to a phrase exactly when it normalises to the hyphenated join of its six listed entries |
| `Phrase.AcceptsIff` | crates/herdr-relay-proto/src/phrase.rs:138-170 | a text parses to a phrase exactly when, between blanks, it writes out the hyphenated join of its six listed entries |
| `Phrase.WrittenFormsRoundTrip` | crates/herdr-relay-proto/src/phrase.rs:175-188 | the canonical text and the display form both parse back to the generated phrase |
| `Phrase.AnyWritingParses` | crates/herdr-relay-proto/src/phrase.rs:234-253 | a generated phrase is recovered in any letter case, with any runs of spaces and hyphens between its words and blanks around it |
| `Phrase.DifferentChoicesDiffer` | crates/herdr-relay-proto/src/phrase.rs:110-123 | different choices of words have different canonical texts |
| `HandleCodec.ParseIff` | crates/herdr-relay-proto/src/handle.rs:75-99 | a text is accepted as a handle exactly when it is that handle's 22 characters |
| `HandleCodec.TextSpellsTheBits` | crates/herdr-relay-proto/src/handle.rs:73-77 | the 22 characters spell the 128 bits in the alphabet of RFC 4648 section 5, most significant first, four characters for three bytes and two for the last |
| `HandleCodec.RejectsIff` | crates/herdr-relay-proto/src/handle.rs:78-99 | a text is refused for its length exactly when that is not 22, otherwise exactly when it is the text of no handle |
| `PairingUri.PercentEncode` | crates/herdr-relay-proto/src/handle.rs:250-261 | every byte outside the unreserved set becomes an upper-case escape |
| `PairingUri.EncodedByteIs` | crates/herdr-relay-proto/src/handle.rs:250-261 | the unreserved characters of RFC 3986 section 2.3 stand for themselves, every other byte for its two upper-case digits |
| `Utf8.LossyIsWellFormed` | crates/herdr-relay-proto/src/handle.rs:279 | whatever bytes are decoded, the result is a text |
| `Utf8.LossyIsIdentityIff` | crates/herdr-relay-proto/src/handle.rs:279 | the conversion of decoded bytes changes nothing exactly when they are well-formed UTF-8 |
| `Utf8.WellFormedIff` | crates/herdr-relay-proto/src/handle.rs:279 | the texts are exactly the encodings of sequences of code points by the table of RFC 3629 |
| `Utf8.LossyKeeps` | crates/herdr-relay-proto/src/handle.rs:279 | the conversion keeps a code point at the front |
| `Utf8.LossyReplaces` | crates/herdr-relay-proto/src/handle.rs:279 | where none is, one U+FFFD stands for the longest front that could have begun one, or for a single byte |
| `PairingUri.PercentDecode` | crates/herdr-relay-proto/src/handle.rs:263-280 | escapes become bytes, anything else is kept, a sign after the percent included as the number parser allows; malformed UTF-8 is replaced, and slicing inside a character does not return |
| `PairingUri.EscapesIff` | crates/herdr-relay-proto/src/handle.rs:270-273 | two characters are read as a byte exactly when they are its hexadecimal digits in either case, or a plus sign and its only one |
| `PairingUri.PanicsIff` | crates/herdr-relay-proto/src/handle.rs:268-270 | decoding fails to return exactly on a percent sign with a continuation byte three places on |
| `PairingUri.PercentRoundTrip` | crates/herdr-relay-proto/src/handle.rs:250-280 | decoding undoes encoding exactly on well-formed UTF-8, that is on every text |
| `PairingUri.OriginIff` | crates/herdr-relay-proto/src/handle.rs:238-245 | an origin is http or https followed by a host with no path, query, fragment or user |
| `PairingUri.ParseQuery` | crates/herdr-relay-proto/src/handle.rs:209-230 | fills four slots pair by pair, the origin decoded; the first pair without a value or repeating a known key fails |
| `PairingUri.FieldsIff` | crates/herdr-relay-proto/src/handle.rs:209-230 | a query is read exactly when every pair has a value, each known key occurs at most once and the origin decodes; order does not enter |
| `PairingUri.Build` | crates/herdr-relay-proto/src/handle.rs:155-162 | the prefix and the four fields in order |
| `PairingUri.Parse` | crates/herdr-relay-proto/src/handle.rs:170-198 | the first failure in the code's order, or the three fields |
| `PairingUri.EarlyFailures` | crates/herdr-relay-proto/src/handle.rs:170-180 | which text is refused for its length, its scheme, its path or a missing query, each exactly and in that order |
| `PairingUri.FirstFailureDecides` | crates/herdr-relay-proto/src/handle.rs:209-228 | of a query the first pair that cannot be read decides: without a value, a known key given before, or an origin whose decoding does not return |
| `PairingUri.FieldFailures` | crates/herdr-relay-proto/src/handle.rs:181-192 | of the fields read: version, missing field, origin, handle, in that order, each exactly |
| `PairingUri.ParseIff` | crates/herdr-relay-proto/src/handle.rs:170-198 | a text is accepted as a URI exactly when it is at most 512 bytes and spells it: prefix, then pairs giving each field exactly once, the origin being what its value decodes to with malformed UTF-8 replaced |
| `PairingUri.ParsedOriginIsText` | crates/herdr-relay-proto/src/handle.rs:170-198 | the origin that parsing returns is well-formed UTF-8, whatever was escaped |
| `PairingUri.ParsingCanPanic` | crates/herdr-relay-proto/src/handle.rs:268-270 | a text whose parsing does not return |
| `PairingUri.AsciiParsingReturns` | crates/herdr-relay-proto/src/handle.rs:170-230 | parsing an ASCII text always returns |
| `PairingUri.BuildReadsBackIff` | crates/herdr-relay-proto/src/handle.rs:154-198 | for an origin that is a text, a built URI is read back exactly when the origin is valid, the phrase holds no ampersand and it fits 512 bytes |
| `PairingUri.AnyOrderReadsBack` | crates/herdr-relay-proto/src/handle.rs:164-230 | any order of the four fields with unknown fields between reads back the same |
| `Keychain.KeychainSession.Invalidate` | app/ios/Runner/KeychainSession.swift:30-38 | both contexts are invalidated and dropped and the generation advances |
| `Keychain.KeychainSession.BeginRead` | app/ios/Runner/KeychainSession.swift:41-62 | refuses other keys and a stale generation; a device-key read gets a fresh context, a Host read the silent stored one or a fresh silent one |
| `Keychain.KeychainSession.FinishRead` | app/ios/Runner/KeychainSession.swift:77-100 | an overtaken read changes nothing; otherwise the context is silenced and kept, dropped or replaced as the outcome says |
| `Keychain.ReadBeginsIff` | app/ios/Runner/KeychainSession.swift:41-62 | a read begins exactly for the device key or a Host key with the current generation, the number of invalidations so far; only the device-key read authenticates, with a fresh context |
| `Keychain.AnswersIff` | app/ios/Runner/KeychainSession.swift:77-100 | a read answers with a text exactly when nothing invalidated the session since it began and the query found that text; a missing item is a success without a value, undecodable bytes a decoding error, an overtaken read cancelled, any other failure its own status |
| `Keychain.StepKeepsInv` | app/ios/Runner/KeychainSession.swift:30-101 | every event keeps the invariant on stored, pending and active contexts |
| `Keychain.ContextIsUnlocked` | app/ios/Runner/KeychainSession.swift:77-100 | the stored context is exactly what the history unlocked: a failed unlock keeps the earlier one unless the item is missing, and nothing survives an invalidation |
| `Keychain.FormerUnlocksAreDead` | app/ios/Runner/KeychainSession.swift:83-98 | a context that once unlocked the session is invalidated as soon as it no longer does |
| `Keychain.StoredContextIsSilent` | app/ios/Runner/KeychainSession.swift:80-99 | the stored context is usable and never allows interaction |
| `Keychain.OnlyTheUnlockPrompts` | app/ios/Runner/KeychainSession.swift:47-62 | a context that could still prompt belongs to an undisturbed device-key read under way |
| `Keychain.DataOnlyIfUndisturbed` | app/ios/Runner/KeychainSession.swift:77-100 | a read returns data exactly when nothing invalidated the session since it began and the query found text; overtaken, it is cancelled and changes nothing |
| `Keychain.HostReadsReuseTheUnlock` | app/ios/Runner/KeychainSession.swift:58-61 | a Host read uses the unlocked context if there is one and can never prompt |

## Left out

- Sockets, TLS, WebSocket framing, the Noise handshake, task scheduling and timers: an await is a point where other steps may run, and an established transport an in-order channel.
- The `registrations` map and task handles of the Host: aborts are never relied on, so they restrain nothing here; the stop signal and the log lines are left out with them.
- Key material and its rotation: only whether the rotation of a Device-sent revocation succeeds. The value of a pre-shared key is its canonical phrase.
- zlib and QR encoding: zlib is a pair of functions of which only inflate-after-deflate is assumed; the QR grid is carried, not computed.
- Other Herdr calls: every request but a whole-line input has an arbitrary effect, a deferred one included. A call that fails is taken to have typed and erased nothing, and a line to be a sequence of graphemes that stay apart when joined.
- The read schedule of the watched pane and every subscription event: a tick has an arbitrary effect.
- `accepted` of an input that is neither a line nor deferred is arbitrary; that it is answered exactly once is proved.
- Limits.IpRateLimiter.Allow: its whole-history guarantees are stated for readings in order, because the code reads the clock before it takes the lock.
- Rooms.SessionMap.Register: the limiter and the room read the clock separately; one reading stands for both. A critical section is one step.
- Rooms.SessionMap.ClosePeer: a queue slot granted to a waiting sender but not yet filled counts as free, so a close that comes in between is taken here and lost there.
- Unbounded counters: the push generation, the keychain generation and frame counts do not wrap; the hub's metrics are left out.
- Store.DeviceStore.Load: an unreadable or malformed file, on which loading fails and the bridge does not start.
- The phrase of a pairing URI is any bytes without further structure; that it is a text is not used.
- Push frames' JSON and role check, and whether a provider is configured: they precede the store and decide nothing in it.
- `LAContext` objects are entries of a table under their identity; what the system query returns is a parameter.
- 64-bit overflow of the day number: millisecond counts stay far inside it.
- Popup drawing, themes, iOS views, configuration, heartbeat, backoff, close-code tables, word-list download: they would add only easier members.
