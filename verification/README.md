# Verified services of the Attadipa watch

A Dafny model of the small stateful services of the watch's firmware and of its simulator, and
proofs of what their comments promise: transactions that leave a record of what could not be undone,
queues and rollbacks that keep three accounts of the same input in step, durable gates over a stored
passkey, races between starting a radio scan and tearing it down, trust that falls at once and has to
be earned back, simulators that take over one socket name, an entry screen whose drawn keys are
exactly its live ones, and the integer algorithms underneath.

Code that changes fields is a class whose methods are proved against a value-level specification;
protocols between tasks or processes are transition systems, one step per access to what is shared,
with their properties proved over every run. Hardware, flash, radio tasks and boards are adversaries:
every step may fail in any way its interface admits, and a ghost field records what then happened.

| file | what it models |
|---|---|
| PowerState, PowerLeases, PowerTrace, PowerRails, PowerJournal, PowerOwner | power states, the lease table, and the sleep transaction with its journal and recovery |
| InputModel, Input, RemoteInput | input events and what they leave held, the ring queue and the state machine, and the second FIFO the interface reads in bursts |
| BridgeModel, RateWindow, BridgeRequests, Bridge | the device end of the debug channel: remote input with rollback, expiry and a rate window, the chunked screen transfer watched by a strict host, and what each request and each tick does |
| DebugSession | channel, queue and interface running together |
| Protocol | the wire form of that channel: fields, bodies, envelope |
| ForgetBond | a forget-bond request, the atomic slot and the worker, interleaved |
| Passkey, NodeForget, Discovery | the stored passkey and its two gates, forgetting a node, and who owns radio discovery |
| TrustModel, TrustHistory, Trust, TrustBaseline | evidence, score, state and log of the trust engine, what any history of calls makes of them, and the baseline movement is measured from |
| SocketClaim | simulators starting, closing and dying on one socket path |
| Calendar, ProvisioningModel, ProvisioningRun, Provisioning | the integer calendar, and the screen that sets the clock and the passkey: its fields and keys, its steps over any run of screens, and the classes that carry them out |
| Geo, GeoScale | square root, cosine and distance in integers, and what they come to on the globe |
| Utf8 | prefixing and trimming of UTF-8 text |
| Wrappers | what may be missing |
| Checksums, CrcDivision, Png | CRC-32 with the polynomial division it is, Adler-32, and the PNG file with a reader written from the standards |

`dafny verify dfyconfig.toml` checks everything.

## What turned out not to hold

- `isqrt` is announced as exact for every input. For 2^64 - 1 the first sum wraps to zero and the next
  step divides by zero; for every other input it is exact (`Geo.Isqrt`). No caller passes that value.
- `recover_below < degrade_at` does not keep the trust state within what the evidence allows when
  `untrust_at` is lower still. It is kept along every history exactly when no reasons that can stand
  together score at least the lower threshold and at most `recover_below`
  (`TrustHistory.NeverTooGoodIffNoOverlap`); where some do, the engine is driven past it
  (`Trust.OverlapOvershoots`, and with a poor accuracy of weight 15 `Trust.BelowDegradeIsNotEnough`).
  Under the default policy nothing overlaps.
- `forget_node` takes its marker down over a refusal and over nothing to forget. Trust is then lost under
  a passkey the next boot replays if a refused bond deletion took effect all the same, or if the pin was
  already out of memory and still on flash; and a marker that an earlier forget left standing comes down
  with it. What the caller can read beforehand decides it: on any other standing no step can do either
  (`NodeForget.SafeUnlessExposed`), on these some do (`NodeForget.ExposedBoardLeaks`,
  `NodeForget.RefusedDeletionThatLanded`), and forgetting twice re-arms the old passkey
  (`NodeForget.ForgottenTwice`). The guard in front of it, firmware/main/meshcore_ble.cpp:2826-2845,
  refuses a forget with neither a conflict nor a published pin, and is not part of the sequence.
- A consumer can be resumed onto a rail that is still down, in a transaction and in a recovery, where
  core/src/power_owner.cpp:214-215 has it as never. What a caller can read beforehand decides it, whatever the
  hardware then answers: no transaction of a plan resumes anything in the dark if and only if the plan cuts no
  rail (`PowerRails.NeverInTheDarkIffNothingCut`), and no recovery does if and only if no domain is owed both
  its rail and its resume (`PowerRails.NeverRecoversInTheDarkIffApart`). Otherwise the hardware can bring it
  about for every such domain (`PowerRails.ResumedInTheDark`, `PowerRails.RecoveredInTheDark`), and it has then
  refused to restore exactly that rail (`PowerRails.ResumedOntoDownRail`, `PowerRails.RecoveryOntoDownRail`).
- `max_events_per_s` is a limit on a window, not on any second: twice as many pass in two milliseconds
  across the end of one (`RateWindow.TwiceInTwoMilliseconds`), and never more (`RateWindow.SecondKeepsTwice`).
  Every second keeps the limit if and only if the limit is 0 (`RateWindow.OnlyNothingIsLimited`).
- That no request goes out over an answer nobody has read holds for a screen's own requests and for every
  forget. A passkey or a forget does go out over a passkey that an earlier screen left unanswered
  (`ProvisioningRun.NothingOverItsOwn`), in no run without a screen that was left or replaced while it waited
  (`ProvisioningRun.OverPasskeyOnlyIfGivenUp`); and every run that owes no forget goes on to a passkey asked
  over whatever it left unread (`ProvisioningRun.UnreadPasskeyIsAskedOver`,
  `ProvisioningRun.AskedOverAnEarlierScreen`).

## Model

| member | source | states |
|---|---|---|
| PowerState.DeeperStatesArmLess | core/src/power_state.cpp:5-43 | a deeper state never accepts a wake source a shallower one refuses, and below MeshListenSleep nothing over the air may wake the watch |
| PowerState.MasksAreExact | core/src/power_state.cpp:5-43 | source by source: any source there is may wake a light sleep; all but touch, USB and the accelerometer a mesh-listen sleep; only timer, button and PMU a deep one; only button and PMU from off; and the masks admit exactly that and name exactly the sources that should not have been armed |
| PowerState.SleepIsEnteredFromIdle | core/src/power_state.cpp:45-86 | every legal way into a resting state starts from Idle, and a retained one only goes back there or off |
| PowerState.WhereStatesLead | core/src/power_state.cpp:45-86 | the whole table: where each state may go and nowhere else |
| PowerLeases.KeysIdentifyHandles | core/include/attadipa/core/power_owner.h:110-176 | a handle names one slot and one generation and nothing else, so handles are never confused |
| PowerLeases.DistinctSlotsBound | core/include/attadipa/core/power_owner.h:110-176 | live leases are at most the table's capacity, whatever was granted |
| PowerLeases.LeaseTable.Acquire | core/src/power_owner.cpp:69-128 | a handle is granted exactly when a slot is free that has one left; it was never granted before; Retired is answered exactly when every handle the budget allows has been, and for ever after |
| PowerLeases.LeaseTable.Release | core/src/power_owner.cpp:130-152 | exactly a live handle can be released, once; a refused one, spent or never issued, changes nothing |
| PowerLeases.LeaseTable.Held | core/src/power_owner.cpp:154-163 | the mask is exactly the domains some live lease names |
| PowerLeases.LeaseTable.OverdueDomains | core/src/power_owner.cpp:170-180 | exactly the domains of live leases past their deadline, at any time of asking |
| PowerLeases.LeaseTable.CountersFit | core/src/power_owner.cpp:69-163 | over any run the per-domain counts and the total equal the counts over live leases and stay within eight bits |
| PowerTrace.TouchesOnlyThePlan | core/src/power_owner.cpp:389-486 | a transaction neither takes down nor brings back anything its plan does not name |
| PowerTrace.StoppedIn | core/src/power_owner.cpp:389-486 | a phase that stopped at a failure is a prefix of the program, and its record is exactly what undoing it in reverse takes |
| PowerTrace.Slept | core/src/power_owner.cpp:389-486 | a completed forward part runs the whole program, and the three records undo it step by step in reverse |
| PowerJournal.UnwindOne | core/src/power_owner.cpp:263-333 | each undo goes on to the next one whether or not it worked, and a failure is journalled, named and makes the board unknown |
| PowerJournal.RetryAll | core/src/power_owner.cpp:212-261 | a recovery asks for exactly what is owed, sources then rails then consumers, and ends with a clean board exactly when every answer was success |
| PowerJournal.Concludes | core/src/power_owner.cpp:335-519 | forward calls and their undoing make one transaction after which the journal covers whatever the board may still hold |
| PowerRails.ResumedOntoDownRail | core/src/power_owner.cpp:263-333 | a transaction tries to restore every rail it cut before it resumes that rail's consumer, and resumes it onto a dark rail exactly when that failed |
| PowerRails.RecoveryOntoDownRail | core/src/power_owner.cpp:212-261 | the same of a recovery and the rails it owed |
| PowerRails.ResumedInTheDark | core/src/power_owner.cpp:263-333 | the exception happens for every domain a plan suspends and cuts: the calls of a transaction that resumes it in the dark |
| PowerRails.NeverInTheDarkIffNothingCut | core/src/power_owner.cpp:263-333 | for every plan that cuts only what it suspends: no transaction, whatever the hardware answers, resumes a consumer onto a dark rail if and only if the plan cuts no rail |
| PowerRails.NeverRecoversInTheDarkIffApart | core/src/power_owner.cpp:212-261 | no recovery does, whatever the hardware answers, if and only if no domain is journalled both for its rail and for its resume |
| PowerRails.RecoveredInTheDark | core/src/power_owner.cpp:212-261 | for every domain that is, the calls of a recovery that resumes it in the dark |
| PowerOwner.PowerOwner.UnwindSuspend | core/src/power_owner.cpp:263-285 | resumes the recorded domains once each, last first, and journals exactly those whose resume failed |
| PowerOwner.PowerOwner.UnwindRails | core/src/power_owner.cpp:287-305 | the same for rails |
| PowerOwner.PowerOwner.UnwindWake | core/src/power_owner.cpp:307-333 | the same for wake sources |
| PowerOwner.PowerOwner.Recover | core/src/power_owner.cpp:212-261 | retries the whole journal; on success the board is clean, known and Active, and otherwise what is still owed is named |
| PowerOwner.PowerOwner.Validate | core/src/power_owner.cpp:335-387 | a plan runs exactly when it rests, arms only sources that may wake that state, cuts only what it suspends and touches nothing leased; otherwise the first fault is named, and with it exactly the sources, rails or domains at fault |
| PowerOwner.PowerOwner.Sleep | core/src/power_owner.cpp:335-519 | on every path, whatever the hardware answers: the calls are the recovery and then one transaction or nothing; everything possibly left down, cut or armed is journalled and reported; every cause of a wake is reported and one the plan did not arm is named; the board is known exactly when the journal is empty, and then Active; and a light sleep that arms sources there are, cuts only what it suspends and suspends nothing leased is carried out |
| PowerOwner.PowerOwner.Acquire | core/src/power_owner.cpp:184-194 | no lease on hardware that is not known, and otherwise what the table answers |
| PowerOwner.PowerOwner.Release | core/src/power_owner.cpp:196-201 | a live lease is released whether or not the hardware is known |
| PowerOwner.LeasedDomainsUntouched | core/src/power_owner.cpp:335-486 | no call of a transaction, in either direction, concerns a domain with a live lease |
| InputModel.UndoRestores | debug/src/bridge.cpp:742-788 | the opposite event restores holders and coordinates, exactly when a lift was by the finger's own origin |
| InputModel.HeldFingerIsAdmitted | core/src/input.cpp:50-124 | a finger that a history holds down is one the touch stack admits |
| Input.InputQueue.Push | core/src/input.cpp:5-15 | an event is kept in order or counted as dropped, never both, and pushed equals popped, flushed and held together |
| Input.InputQueue.Pop | core/src/input.cpp:17-27 | events leave in the order they came, each once |
| Input.InputQueue.Clear | core/src/input.cpp:29-38 | a discard empties the queue and is counted |
| Input.InputState.Apply | core/src/input.cpp:50-124 | an event takes effect exactly when it is possible from what is held, and a refused one changes nothing |
| Input.InputState.ReleaseAll | core/src/input.cpp:126-168 | one release reaches the queue for everything let go, nobody else's hold and no coordinate changes, and what stays held does so only because the queue is full |
| Input.InputState.CountHeld | core/src/input.cpp:170-182 | counts exactly what an origin holds |
| RemoteInput.TranslateConcat | sim/remote_input.cpp:161-235 | what later events say to the interface depends on earlier ones only through the last transition |
| RemoteInput.ToldEverything | sim/remote_input.cpp:161-235 | an interface that has been told every event sees the pointer as the state machine holds it |
| RemoteInput.PointerPath.ReadPointer | sim/remote_input.cpp:90-133 | each read delivers the next transition or repeats the last, and asks to be called again only while the burst bound allows |
| RemoteInput.PointerPath.ReadBurst | sim/remote_input.cpp:90-133 | a burst delivers everything waiting up to the bound, in order, and ends |
| RemoteInput.PointerPath.Pump | sim/remote_input.cpp:161-235 | the queue is drained until it is empty or its next event has no room, which then stays queued |
| RemoteInput.PointerPath.NothingDropped | sim/remote_input.cpp:63-133 | at every step, what was read, what waits and what the queued events will say are together the translation of everything ever pushed |
| RemoteInput.PointerPath.Settled | sim/remote_input.cpp:63-133 | with both buffers empty the interface's pointer is the held one |
| DebugSession.Step | sim/main.cpp:341-370 | each act does what it should and nothing else: a message is answered as its kind says and the host hears the answer, a tick and a disconnection let go what they should, a pump sends the next of the screen, a drain hands over until the next event has no room, and a read delivers the next transition or repeats the last |
| DebugSession.Run | sim/main.cpp:307-370 | from nothing, after any of these in any order, each having done exactly that: the interface was told in order, once each, what everything ever queued says; the state machine holds what the history tells; the host has understood everything; and with both buffers empty the pointer shown is the one held |
| DebugSession.TransferTakesItsPumps | debug/src/bridge.cpp:592-626 | over any run: as long as the session lasts, a running transfer is running until exactly the pump it was announced to end with, whatever comes between; that one sends the end, and the frame has not changed |
| DebugSession.OnlyPumpsSend | debug/src/bridge.cpp:76-397 | nothing but a pump and the end of a session moves a running transfer, and nothing at all its frame |
| BridgeModel.StreamsChunk | debug/src/bridge.cpp:592-626 | the next chunk is the one a strict host accepts, and one pump fewer is left |
| BridgeModel.WelcomeUndone | debug/src/bridge.cpp:734-788 | an acceptable remote event can be taken back from any history without a trace |
| DebugBridge.Bridge.HandleScreen | debug/src/bridge.cpp:500-590 | a transfer starts exactly from a whole frame that fits while none runs, is announced with its length and CRC-32, and every refusal says which thing to look at |
| DebugBridge.Bridge.Pump | debug/src/bridge.cpp:592-626 | every pump sends the next chunk, or the end once all is sent, leaves one fewer to do and never confuses the host; so n bytes end after ceil(n/178)+1 pumps |
| DebugBridge.Bridge.RateAllows | debug/src/bridge.cpp:628-639 | the answer, and the window it leaves, are those of the window over everything ever asked |
| RateWindow.WindowKeepsLimit | debug/src/bridge.cpp:628-639 | no window lets through more than the limit, whatever the clock does |
| RateWindow.RefusedWhenFull | debug/src/bridge.cpp:628-639 | a refusal has as many let through behind it as the limit, all in the window in force, which opened less than a second ago |
| RateWindow.SecondKeepsTwice | debug/src/bridge.cpp:628-639 | on a clock that does not go back, no thousand milliseconds let through more than twice the limit |
| RateWindow.TwiceInTwoMilliseconds | debug/src/bridge.cpp:628-639 | for every limit there is a run in which that many pass within two milliseconds |
| RateWindow.OnlyNothingIsLimited | debug/src/bridge.cpp:628-639 | every second on every onward clock keeps the limit if and only if the limit is 0 |
| DebugBridge.Bridge.HandleInput | debug/src/bridge.cpp:641-817 | refused for its body exactly if it does not decode, for the rate exactly when the window refuses; otherwise applied and queued, once, exactly if it is welcome and the queue has room, and else neither, coordinates and timers included, for the reason the code gives; and accepted it is obeyed to the letter |
| BridgeRequests.AcceptedIsObeyed | debug/src/bridge.cpp:641-817 | an accepted request holds or frees exactly its button, or presses, moves or lifts at exactly its point under its finger, on the panel; one event more is queued, at the client's time or the device's if it gave none, and the hold timer runs on the device's |
| DebugSession.TouchIsSeen | sim/remote_input.cpp:161-235 | from empty buffers, an accepted touch, a drain and a read leave the interface at exactly the point asked for, pressed for a press or a move and released for a lift, and the state machine holds it under the finger asked for |
| DebugSession.Touch | sim/main.cpp:341-370 | the same, carried out on bridge, queue and interface |
| DebugBridge.Bridge.Offer | debug/src/bridge.cpp:734-795 | apply, push and roll back: the state still replays from the queue's history when the queue is full |
| DebugBridge.Bridge.HandleInputReset | debug/src/bridge.cpp:819-840 | the two numbers are what reached the queue and what could not |
| DebugBridge.Bridge.Tick | debug/src/bridge.cpp:842-939 | the buttons in order and then the pointer: each that the remote has held past its limit is let go while the queue has room |
| BridgeRequests.TickLetsGoExpired | debug/src/bridge.cpp:842-939 | of that: only remote holds past their limit are let go, nothing else changes, and one that outlives its limit does so only over a full queue |
| DebugSession.PressIsTimed | debug/src/bridge.cpp:797-811 | what an accepted request puts down is held from the device's time of the request |
| DebugSession.HoldEndsInTime | debug/src/bridge.cpp:887-939 | over any run, what the remote put down and has held since is let go by the first tick more than max_hold_ms later that has room for it, and by none before |
| DebugBridge.Bridge.OnDisconnect | debug/src/bridge.cpp:941-953 | the remote's holds are let go as far as the queue has room, nobody else's, and the transfer is over |
| DebugBridge.Bridge.HandleHello | debug/src/bridge.cpp:399-454 | a decodable Hello ends the old session in full before it is answered; a strict host never sees a left-over chunk |
| DebugBridge.Bridge.HandleWaitStable | debug/src/bridge.cpp:140-176 | never ready while an event waits in the queue |
| DebugBridge.Bridge.Handle | debug/src/bridge.cpp:76-397 | a message that does not decode changes nothing and is not answered; any other is answered once under its own number, and by its kind: the answer, the new state of input, queue, timers, window, transfer and frame, and each refusal with its code; one for another channel or version is refused as such |
| Protocol.GetPut | debug/src/protocol.cpp:14-53 | a number that fits its bytes comes back from them |
| Protocol.PutGet | debug/src/protocol.cpp:14-53 | every run of bytes is the writing of the number it reads as |
| Protocol.GetU64 | debug/src/protocol.cpp:46-53 | the accumulating loop reads the little-endian number |
| Protocol.PutBytes | debug/src/protocol.cpp:14-33 | the writing loop leaves the number's bytes there and touches nothing else |
| Protocol.InputEventRoundTrip | debug/src/protocol.cpp:274-300 | an input body survives encoding, negative coordinates included, and only a short body is refused |
| Protocol.ScreenInfoRoundTrip | debug/src/protocol.cpp:240-270 | the screen announcement survives encoding in both directions |
| Protocol.TimeSyncExact | debug/src/protocol.cpp:304-333 | a time-sync body decodes exactly when it is the encoding of a request |
| Protocol.HelloRoundTrip | debug/src/protocol.cpp:145-175 | Hello survives encoding, and the older body reads as the same Hello with session 0 |
| Protocol.MessageRoundTrip | debug/src/protocol.cpp:75-126 | every message that fits comes back from its encoding |
| Protocol.MessageExact | debug/src/protocol.cpp:98-126 | nothing decodes but the encoding of what it decodes to |
| Protocol.EncodeMessage | debug/src/protocol.cpp:75-96 | a message is written whole where it fits, and otherwise not a byte is |
| ForgetBond.LateRepliesAreOwed | firmware/main/meshcore_forget_outcome.h:60-118 | in every interleaving the bridge's debt, the slot, the worker and a strict host's ledger agree, and one reservation at most is in anybody's hands |
| ForgetBond.LateReplyHasItsRequest | debug/src/bridge.cpp:252-298 | each late reply has its own pending request behind it with no other reply and no end of session between, and says what became of that very reservation: success exactly if the bond was deleted for it, nothing to forget exactly if the worker found no conflict recorded, and otherwise a failure |
| ForgetBond.RefusedOnlyInFlight | firmware/main/meshcore_forget_outcome.h:70-81 | an answer nobody collected never blocks a request; only one still in flight does |
| ForgetBond.WorkerKeeps | firmware/main/meshcore_ble.cpp:2093-2185 | each step of the worker keeps that agreement, whatever the radio or the store refuses |
| ForgetBond.DebtIsAnswered | debug/src/bridge.cpp:252-298 | from any reachable state with a debt, one turn of the worker and one of the bridge answer it, whatever the radio and the store say in them; and a job not looked at yet with success exactly if there is a conflict and neither refuses, the record being put back exactly if one does |
| ForgetBond.RequestIsDecided | debug/src/bridge.cpp:252-298 | a request is busy exactly while another is owed or in flight, has nothing to forget exactly without a conflict, fails exactly if the worker's queue is full, and otherwise is pending and owed |
| Passkey.Flash.Persist | firmware/main/meshcore_passkey.h:105-110 | stopped or refused anywhere, a boot replays what it replayed before, these digits or nothing; reported success means it replays these |
| Passkey.Flash.EraseAll | firmware/main/meshcore_passkey.h:124-128 | the off switch never arms anything, reported success leaves nothing to arm, and an erasure that was reported is remembered until the next store |
| Passkey.Flash.RestorePasskey | firmware/main/meshcore_passkey.h:134-151 | a boot arms a passkey exactly when it can read a pairing one with both gates down, and then it is the last one stored for certain |
| Passkey.Life | firmware/main/meshcore_passkey.h:105-151 | over any life of writes, erasures, forgets and boots with any step refused or cut short, each boot arms exactly what flash then holds for it: the digits if it can read them, they are a pairing passkey and both gates are down, and otherwise nothing |
| Passkey.ArmedIsLastStored | firmware/main/meshcore_passkey.h:105-151 | whatever a boot of such a life arms is the passkey of the latest store, which succeeded, with nothing erased since |
| Passkey.StoredIsLastStored | firmware/main/meshcore_passkey.h:105-128 | the passkey a boot may arm is that of the last act that stored or erased for certain, and that act stored it |
| Passkey.RequestPasskey | firmware/main/meshcore_passkey.h:69-73 | more than six digits never reach the worker, and the unpaired probe is never marked for flash |
| Passkey.StoredThenReplayed | firmware/main/meshcore_passkey.h:105-151 | a successful write is what the next boot arms, however flash was left before |
| NodeForget.Board.Forget | firmware/main/meshcore_node_forget.h:177-216 | from any standing, stopped after any step with any refusal: trust is as before or the next boot replays nothing, if and only if there is no leak; a boot that would have replayed nothing still does not, unless the marker that kept it from it comes down; and each outcome is given exactly for what happened |
| NodeForget.SafeUnlessExposed | firmware/main/meshcore_node_forget.h:177-216 | what a caller can read before the call decides whether any step can lead to a leak, or to the loss of an earlier marker |
| NodeForget.ExposedBoardLeaks | firmware/main/meshcore_node_forget.h:177-216 | on every standing where a leak is possible, the same steps carry it out |
| NodeForget.RefusedDeletionThatLanded | firmware/main/meshcore_node_forget.h:195-203 | the exception, step by step: kept is reported, the bond is gone and the passkey is replayed |
| NodeForget.ForgottenTwice | firmware/main/meshcore_node_forget.h:205-213 | a second forget, of nothing, takes the first one's marker down, and the next boot arms the old passkey |
| Discovery.NoScanOutlivesItsTeardown | firmware/main/meshcore_node_forget.h:105-164 | for any number of starts and teardowns interleaved, once all have returned a scan runs only if the stack refused a cancel of a scan, and then some caller was told; a refusal over a connection or a session excuses none |
| Discovery.StartScans | firmware/main/meshcore_node_forget.h:157-164 | an undisturbed start asks for a scan exactly if one is wanted and none runs, and ends with it running exactly if the stack took it |
| Discovery.StartTakesBack | firmware/main/meshcore_node_forget.h:157-164 | one that finds the reconnect gone takes its scan back, or says that it owes that |
| Discovery.TeardownQuiesces | firmware/main/meshcore_node_forget.h:105-114 | an undisturbed teardown disarms, stops the scan, then the pending connection, and answers with the session's own end; the first refusal ends it |
| Discovery.RefusalHasItsCancel | firmware/main/meshcore_node_forget.h:105-164 | the refusal meant is one: some cancel of a scan in the run was refused, by a start taking its scan back or by a teardown |
| Discovery.AccessKeeps | firmware/main/meshcore_node_forget.h:157-164 | after every access an unwanted scan that nobody was refused over is about to be looked at by somebody |
| Discovery.RefusedCancelLeavesScan | firmware/main/meshcore_node_forget.h:157-164 | the exception is reached by a start that loses the race and whose cancel is refused |
| Discovery.TerminateForgetSession | firmware/main/meshcore_node_forget.h:78-92 | the captured session is live afterwards exactly if it was, the radio refused and no other came; and a session that came meanwhile stays live, also where there was no connection to end |
| TrustModel.LapsedMeansUnanswered | core/src/trust.cpp:85-151 | an allegation is unanswered exactly when its last word was a report whose evidence some update has found expired |
| TrustHistory.NeverTooGoodIffNoOverlap | core/src/trust.cpp:130-245 | along every history of calls no update leaves a state better than the evidence it found allows, if and only if no live set scores at least the lower threshold and at most the recovery one; a policy that recovers below both thresholds has none |
| Trust.BelowDegradeIsNotEnough | core/include/attadipa/core/trust.h:130-180 | with a recovery threshold below the degrading one only, the engine climbs to Degraded while the evidence that stands makes it Untrusted |
| Trust.OverlapOvershoots | core/src/trust.cpp:130-245 | the engine is driven past what its evidence allows under every policy with an overlap, for every set of reasons that overlaps |
| TrustHistory.HoldBegan | core/src/trust.cpp:165-245 | the time a hold is counted from is that of an update since when every update was clean and the state has not moved |
| TrustHistory.RiseIsEarned | core/src/trust.cpp:130-245 | behind every rise of any history lies a whole hold in which every update found a score fit for recovery and no allegation unanswered, the state stayed put, and the rise is one step |
| TrustHistory.FallsAtOnce | core/src/trust.cpp:165-190 | by the thresholds themselves: from full trust an update leaves Untrusted exactly from untrust_at on and Degraded exactly between the two, from Degraded it falls exactly from untrust_at on, and nothing but an update moves the state |
| TrustHistory.EvidenceLasts | core/src/trust.cpp:130-151 | a report counts at an update exactly while less than the time to live has passed since it |
| TrustHistory.AloneByDefault | core/src/trust.cpp:49-79 | what each reason comes to alone under the default policy: spoofing Untrusted; jamming, motion and five more Degraded; the rest nothing |
| TrustHistory.HoldPays | core/src/trust.cpp:190-245 | on a clock that does not go back, a hold in which every update is clean ends in a better state or in full trust |
| TrustHistory.Overshoots | core/src/trust.cpp:130-245 | where reasons overlap, this history leaves the state exactly one better than they allow |
| TrustModel.MoreIsWorse | core/src/trust.cpp:153-160 | more live evidence never allows a better state |
| TrustModel.ScoreAdds | core/src/trust.cpp:153-160 | nothing scores nothing, and each reason that stands adds its own weight once, up to 65535 |
| TrustHistory.DefaultPolicyArgument | core/src/trust.cpp:49-79 | under the default policy no history leaves a state better than its evidence allows; a spoofing alarm is enough by itself, and movement the wrist did not make is as soon as anything agrees, whatever else is alleged |
| Trust.TrustEngine.Report | core/src/trust.cpp:85-96 | masks and state go on being what the history of calls made of them, and the allegation stands |
| Trust.TrustEngine.Clear | core/src/trust.cpp:98-106 | the one retraction: neither live nor unanswered |
| Trust.TrustEngine.StopAwaiting | core/src/trust.cpp:108-118 | an allegation whose subject left is no longer waited for, and standing evidence still counts |
| Trust.TrustEngine.Update | core/src/trust.cpp:130-245 | masks, score and state are what the history with this update makes of them, and the state moves by the thresholds themselves; without an overlap never better than the evidence allows; and the log grows by exactly a change of state |
| Trust.TrustEngine.Decay | core/src/trust.cpp:130-151 | exactly expired evidence leaves the score, and is remembered as unanswered unless its subject had left |
| Trust.TrustEngine.Enter | core/src/trust.cpp:247-263 | every change of state is logged with its reasons, and nothing else is |
| Trust.TrustEngine.TransitionAt | core/src/trust.cpp:302-315 | the kept entries come back oldest first, through any number of turns of the ring |
| TrustBaseline.Evaluator.ObservePosition | core/src/trust.cpp:525-596 | the baseline is the newest measurement of this body, the last to arrive among equals; a sample is compared whether or not it may replace it |
| TrustBaseline.NotPoisoned | core/src/trust.cpp:438-530 | no observation, however its time was forged, keeps later genuine ones out |
| SocketClaim.ListenerHasItsPath | sim/debug_server.cpp:257-586 | among any number of simulators with kills anywhere and inode numbers reused, the path names a listener's own socket for as long as it listens, and there is one listener at most |
| SocketClaim.SilentIsUnowned | sim/debug_server.cpp:126-169 | under the claim, a socket that does not answer belongs to nobody |
| SocketClaim.RecoveringKeeps | sim/debug_server.cpp:386-483 | from the claim to the bind, every call and every failure keeps that |
| SocketClaim.PublishingKeeps | sim/debug_server.cpp:495-586 | from the bind to listening, and through a close, every call and every failure keeps it |
| SocketClaim.CloseLeavesNoName | sim/debug_server.cpp:529-586 | a close that nothing goes wrong for leaves nothing at the path, and nothing else changes |
| SocketClaim.ClosersFindTheirName | sim/debug_server.cpp:563-583 | in any run, a closer that looks whether the name is still its own finds that it is |
| SocketClaim.OtherIsRefused | sim/debug_server.cpp:85-113 | a start that finds something else at the path gives up, whether before the claim or inside it |
| SocketClaim.WithoutTheClaim | sim/debug_server.cpp:298-321 | whoever cannot have the claim gives up: a start is idle again, a close leaves its name for the next start |
| SocketClaim.FailedStartBacksOut | sim/debug_server.cpp:386-531 | a start that any call fails for never listens, gives the claim back and takes down what it had bound |
| SocketClaim.OtherThingsStay | sim/debug_server.cpp:85-113 | a path that is not a socket is never replaced or removed |
| SocketClaim.StaleNameIsRecovered | sim/debug_server.cpp:362-531 | whatever dead or closed simulators left, the next one to start gets the path |
| SocketClaim.Advances | sim/debug_server.cpp:362-531 | a start makes all its calls, in their order, leaving out only the removal of a name that is not there |
| SocketClaim.NewcomerIsUnopposed | sim/debug_server.cpp:362-483 | once whoever had the path is dead or has closed it, a new start has nothing in its way |
| SocketClaim.DeadStayDead | sim/debug_server.cpp:338-348 | a killed simulator holds nothing and does nothing, ever |
| SocketClaim.KillFreesTheClaim | sim/debug_server.cpp:338-348 | killing the holder of the claim leaves nobody inside it |
| Calendar.TomorrowIsNext | core/include/attadipa/core/clock.h:147-171 | the day after a real date by the Gregorian rule is real and has the next day number |
| Calendar.CivilFromDays | core/include/attadipa/core/clock.h:176-196 | every day number, before or after the epoch, names a real date with that number |
| Calendar.NumbersDiffer | core/include/attadipa/core/clock.h:160-171 | no two real dates share a day number |
| Calendar.OnlyCount | core/include/attadipa/core/clock.h:147-171 | whatever counts 0 on the first of January 1970 and one more on each next day agrees with this count on every real date |
| Calendar.YearFound | core/include/attadipa/core/clock.h:185-188 | the estimate of the year from the day of the era is exact for every day of the era |
| Calendar.CivilFromWallTime | core/include/attadipa/core/clock.h:173-209 | the civil time of an instant counts back to it, and none is given only where there is none |
| Calendar.InstantsDiffer | core/include/attadipa/core/clock.h:211-222 | no two civil times are the same instant |
| ProvisioningModel.DraftMeansInstant | apps/src/provisioning.cpp:135-146 | a real draft always converts, and no other draft with its offset means the same instant |
| ProvisioningModel.OffsetStepsToNextQuarter | apps/src/provisioning.cpp:46-60 | a step goes to the very next quarter hour in its direction, on or off the grid and either side of zero, and stays at the last zone |
| ProvisioningModel.StepKeepsReal | apps/src/provisioning.cpp:129-193 | stepping any field keeps a real 2000-2099 minute in a real zone, and does something unless the offset is at its end |
| ProvisioningModel.StepCounts | apps/src/provisioning.cpp:26-60 | a step is one more or one less of the day, month, year, hour or minute, round its range, or the next quarter hour up to the last zone; a day past the end of its month becomes the last one, and nothing else changes |
| ProvisioningModel.SpelledDiffers | apps/src/provisioning.cpp:272-277 | six digits spell a number below a million, and no other digits the same |
| Provisioning.DraftFromSeed | apps/src/provisioning.cpp:77-117 | a seed is believed exactly if it is valid and a local minute this watch can set, and then the draft is that minute; otherwise the draft is the default |
| Provisioning.ProvisioningEntry.constructor | apps/src/provisioning.cpp:77-127 | whatever the seed, the board and what earlier screens left with the radio, the screen that opens: at the clock from the seed's draft, or at the node, where a forget that is owed is waited for |
| Provisioning.ProvisioningEntry.SaveTime | apps/src/provisioning.cpp:241-270 | one request with the instant the draft means, and the receipt says what came of it: on screen and radio exactly the step of ProvisioningRun.SaveTime |
| Provisioning.ProvisioningEntry.SendPasskey | apps/src/provisioning.cpp:272-308 | one request with the number the digits spell, read again where it failed, and the screen waits or says what came of it: exactly the step of ProvisioningRun.SendPasskey |
| Provisioning.ProvisioningEntry.BeginForget | apps/src/provisioning.cpp:310-344 | one request, and the screen waits or says what came of it: exactly the step of ProvisioningRun.BeginForget |
| Provisioning.ProvisioningEntry.EnterNodeHalf | apps/src/provisioning.cpp:346-370 | asks for nothing; looks for a node, and reads the answer to a forget that is owed: exactly the step of ProvisioningRun.EnterNodeHalf |
| Provisioning.ProvisioningEntry.Poll | apps/src/provisioning.cpp:545-611 | asks for nothing, and reads the one answer that is waited for: exactly the step of ProvisioningRun.Poll, and it is told changed exactly if there was an answer, which is exactly if the screen moved |
| Provisioning.ProvisioningEntry.Press | apps/src/provisioning.cpp:403-543 | a key that is not drawn does nothing, one that is drawn does something unless its offset is at an end; Plus and Minus count one on or one back; and the board is asked exactly by the keys that save, send, forget or retry, once and for that: exactly the step of ProvisioningRun.Press |
| Provisioning.AnyScreens | apps/src/provisioning.cpp:403-611 | over any run of screens on one board, whatever is pressed, polled and answered: the radio is left as the run says; no request of it goes out over an unread forget, and none over an unread passkey unless an act of the run gave one up, which only opening a screen or leaving one does |
| Provisioning.ProvisioningEntry.Forward | apps/src/provisioning.cpp:196-239 | one step on, which from the review and the last digit is the request, of which NextWalksOn and KeyAsks say the rest |
| Provisioning.ProvisioningEntry.Back | apps/src/provisioning.cpp:196-239 | one step back along the fields and the digits, of which PreviousWalksBack says the rest |
| ProvisioningRun.SaveTimeAsks | apps/src/provisioning.cpp:241-270 | the board is sent the instant the draft means, once, and saved is said exactly if it accepted |
| ProvisioningRun.SendPasskeyAsks | apps/src/provisioning.cpp:272-308 | the board is sent the number the digits spell, once; the screen waits exactly if it says pending, stored is said exactly if it accepted, and uncertain is first said only over an earlier request |
| ProvisioningRun.BeginForgetAsks | apps/src/provisioning.cpp:310-344 | one request, after which the screen waits exactly if it is pending, and forgotten is said exactly if it was accepted |
| ProvisioningRun.EnterAsksNothing | apps/src/provisioning.cpp:346-370 | entering the node's half asks for nothing, looks once and keeps draft and digits |
| ProvisioningRun.PollTells | apps/src/provisioning.cpp:545-611 | a poll moves the screen exactly when it waits and its answer is there; then it says which of the answers it was, and nothing of the screen's is under way |
| ProvisioningRun.KeyAsks | apps/src/provisioning.cpp:403-543 | the board is asked exactly by the keys that save, send, forget or retry, once and for that |
| ProvisioningRun.UndrawnKeyIsDead | apps/src/provisioning.cpp:865-945 | a key that is not drawn changes nothing on the screen or with the radio |
| ProvisioningRun.DrawnKeyActs | apps/src/provisioning.cpp:865-945 | one that is drawn does something, unless its offset is at an end |
| ProvisioningRun.KeyCounts | apps/src/provisioning.cpp:159-193 | Plus and Minus count the field or the digit under the cursor, and change nothing else |
| ProvisioningRun.ReceiptLeads | apps/src/provisioning.cpp:428-470 | a receipt's Next asks again exactly after a refusal or an uncertainty, leads to the passkey exactly once the node is gone, to the node after the clock in a whole walk, and otherwise out |
| ProvisioningRun.NextWalksOn | apps/src/provisioning.cpp:196-239 | Next goes to the very next field or digit, and changes nothing else |
| ProvisioningRun.PreviousWalksBack | apps/src/provisioning.cpp:196-239 | Previous, where it is drawn, goes to the field or digit that Next would leave for this one |
| ProvisioningRun.PressKeeps | apps/src/provisioning.cpp:403-543 | any key keeps the screen coherent, and the account of what the radio owes to whom |
| ProvisioningRun.NothingOverItsOwn | apps/src/provisioning.cpp:403-425 | while a screen's own request is unread nothing is asked; a request of the radio goes out over an unread passkey exactly when that is an earlier screen's, and never over a forget |
| ProvisioningRun.NoneGoesOverForget | apps/src/provisioning.cpp:403-611 | over every run of screens, keys, polls and answers on one board, no request of the radio goes out over an unread forget |
| ProvisioningRun.OverPasskeyOnlyIfGivenUp | apps/src/provisioning.cpp:403-611 | and none over an unread passkey in a run that gives none up |
| ProvisioningRun.UnreadPasskeyIsAskedOver | apps/src/provisioning.cpp:272-308 | any run that owes no forget goes on to a passkey asked over whatever is unread, whatever the board answers |
| ProvisioningRun.AskedOverAnEarlierScreen | apps/src/provisioning.cpp:272-308 | so one screen is left waiting, and the next one's passkey is asked over its request |
| Geo.Isqrt | core/src/geo.cpp:11-23 | the one exact floor root of every 64-bit number but the largest, for which there is no result |
| Geo.CosDescends | core/src/geo.cpp:76-110 | the cosine factor never grows towards a pole, is the whole scale at the equator and zero at both poles |
| Geo.CosScaled | core/src/geo.cpp:76-110 | total over 32-bit latitudes, within 0 and 2^24, without overflow |
| Geo.DistanceMm | core/src/geo.cpp:134-173 | exactly the rounded-down length of the vector of the two components, saturated, with no overflow on the way; the saturated value off the globe |
| Geo.DistanceSymmetric | core/src/geo.cpp:134-173 | as far there as back |
| Geo.MeridianHasTwoSpellings | core/src/geo.cpp:146-157 | a longitude of 180 degrees is the same place spelled east or west |
| Geo.DistanceMonotone | core/src/geo.cpp:115-173 | along two latitudes, distance grows with the longitude difference the short way round |
| Geo.DistanceBetweenItsComponents | core/src/geo.cpp:134-173 | no distance is shorter than a component, nor longer than both end to end |
| GeoScale.MeridianScale | core/src/geo.cpp:134-173 | along a meridian a ten-millionth of a degree is 11.132 mm, so a degree is 111.32 km, up to the largest answer |
| GeoScale.ParallelScale | core/src/geo.cpp:115-173 | along a parallel it is that, the short way round, times the cosine in parts of 2^24; all of it at the equator |
| GeoScale.FactorIsStraight | core/src/geo.cpp:76-110 | between two whole degrees the factor is the straight line between their entries, to the nearest |
| GeoScale.TableIsTheCosine | core/include/attadipa/core/geo.h:53-64 | every entry of the table is the nearest 1024th to the cosine of its degree, as the law of cosines and its values at 0, 60 and 90 degrees fix it |
| GeoScale.OffTheGlobe | core/src/geo.cpp:134-144 | a place off the globe is as far from anywhere as there is |
| Utf8.DecodesIffChar | core/src/mesh_service.cpp:43-86 | the checks on width, continuation and code point admit exactly the characters of the grammar |
| Utf8.Utf8PrefixLength | core/src/mesh_service.cpp:40-89 | the length of the longest well-formed prefix within the limit, for any bytes |
| Utf8.Continues | core/src/mesh_service.cpp:40-89 | well-formed text followed by anything is well-formed exactly when what follows is |
| Utf8.TrimmedIsLongest | apps/src/clock.cpp:56-74 | well-formed text cut at any byte is trimmed to exactly its longest well-formed prefix |
| Utf8.TrimPartialUtf8 | apps/src/clock.cpp:56-74 | the scan in place leaves the trimmed text and writes at most one byte |
| Checksums.CrcChains | debug/src/protocol.cpp:337-354 | continuing from the CRC of a first part gives the CRC of the whole |
| Checksums.Crc32Bitwise | debug/src/protocol.cpp:337-354 | the branch-free bit loop computes the CRC-32 of section 5.5 of the PNG specification |
| CrcDivision.CrcIsRemainder | debug/src/protocol.cpp:337-354 | for every message and every CRC it continues from, the result is the inverse of exactly the remainder, by x^32 + x^26 + ... + 1, of the message followed by 32 zeros with the starting register added to its front |
| CrcDivision.OneRemainder | debug/src/protocol.cpp:337-354 | that division has one remainder |
| CrcDivision.GeneratorBits | debug/src/protocol.cpp:337-354 | the program's constant is that polynomial without its highest power, lowest bit first |
| Checksums.OneLookup | sim/png_writer.cpp:10-35 | one look-up in the table of Annex D is eight rounds of the bit loop |
| Checksums.CrcTable | sim/png_writer.cpp:10-24 | every entry is what eight rounds make of its index |
| Checksums.Crc32Of | sim/png_writer.cpp:26-35 | the table-driven CRC equals the bitwise one for every message |
| Checksums.AdlerStep | sim/png_writer.cpp:84-89 | the running sums follow the closed form of section 8.2 of RFC 1950 |
| Checksums.AdlerOf | sim/png_writer.cpp:84-90 | the byte loop computes Adler-32 |
| Png.ZlibStored | sim/png_writer.cpp:62-93 | a reader of stored blocks recovers exactly the input, with one final block and the right Adler-32, for every byte string |
| Png.InflateBlocks | sim/png_writer.cpp:68-82 | a reader stops at the one final block and has every byte before it |
| Png.PushChunk | sim/png_writer.cpp:45-60 | appends one chunk and disturbs nothing before it |
| Png.ChunkReads | sim/png_writer.cpp:45-60 | a reader of a chunk gets the payload, with the CRC-32 over type and payload agreeing |
| Png.UnfilterRestores | sim/png_writer.cpp:104-110 | a reader of unfiltered rows gets the pixels back |
| Png.WritePngRgb | sim/png_writer.cpp:97-135 | a reader of the file gets back the picture, as long as its stream fits one chunk's length |

## Left out

- Masks of 16 bits are sets of bit positions; small fixed tables of the lease table and the held buttons are sequences; size counters are unbounded.
- A rail cut that failed is taken to have changed nothing, as its interface says; a failed undo leaves its one thing in either state.
- PowerOwner.PowerOwner.Sleep: does not model the wake listeners or the order of log lines; the single function of the source is split into its phases.
- DebugBridge.Bridge.Handle: capabilities, time sync and mesh configuration are not dispatched, because they keep no state beside a sink. Mesh sends keep some: whether one is active and its number, so a second is refused as busy and the first is answered late from the tick. That is the shape of a forget-bond request, whose debt is in ForgetBond; the one of a send is left out.
- DebugBridge.Bridge.HandleScreen: the frame buffer is shorter than 2^32 bytes, as `size_t` on the device makes it; pixel format and orientation are only in Protocol.
- The bridge's statistics counters are not kept.
- Protocol.MessageRoundTrip: CRC-16 is any function to 16 bits; the framing under it and the capabilities body are not part of this model.
- RemoteInput.PointerPath.Pump: button and pointer listeners are not called.
- DebugSession.Run: the acts are those of the simulator's loop; the watch's own keys and touch panel, and `InputQueue.Clear`, are not among them.
- RateWindow.SecondKeepsTwice: times are milliseconds since the start, of which the bridge keeps the low 32 bits.
- ForgetBond and Discovery take each access to shared state as atomic and in order; memory ordering is not modelled.
- NodeForget.Board.Forget: a failed deletion either deletes the bond or leaves it; the record of a conflict is one flag, and the cleared cool-down is not kept.
- Passkey.Flash.RestorePasskey: flash answers whole values; which NVS page they are on is not modelled.
- TrustBaseline models the position baseline; the altitude and satellites-in-view baselines follow the same pattern, and the one-line detectors of `observe`, the remembered position and its growing uncertainty are left out.
- SocketClaim takes every contender to be a simulator of this build; a person with `rm`, file modes, time-outs and messages are left out.
- Provisioning.ProvisioningEntry.Press: the words and numbers of `text` are left out, only which keys it labels is modelled; between two keys nobody but the screen reads what the radio owes.
- `initial_bearing` and `great_circle_mm` are floating point from the C library.
- Screens, faces, drivers, option parsing, localisation and the host tools are not part of this model.
