# A verified model of the testbench's protocols and algorithms

The testbench portal drives boards, radios and instruments from a Raspberry Pi.  This project models the parts of
it that are algorithms and protocols in their own right, and proves what they guarantee.  One file is one
component:

- `Dongle.dfy`: who may use the RTL-SDR dongle.  Captures, the live console, the stop barrier and the reaper
  interleave step by step, in any number of threads (`CaptureStep`, `StartStep`, `CleanupStep`, `ReapStep`,
  `StopStep` are the program, one shared access a step).  `DongleGuarantees.dfy`: what every interleaving guarantees.
  `DongleCalls.dfy`: what one call meets from its beginning to its end, whatever the others do.
- `LiveRing.dfy`: the numbered ring of a live session and the clients that poll it.
- `RepeatUnit.dfy`: the search for the shortest repeating unit of a received row.
- `LeaseManager.dfy`: slot leases, which expire lazily.
- `Hotplug.dfy`: one slot through plugging, flapping and recovery, a request at a time.  `HotplugDevices.dfy`: what is
  on its list of devices, which node it uses and what it shows, told from the events alone.
- `RecoveryRace.dfy`: requests that meet in the start of a recovery, a shared access at a time.
- `Recorder.dfy`: the recorded serial lines and the request for the last of them.
- `Multipart.dfy`: an upload from the MCP tool to the portal's flash handler.
- `Form.dfy`: credentials from the portal to the firmware's captive portal.
- `ServerName.dfy`: the host name in a TLS ClientHello.
- `Telnet.dfy`: the byte stream of an RFC 2217 client.
- `Morse.dfy`: the key timeline of a Morse message.
- `Si5351.dfy`: frequency synthesis, from the divider search to the registers.
- `PE4302.dfy`: the bit-banged attenuator against its shift register.
- `PortScan.dfy`: the list of ports and the windowed scan.
- `Sequences.dfy`, `Bytes.dfy`, `Rounding.dfy`, `Options.dfy`: what they share.

Where the program changes things in place the model does too: classes whose methods reassign their fields, and
loops over an array, each proved against a function of the state before.  The lemmas are about those functions.
`dafny verify dfyconfig.toml` checks everything.

## What turned out not to hold

Each of these is proved, with the exact condition under which the promise does hold.

- Setting channel 1 of the Si5351 moves channel 0, which shares its PLL: the frequency on record for channel 0 is
  then right only if both need the same multiplier (`SharedPll`, `SharedPllMoves`).  The driver's introduction
  promises 8 kHz to 160 MHz; the code takes 333.3 kHz to 112.5 MHz, and so does the model.
- `stop_live` during a one-shot capture reports the dongle idle (`CaptureHiddenOnlyByCleanup`,
  `StopLiveHidesCapture`).  A reaper that was overtaken terminates the healthy session that replaced the one it had
  looked at (`ReaperHitsOnlyReplacedSession`, `StaleReaperReachesHealthySession`).  A clean-up that had to send
  SIGKILL frees the dongle before the process is gone, and only then can a process be launched beside another
  (`SecondProcessExactly`, `TwoProcessesAfterKill`).
- A lease that has run out can still be released if nobody has asked about its slot since (`SameAnswer`).
- A client of the live ring that keeps its number across a restart never gets that many entries (`StaleNumberHides`).
- A recovery without wired pins gives the device back if the retry counter was below two when its thread began, and
  otherwise leaves it unbound (`GivesBackExactly`).  It stays so, with nobody to rebind it, exactly until a recovery
  starts that has attempts left or wired pins; a release resets the counter and calls the slot idle, but ends nothing
  (`StrandedExactly`).  There is a way out exactly if the slot's key names the device: a slot whose device is found
  through its node cannot be recovered any more (`RescueExactly`).  What hides all this from the portal's answers is
  exact too (`HiddenExactly`, `ShownExactly`), and a poll does (`PollHidesGivingUp`, `GivingUpIsHidden`).
- A reset of the retry counter during an attempt is honoured exactly if it was the first attempt: a second one writes
  its own count over it (`ResetHonoured`, `SecondAttemptHappens`).
- A recovery over the pins leaves the event window as it was, so that the next event starts another recovery exactly
  if the window is full with it (`PinsKeepTheWindow`, `PinsAgain`).
- Nothing locks the recovery flag.  One recovery at a time, with a counter that covers its rebinds, holds exactly while
  no request looks at the flag when somebody is at work whom it does not show, and no reset slips in between a count and
  its rebind (`OneAtATimeExactly`, `TwoThreads`, `OneCount`).
- An upload loses white space at the end of its files and all files that are blank, and equal base names overwrite
  one another (`FlashArrives`, `AddAllByName`).
- The firmware cuts a form value to its buffer before it decodes it: an SSID of 32 bytes that all need escaping
  arrives as ten bytes and a stump (`RestoredExactly`, `LongSsidIsCut`).  A form whose first field name starts with a
  digit, a minus sign, or the letters n, t or f may be taken for JSON; no other form is (`NotTakenAsJson`).
- The proxy reads each buffer on its own: a cut inside an event adds data bytes (`SafeCut`).  Its answer to one and a
  half stop bits says one (`AnswerIsTrue`), and the value zero, which asks for the current parity or stop bits,
  changes them (`QueryKeeps`).  A subnegotiation with 255, 240 inside is misread (`Misread`); it does not know the
  doubling of 255 there, so that a command from a client that does is obeyed, and an answer is read back by it, exactly
  if no 255 is in it (`DoubledCommand`, `AnswerReadable`).
- Asking for the last zero lines returns the whole ring (`OddRequests`).
- An empty server name extension at the end of a ClientHello is answered with bytes from behind the extension block
  (`EmptyNameReadsOn`).

## Model

| member | source | states |
|---|---|---|
| `Dongle.StepKeepsInv` | pi/sdr_controller.py:374-496 | every atomic step of every thread, and every process exit, keeps the ownership invariant of both mutexes, the processes and the reported state |
| `Dongle.RunKeepsInv` | pi/sdr_controller.py:374-496 | so does every interleaving of any length |
| `DongleGuarantees.ExclusiveOwnership` | pi/sdr_controller.py:374-496 | in every reachable state no mutex was ever released by a non-owner; captures, live session and stop barriers exclude one another; the recorded holder is exactly the thread that is inside |
| `DongleGuarantees.OneRadioProcess` | pi/sdr_controller.py:471-484 | a process that has not exited and was not sent SIGKILL by a clean-up is the only one, and the dongle is then held by its user |
| `DongleGuarantees.SecondProcessExactly` | pi/sdr_controller.py:471-484 | when a process is about to be launched another one exists if and only if a clean-up sent SIGKILL to one that has not exited since |
| `DongleGuarantees.StartOutcome` | pi/sdr_controller.py:374-412 | a start that succeeds owns the dongle; one that raises inside the section, like a stop or a reap, leaves nothing owned, no recorded process and no live state |
| `DongleGuarantees.NothingLeaks` | pi/sdr_controller.py:471-496 | with every thread idle the dongle is free unless a live session owns it |
| `DongleGuarantees.WaitsExactly` | pi/sdr_controller.py:374-920 | a call under way cannot step exactly while it waits for the admin section or for a process it has killed; every other wait has its timeout |
| `DongleGuarantees.NoDeadlock` | pi/sdr_controller.py:374-920 | in no reachable state is that for ever: the admin section is then held by another thread that can step, and the process has yet to exit |
| `DongleGuarantees.BarrierStatusIsFresh` | pi/sdr_controller.py:862-875 | while the dongle is free or held by a stop barrier nobody is shown as active |
| `DongleGuarantees.CaptureHiddenOnlyByCleanup` | pi/sdr_controller.py:471-484 | a running capture stops being shown exactly at its own last step or at the status reset of a clean-up, whoever runs it |
| `DongleGuarantees.ReaperHitsOnlyReplacedSession` | pi/sdr_controller.py:486-491 | a reaper goes after a live process exactly when the session it looked at was replaced by one whose process is alive |
| `DongleGuarantees.StopLiveHidesCapture` | pi/sdr_controller.py:493-496 | a reachable state in which a running capture is shown as idle |
| `DongleGuarantees.TwoProcessesAfterKill` | pi/sdr_controller.py:471-484 | a reachable state with a new session streaming while the killed process still exists |
| `DongleGuarantees.StaleReaperReachesHealthySession` | pi/sdr_controller.py:486-491 | a reachable state in which a reaper is about to terminate a healthy session |
| `DongleCalls.StartMeets` | pi/sdr_controller.py:377-412 | in every interleaving a start is refused exactly if the mutex was taken; it succeeds exactly if the process it launched had not exited at its probe, or had and, after one clean-up and one USB reset, a second one had not; it raises only after two dead processes, a dongle taken during the retry, or a failed step; nothing is launched more than twice |
| `DongleCalls.StartedIsAlive` | pi/sdr_controller.py:395-436 | the step with which a start succeeds finds the recorded process not exited, and changes nothing else |
| `DongleCalls.ReapMeets` | pi/sdr_controller.py:486-491 | in every interleaving a reaper cleans up exactly if it found the recorded process exited while the live console had the mutex |
| `DongleCalls.StopLiveMeets` | pi/sdr_controller.py:493-496 | `stop_live` cleans up exactly once, whatever it finds |
| `DongleCalls.AfterLeaving` | pi/sdr_controller.py:412-501 | a start that went through and a `stop_live` end with a reap; other calls are over, and the admin section is free |
| `DongleCalls.CaptureMeets` | pi/sdr_controller.py:893-920 | a one-shot run is refused, or fails to launch, or returns after its process was seen to have exited, by itself or after the kill at the timeout; and it gives the mutex back |
| `DongleCalls.StopMeets` | pi/sdr_controller.py:850-875 | a `stop` first sees the run's process gone or killed; then it finds the live console in possession, or gets the mutex and gives it back, or gives up waiting |
| `DongleCalls.BarrierTakes` | pi/sdr_controller.py:872-874 | the wait of a stop ends with the mutex as soon as that is free, and without it when time is up |
| `DongleCalls.StopFindsCapture` | pi/sdr_controller.py:905-918 | in every reachable state the recorded one-shot process is that of the run that holds the mutex, for as long as that waits for it |
| `DongleCalls.ProcsExactly` | pi/sdr_controller.py:471-920 | no step of a thread changes a process but that which sends SIGKILL to the one it has waited too long for |
| `DongleCalls.FaultExactly` | pi/sdr_controller.py:471-920 | the alarm of `ExclusiveOwnership` goes off at every release of a mutex that is not the thread's own |
| `DongleCalls.CaptureShownExactly` | pi/sdr_controller.py:899-919 | when a one-shot run is shown as active after any step |
| `DongleCalls.LiveShownExactly` | pi/sdr_controller.py:414-482 | when the live console is shown as active after any step |
| `DongleCalls.LiveShownWhileOwned` | pi/sdr_controller.py:414-484 | in every reachable state with the admin section free the live console is shown exactly while it has the dongle |
| `LiveRing.Live.Restart` | pi/sdr_controller.py:414-418 | a new session empties the ring and restarts the numbers |
| `LiveRing.Live.Append` | pi/sdr_controller.py:462-465 | after every append the buffer is exactly the last 600 of the session's entries, numbered without a gap up to the counter |
| `LiveRing.Live.Events` | pi/sdr_controller.py:506-514 | a poll returns the end of the history after the given number, as far as the ring reaches, and the counter; for any number, negative or too large |
| `LiveRing.NothingLost` | pi/sdr_controller.py:506-514 | over a whole session a client has every entry up to its last poll, once and in order, if and only if no poll found more than 600 unseen entries |
| `LiveRing.StaleNumberHides` | pi/sdr_controller.py:414-418 | a client that kept a number from an earlier session is given no entry up to that number, and all later ones if and only if it is on time |
| `LiveRing.GotInOrder` | pi/sdr_controller.py:462-467 | late or not, what a client is given are entries of the session with rising numbers |
| `RepeatUnit.ShortestUnit` | pi/sdr_controller.py:829-848 | the result is the whole string or a unit that agrees with nine tenths of the string behind its start, none is shorter, and among the shortest it has the earliest start |
| `RepeatUnit.CandidateExactly` | pi/sdr_controller.py:843-846 | for any start and period in range, a unit is a candidate if and only if the set of places where the string agrees with its repetition makes up nine tenths |
| `RepeatUnit.BestIsUnique` | pi/sdr_controller.py:829-848 | that describes the result completely |
| `RepeatUnit.CodewordIsCandidate` | pi/sdr_controller.py:829-848 | a unit repeated at least twice behind a short preamble is a candidate |
| `RepeatUnit.ReportIsNoLonger` | pi/sdr_controller.py:829-848 | so the report is never longer than the unit |
| `LeaseManager.StepCommutes` | pi/portal.py:1781-1798 | dropping the expired leases commutes with every operation |
| `LeaseManager.SameAnswer` | pi/portal.py:1889-1915 | an operation is answered like by a manager that drops leases the instant they expire, if and only if it is not the release of an expired lease still in the table |
| `LeaseManager.LazyTableRefinesEager` | pi/portal.py:1781-1798 | over every run in time order the live leases of both managers agree |
| `LeaseManager.LazyAnswersRefineEager` | pi/portal.py:1844-1931 | over every run in time order their answers agree, except exactly for late releases |
| `LeaseManager.LateReleaseExists` | pi/portal.py:1908-1915 | a late release, concretely |
| `LeaseManager.GrantedExactly` | pi/portal.py:1844-1886 | an acquire is granted if and only if the mode is known, the owner named, no live lease is on the slot, no stray process holds the device, and no debug session runs unless debugging is asked for |
| `LeaseManager.AcquireAnswers` | pi/portal.py:1844-1886 | which refusal each other case gets, in order of precedence, and the granted ttl: a minute by default, else the one asked for, kept between a second and an hour |
| `LeaseManager.AcquireTable` | pi/portal.py:1785-1886 | the table after an acquire: the new lease on its slot, or an expired one gone, and every other slot as it was |
| `LeaseManager.RenewExactly` | pi/portal.py:1896-1905 | a renewal succeeds exactly for the token of a live lease, and only moves its expiry, by the holder's own ttl |
| `LeaseManager.ReleaseExactly` | pi/portal.py:1908-1915 | a release succeeds exactly for a token in the table, and takes out its lease alone |
| `LeaseManager.QueryExactly` | pi/portal.py:1918-1931 | a query answers with the live lease, else with a debug session, else idle or absent |
| `LeaseManager.GrantedStarts` | pi/portal.py:1852-1886 | what a successful acquire sets up: token, owner, mode, and an expiry one clamped ttl away |
| `LeaseManager.LeaseSurvivesStep` | pi/portal.py:1852-1861 | one operation that is not the holder's release or a reset leaves a live lease in place |
| `LeaseManager.Exclusion` | pi/portal.py:1844-1886 | over whole runs in which the holder keeps its lease, every request for the slot is refused naming that holder |
| `LeaseManager.LeaseHorizon` | pi/portal.py:1852-1904 | no lease ever reaches more than 3600 s into the future |
| `LeaseManager.SilentLeaseIsFixed` | pi/portal.py:1896-1905 | without renewal a lease keeps its expiry for as long as it is in the table |
| `LeaseManager.SilenceFrees` | pi/portal.py:1785-1798 | after its ttl of silence a lease is no longer the reason for a refusal |
| `LeaseManager.DeadTokenStaysDead` | pi/portal.py:1889-1915 | a token whose lease is gone never comes back |
| `LeaseManager.TokenReachesOnlyItsOwn` | pi/portal.py:1889-1915 | a renewal or release changes no lease but that of its token |
| `LeaseManager.Manager.LiveGrant` | pi/portal.py:1785-1798 | returns the live lease of a slot and removes an expired one |
| `LeaseManager.Manager.SlotByToken` | pi/portal.py:1889-1893 | finds the slot whose lease has the token |
| `LeaseManager.Manager.SlotAcquire` | pi/portal.py:1844-1886 | the answer and the whole table after an acquire, errors and refusals included |
| `LeaseManager.Manager.SlotRenew` | pi/portal.py:1896-1905 | the same for a renewal |
| `LeaseManager.Manager.SlotRelease` | pi/portal.py:1908-1915 | the same for a release |
| `LeaseManager.Manager.SlotMode` | pi/portal.py:1918-1931 | the same for a query of a slot's mode |
| `LeaseManager.Manager.BenchReset` | pi/portal.py:1693-1696 | a bench reset clears every lease |
| `Hotplug.StepKeepsInv` | pi/portal.py:3022-3206 | every step keeps: presence, the recovery flag, the retry count, the window, and who has the device unbound |
| `Hotplug.RunKeepsInv` | pi/portal.py:3022-3206 | so does every run |
| `Hotplug.PresentIffDevices` | pi/portal.py:3086-3197 | in every run the slot is present exactly when a device is on its list |
| `HotplugDevices.DevicesExactly` | pi/portal.py:3086-3203 | over every run: the keys on the list are exactly those whose last boot scan or accepted add or remove is not a remove, each once, in the order in which they came on, with the node last told |
| `HotplugDevices.LastDeviceGone` | pi/portal.py:3192-3203 | over every run: with the accepted remove of the only such key the slot has no device and no node, is not present, and is absent unless flapping |
| `HotplugDevices.AddedNode` | pi/portal.py:3086-3103 | an accepted add is used if the slot has no node that exists, and the slot is present |
| `HotplugDevices.RemovedNode` | pi/portal.py:3192-3206 | the node after an accepted remove: none, or that of the device longest on the list if the removed one was in use, or the same |
| `HotplugDevices.OthersKeepDevices` | pi/portal.py:3022-3050 | every other event leaves the list and presence, and the node unless a suppressed add or a probe tells of one |
| `HotplugDevices.CountsExactly` | pi/portal.py:3022-3054 | which events count: none during a recovery and no add while the board is being debugged, and every other one goes on record |
| `HotplugDevices.AcceptedShows` | pi/portal.py:3052-3206 | over every run, from the times of the accepted events: whether the slot flaps and recovers after one more, and the state it shows |
| `HotplugDevices.RecoveryEndsExactly` | pi/portal.py:2446-2565 | over every run: the four ways a recovery ends, and what the slot shows after each |
| `HotplugDevices.ScannedNode` | pi/portal.py:1048-1052 | the boot scan brings a slot up and keeps a node that it has |
| `HotplugDevices.PollShows` | pi/portal.py:1239-1255 | a poll does nothing but drop old times and clear a flapping that has fewer than ten left |
| `HotplugDevices.ProbeShows` | pi/portal.py:2499-2530 | a device that answers is in download mode with its retries reset; one that does not flaps again, and keeps them unless its pins were released |
| `HotplugDevices.ManualStarts` | pi/portal.py:3701-3719 | a manual recovery of a known device starts over with no retries used, and does no more than that to one under way |
| `Hotplug.RecoveryIsolates` | pi/portal.py:3022-3031 | during a recovery no sequence of events and polls changes the slot |
| `Hotplug.AcceptedEvent` | pi/portal.py:3051-3084 | in every run the window is exactly the accepted events of the last 30 s since the last clearing, and an accepted event leaves the slot flapping or below the threshold |
| `Hotplug.RecoveryStartsExactly` | pi/portal.py:3057-3084 | in every run an accepted event starts a recovery if and only if its device is known, ten accepted events are in the window with it, and the slot was not flapping or came to rest before it |
| `Hotplug.TenEventsStart` | pi/portal.py:3079-3084 | from rest, any ten events of a known device within one window start a recovery with the tenth and none before |
| `Hotplug.UnboundExactly` | pi/portal.py:2245-2253 | in every run a recovery has the device unbound until its rebind, and with none under way the device is unbound if and only if the last one to end gave up |
| `Hotplug.AtMostTwoRebinds` | pi/portal.py:2540-2555 | any stretch of any run without a reset of the counter has at most two rebinds |
| `Hotplug.CountAfterReset` | pi/portal.py:2540-2555 | after a reset the counter is the number of rebinds since, plus what an attempt under way at the reset had read, once that attempt has rebound |
| `Hotplug.ResetHonoured` | pi/portal.py:3715-3719 | a reset is honoured in every run that follows if and only if no second attempt was in its cooldown when it came |
| `Hotplug.SecondAttemptHappens` | pi/portal.py:2540-2555 | a run to a second attempt in its cooldown |
| `Hotplug.GivesBackExactly` | pi/portal.py:2540-2564 | a recovery without pins gives the device back at its rebind, whatever comes before it, if the counter was below two when its thread began; if not, it gives up and the device stays unbound for as long as nothing ends that |
| `Hotplug.StrandedExactly` | pi/portal.py:2542-2551 | in every run a stranded device stays unbound with nobody to rebind it exactly as long as no recovery starts with attempts left or over wired pins, and no reset comes before the thread gives up; a reset after that ends nothing |
| `Hotplug.RescueWorks` | pi/portal.py:3715-3719 | the resets that save a stranded device, and the run in which they do |
| `Hotplug.RescueExactly` | pi/portal.py:276-293 | some run gives a stranded device back if and only if the slot's key names it or the thread has yet to give up |
| `Hotplug.HiddenExactly` | pi/portal.py:3057-3076 | for every event, whether it takes the flapping flag off a given-up slot: just a poll, or an accepted event after a quiet time, with fewer than ten events in the window |
| `Hotplug.ShownExactly` | pi/portal.py:2602-2605 | for every event, whether such a slot is no longer shown in the state flapping: those, a quiet event that starts a recovery, a manual recovery, a release, a successful probe, a boot scan and any other part's say |
| `Hotplug.PollHidesGivingUp` | pi/portal.py:1239-1250 | after the third storm the poll reports the unbound slot as settled if and only if fewer than ten events are left in the window |
| `Hotplug.GivingUpHappens` | pi/portal.py:2542-2551 | three storms, ten seconds apart, that end in giving up, the device unbound |
| `Hotplug.GivingUpIsHidden` | pi/portal.py:1239-1250 | and the poll after the window that shows the slot at rest, the device still unbound |
| `Hotplug.PinsKeepTheWindow` | pi/portal.py:2487-2488 | after a recovery over the pins an accepted event starts the next recovery if and only if its device is known and the window is full with it |
| `Hotplug.PinsAgain` | pi/portal.py:2487-2488 | a run in which a single event twelve seconds after the storm does |
| `Hotplug.RebindClearsTheWindow` | pi/portal.py:2555-2560 | after a rebind without pins the next nine events start none |
| `RecoveryRace.StepExactly` | pi/portal.py:2233-2276 | of any number of threads, a step keeps one recovery at a time and a counter that covers its rebinds, if and only if it is no look at the flag while somebody unseen is at work and no reset between a count and its rebind |
| `RecoveryRace.OneAtATimeExactly` | pi/portal.py:2233-2276 | so does every run from the start, if and only if none of its steps is one of those |
| `RecoveryRace.BindingHolds` | pi/portal.py:2233-2276 | in every such run the device is without its driver while a recovery is at work on it, has it again after the rebind, and a request that unbinds it starts the thread that its wires call for |
| `RecoveryRace.TwoThreads` | pi/portal.py:2233-2276 | two requests that look before either has set the flag start two recovery threads |
| `RecoveryRace.OneCount` | pi/portal.py:2540-2564 | which rebind twice while the counter says one |
| `Hotplug.Slot.BootScan` | pi/portal.py:1048-1052 | the slot after the boot scan found a device |
| `Hotplug.Slot.HandleHotplug` | pi/portal.py:3022-3206 | the slot after an event and whether it was taken: ignored in recovery, suppressed adds while debugging, window, flap detection, devices |
| `Hotplug.Slot.SlotInfo` | pi/portal.py:1239-1255 | the slot after a poll, which clears stale flapping |
| `Hotplug.Slot.StartFlapRecovery` | pi/portal.py:2228-2276 | the device is unbound and a thread started, unless one is at work or the device is unknown |
| `Hotplug.Slot.SerialRecover` | pi/portal.py:3701-3719 | a manual recovery resets the counter and starts a recovery |
| `Hotplug.Slot.RecoverWithoutGpio` | pi/portal.py:2533-2553 | the thread without pins, up to its sleep: it gives up or reads the counter |
| `Hotplug.Slot.RebindWithoutGpio` | pi/portal.py:2555-2565 | the rest of it |
| `Hotplug.Slot.RecoverWithGpio` | pi/portal.py:2455-2485 | the thread over the pins up to the rebind, or its failure |
| `Hotplug.Slot.LetEventsIn` | pi/portal.py:2487-2488 | it lets events in again before it probes |
| `Hotplug.Slot.ProbeEnds` | pi/portal.py:2499-2530 | the outcome of the probe |
| `Hotplug.Slot.ReleaseSlotGpio` | pi/portal.py:2568-2606 | a release resets the counter |
| `Recorder.Recorder.Feed` | pi/portal.py:1555-1561 | after any chunks the recorded texts are the non-empty lines of the whole stream, the unfinished tail is kept, the ring is the last 1000 entries |
| `Recorder.FeedStart` | pi/portal.py:1555-1557 | reading on from the unfinished tail finds the lines of the whole stream |
| `Recorder.CutDoesNotMatter` | pi/portal.py:1555-1561 | every way of cutting a stream into chunks records the same lines |
| `Recorder.SerialOutput` | pi/portal.py:3651-3663 | the request: the entries since then, and of those the slice from the end |
| `Recorder.RingAnswersLikeHistory` | pi/portal.py:3651-3663 | with times that never go back, the ring answers a request for the last n like the unbounded history does for the last n, a thousand at most |
| `Recorder.OddRequests` | pi/portal.py:3662-3663 | what a request for zero or a negative number of lines returns |
| `Recorder.LinesArrive` | pi/portal.py:1555-1561 | of any lines that a device writes, with any carriage returns at their ends, the texts are recorded in order, without the empty ones, and an unfinished line waits |
| `Recorder.FreshIs` | pi/portal.py:3662-3662 | the entries later than a time are all and only those |
| `Recorder.LastLines` | pi/portal.py:3663-3663 | a positive number of lines is taken from the end |
| `Multipart.UploadParts` | mcp/testbench_mcp.py:259-267 | the fields and files of the flash tool, in order |
| `Multipart.Multipart` | mcp/testbench_mcp.py:231-243 | the body is the parts printed one after the other |
| `Multipart.FindBoundary` | pi/portal.py:4143-4154 | the boundary the portal takes from the content type, or its refusal |
| `Multipart.BoundaryArrives` | pi/portal.py:4147-4151 | it is the one that was announced |
| `Multipart.ReadHeaders` | pi/portal.py:4183-4191 | the names that a header section gives |
| `Multipart.HandleFlash` | pi/portal.py:4159-4212 | the upload that a body leaves behind, or its refusal |
| `Multipart.ReadHeader` | pi/portal.py:4183-4191 | the reader takes both names off a printed header |
| `Multipart.ReadUndoesPrint` | pi/portal.py:4168-4212 | the reader makes of each printed part what that part should leave behind |
| `Multipart.ReceiveUndoesPrint` | pi/portal.py:4159-4212 | and of a whole printed body: for every list of parts with clean names and a boundary that is not in them |
| `Multipart.QuoteStyles` | pi/portal.py:4187-4190 | a parameter's value reads the same bare, in double quotes and in single quotes |
| `Multipart.CutAtPlainLine` | pi/portal.py:4172-4181 | a header that ends in a plain empty line is cut off the content there |
| `Multipart.PrintFrames` | mcp/testbench_mcp.py:231-243 | the body starts with the delimiter and ends with the one that closes it |
| `Multipart.FileLine` | mcp/testbench_mcp.py:237-239 | the disposition line of a file, character by character |
| `Multipart.FieldLine` | mcp/testbench_mcp.py:233-236 | the disposition line of a field |
| `Multipart.AddAllByName` | pi/portal.py:4193-4212 | an upload is refused exactly when a part is, as the first such part has it refused; otherwise each name holds what its last part that is not blank left, the esptool arguments those of the last such file, and the offsets stand in order |
| `Multipart.BinsArrive` | pi/portal.py:4193-4212 | images and offsets arrive if and only if every image is non-empty and ends in no white space and equal base names carry equal images |
| `Multipart.FlashArrives` | mcp/testbench_mcp.py:231-267 | the portal ends up with exactly what the flash tool was given, if and only if texts, images, base names and offsets are of that kind |
| `Form.UrlDecode` | test-firmware/main/wifi_prov.c:140-153 | decodes in place: the buffer then holds the decoded text and a NUL, bytes behind it are untouched, and the result is no longer than the text |
| `Form.FormGet` | test-firmware/main/wifi_prov.c:156-173 | finds the field and leaves its cut and decoded value in the buffer, or leaves the buffer alone |
| `Form.SearchIsFirst` | test-firmware/main/wifi_prov.c:158-162 | in any body the hit is the first field of exactly that name, never inside another name or value, and there is none only if there is none |
| `Form.ReadsLookup` | pi/portal.py:2646-2657 | from every urlencoded form the firmware reads the first field of that name |
| `Form.DecodeUndoesQuote` | test-firmware/main/wifi_prov.c:140-153 | decoding undoes encoding as far as the encoding was kept |
| `Form.QuoteExactly` | pi/portal.py:2646-2657 | what a form has for every byte: itself if unreserved, a plus sign for a space, else a percent sign and two digits |
| `Form.DecodesPair` | test-firmware/main/wifi_prov.c:143-149 | what a percent sign and two characters decode to: digits in either case, one digit, and a digit behind white space or a sign |
| `Form.DecodesNothing` | test-firmware/main/wifi_prov.c:143-149 | any other two characters decode to NUL |
| `Form.RestoredExactly` | test-firmware/main/wifi_prov.c:163-169 | a value is restored if and only if it has no NUL and its encoding is shorter than the buffer, or loses just the digits of a final escape of a percent sign |
| `Form.ConnectPost` | test-firmware/main/wifi_prov.c:175-229 | what the handler stores or refuses, for every request |
| `Form.CredentialsArrive` | test-firmware/main/wifi_prov.c:202-207 | from a form that fits one read and that the JSON parser rejects, the three values are stored exactly as given if and only if there is an SSID and each survives its buffer |
| `Form.JsonArrives` | test-firmware/main/wifi_prov.c:195-226 | of a body that parses as JSON its members are stored uncut, a missing one as empty, and nothing without an SSID |
| `Form.EmptyRequest` | test-firmware/main/wifi_prov.c:181-185 | exactly an empty request is refused for having no body |
| `Form.BodyCounts` | test-firmware/main/wifi_prov.c:180-186 | of any other request its first 511 bytes up to a NUL count, and nothing else |
| `Form.NotTakenAsJson` | test-firmware/main/wifi_prov.c:195-200 | a parser that needs the start of a JSON text rejects every form whose first name does not start like one |
| `Form.LongSsidIsCut` | test-firmware/main/wifi_prov.c:190-203 | what is left of a long SSID none of whose bytes is safe |
| `ServerName.SkipToExtensions` | pi/sniffer.py:133-169 | where the extensions start, or that the packet ends before |
| `ServerName.ExtractSni` | pi/sniffer.py:127-191 | the name found by the walk over the extensions |
| `ServerName.ReaderUndoesSender` | pi/sniffer.py:127-191 | from every ClientHello, and every prefix or extension of its bytes, the reader gets the first server name if its bytes are there, and nothing otherwise |
| `ServerName.NoExtensionsNoName` | pi/sniffer.py:160-164 | a ClientHello that stops before its extensions has no name |
| `ServerName.EmptyNameReadsOn` | pi/sniffer.py:170-191 | an empty server name extension at the end of the block is answered with whatever reads as a name behind the block |
| `ServerName.ReadAnswersSlice` | pi/sniffer.py:127-191 | on arbitrary bytes the answer is nothing or a slice of the packet |
| `Telnet.Proxy.HandleRfc2217` | pi/serial_proxy.py:186-233 | one read: its data is returned and every other event takes effect, in order, on any bytes |
| `Telnet.Proxy.HandleComPortOption` | pi/serial_proxy.py:235-316 | the port and the answer after a COM-PORT command, which has no answer if the line refuses the setting |
| `Telnet.Proxy.SendComPortOption` | pi/serial_proxy.py:319-326 | the message to a connected client; a code above 255 sends none |
| `Telnet.Proxy.SendTelnet` | pi/serial_proxy.py:310-317 | the negotiation message |
| `Telnet.ScanUndoesPrint` | pi/serial_proxy.py:186-233 | whatever sequence of events was printed is read back event by event, and the stream goes on behind it |
| `Telnet.Misread` | pi/serial_proxy.py:207-215 | a subnegotiation is understood if and only if no end marker is inside it, whatever follows |
| `Telnet.OutputNoLonger` | pi/serial_proxy.py:186-233 | on any bytes the output is no longer than the input |
| `Telnet.CutBetweenEvents` | pi/serial_proxy.py:186-233 | two reads cut where every event is whole read like one |
| `Telnet.SafeCut` | pi/serial_proxy.py:186-233 | a cut is safe for everything that may follow if and only if every event before it is whole |
| `Telnet.PrintedCutIsSafe` | pi/serial_proxy.py:186-233 | what a client says may be cut between any two events, whatever is read behind the cut |
| `Telnet.CutInsideEscape` | pi/serial_proxy.py:196-200 | a doubled 255 cut in two becomes two data bytes |
| `Telnet.SessionIsObeyed` | pi/serial_proxy.py:186-309 | over a session of reads of whole events, exactly the data reaches the serial line and every command the port, in order |
| `Telnet.OneAnswer` | pi/serial_proxy.py:235-309 | each command is answered once, with its code plus 100, if that is a byte, a client is connected and the line took the setting |
| `Telnet.AnswerIsTrue` | pi/serial_proxy.py:241-271 | the answer to a setting that was taken states the setting the port now has, if and only if it was not one and a half stop bits |
| `Telnet.CommandSets` | pi/serial_proxy.py:241-294 | for every port and payload a command leaves every setting at what its code means, control 8 and 9 switching DTR and 11 and 12 RTS on and off, and all others as they were, unless the line refuses it at once |
| `Telnet.CommandAsks` | pi/serial_proxy.py:241-294 | which commands put a setting on the line at all |
| `Telnet.CommandEchoes` | pi/serial_proxy.py:273-309 | what a connected client is answered, byte for byte, where the answer states no setting |
| `Telnet.NegotiationAnswers` | pi/serial_proxy.py:217-230 | DO of option 44 is answered WILL, WILL is answered DO, and nothing else outside a subnegotiation has an effect |
| `Telnet.QueryKeeps` | pi/serial_proxy.py:241-271 | a request for the current value changes nothing if and only if parity and stop bits are at their default or not asked for |
| `Telnet.DoubledCommand` | pi/serial_proxy.py:203-212 | a command of a client that doubles 255 is read as it was meant, whatever follows, if and only if no 255 is in it |
| `Telnet.AnswerReadable` | pi/serial_proxy.py:319-326 | such a client reads the body of an answer back if and only if no 255 is in it |
| `Morse.MorseKeyer.PlayCode` | pi/morse.py:96-105 | the elements of a code, up to a stop |
| `Morse.MorseKeyer.PlayWord` | pi/morse.py:90-107 | the characters of a word, up to a stop |
| `Morse.MorseKeyer.PlayOnce` | pi/morse.py:84-109 | a pass keys the script of its words up to the check that sees the stop, and says whether it did |
| `Morse.MorseKeyer.Play` | pi/morse.py:69-82 | passes, repeated or not, until the stop, and a last key-off |
| `Morse.RunEmitsTimeline` | pi/morse.py:84-109 | stopped or not, a pass emits a beginning of the timeline, and all of it if it was not stopped |
| `Morse.NeverLeftOn` | pi/morse.py:69-109 | wherever the stop comes, every key-on is followed by a key-off before the next one and the run ends with the key up |
| `Morse.StopIsHeeded` | pi/morse.py:69-109 | over a whole session the key goes down at most once for each look that was answered no: once the stop event is set it does not go down again |
| `Morse.SessionIsPasses` | pi/morse.py:69-82 | a session keys whole passes with a pause behind each if it repeats, and a beginning of one more; without repetition and stop it is one whole pass |
| `Morse.NumberOfCode` | pi/morse.py:11-24 | every code is the path to its character on the tree of the Morse code, and no other character has one |
| `Morse.DigitsAreRegular` | pi/morse.py:19-21 | the codes of the digits follow their pattern of dots and dashes |
| `Morse.CharTakes` | pi/morse.py:90-107 | a character takes one dit for a dot, three for a dash and one between two of them, and three dits more unless it ends its word |
| `Morse.ParisTakesFiftyDits` | pi/morse.py:27-32 | the timing follows the standard by which the word PARIS, with its pause, takes fifty dits |
| `Sequences.WordsUndoSpread` | pi/morse.py:86-86 | words with any white space between and around them come out as they are |
| `Sequences.ToUpperIs` | pi/morse.py:86-86 | a small letter becomes its capital and every other character stays |
| `Morse.CodesDiffer` | pi/morse.py:11-24 | no two characters have one code |
| `Morse.HearWord` | pi/morse.py:90-107 | a listener makes out the characters of a word that have a code |
| `Morse.TimelineIsReadable` | pi/morse.py:84-109 | reading gaps of one, three and at least seven dits off the timeline of any message gives back its words in upper case, without unknown characters and without empty words |
| `Si5351.LowerVco` | pi/si5351.py:130-133 | the loop that lowers the VCO stops at the first even divider that fits |
| `Si5351.RaiseVco` | pi/si5351.py:134-140 | the loop that raises it never passes the largest divider of the chip |
| `Si5351.BestDividerBounds` | pi/si5351.py:39-51 | the largest even divider below the quotient is even, from 8 to 1800, and misses the quotient by less than two unless capped |
| `Si5351.VcoBounds` | pi/si5351.py:39-51 | it puts the VCO between 600 and 900 MHz for every frequency in range |
| `Si5351.FindDivider` | pi/si5351.py:125-145 | the search ends at exactly that divider, so no request in range is refused and the second loop has nothing to do |
| `Si5351.SolveIsNearest` | pi/si5351.py:147-155 | the multiplier is one the chip can do, the carry included, and off by at most half a step |
| `Si5351.Driver.SolvePll` | pi/si5351.py:147-155 | the driver computes that multiplier |
| `Si5351.Driver.WriteMsn` | pi/si5351.py:207-224 | the eight registers of a block after the loop |
| `Si5351.Driver.LoadChannel` | pi/si5351.py:157-171 | the register file after both blocks, the PLL reset and the control register |
| `Si5351.LoadedControl` | pi/si5351.py:163-171 | every bit of the control and reset registers after a load: powered up, integer mode, the channel's PLL, not inverted, its own divider, and the one PLL that is reset |
| `Si5351.LoadedBlocks` | pi/si5351.py:157-161 | the PLL's block stands from register 26 or 34 on, the divider's from 42, 50 or 58 on |
| `Si5351.RangeExactly` | pi/si5351.py:45-52 | requests are taken from a third of a megahertz to 112.5 MHz, both included |
| `Rounding.RoundExactly` | pi/si5351.py:152-152 | rounding is to the nearest integer, and half to even |
| `Si5351.Driver.SetFrequency` | pi/si5351.py:116-176 | errors leave everything alone; success reports the frequency, records it and leaves exactly the registers of that request changed |
| `Si5351.UnpackPack` | pi/si5351.py:207-224 | parameters of 18, 20 and 20 bits are unpacked as they were packed |
| `Si5351.BlockDecodes` | pi/si5351.py:207-224 | a block decodes by the divider equation to exactly the ratio it was written for, and its parameters fit |
| `Si5351.ReportedIsClose` | pi/si5351.py:173-176 | the reported frequency misses the request by half a PLL step over the divider at most, and by less than 1.5 Hz |
| `Si5351.ProgramDecodes` | pi/si5351.py:157-176 | the registers of a channel that was just set decode to the frequency reported |
| `Si5351.SeparatePll` | pi/si5351.py:157-171 | channel 2 and the other two never move one another |
| `Si5351.SharedPll` | pi/si5351.py:188-190 | of channels 0 and 1 the one set first still does what is on record for it if and only if both need the same multiplier |
| `Si5351.SharedPllMoves` | pi/si5351.py:188-190 | two frequencies that do not |
| `PE4302.Chip.Write` | pi/pe4302.py:3-4 | the chip: a bit is shifted in at a rising clock edge while LE is low, the word is latched when LE rises |
| `PE4302.Driver.ShiftOut` | pi/pe4302.py:82-96 | from any register contents and pin levels exactly one word is latched, that of the six-bit code |
| `PE4302.Driver.SetDb` | pi/pe4302.py:64-74 | the latched word attenuates by what is reported, within a quarter decibel of the request; errors change nothing |
| `PE4302.Driver.Init` | pi/pe4302.py:43-52 | latches 0 dB |
| `PE4302.MaskKeeps` | pi/pe4302.py:70-70 | the mask never changes the code of a request in range |
| `PE4302.WordMeansCode` | pi/pe4302.py:3-4 | the weights of a code's word add up to half a decibel a unit |
| `PortScan.ParsePorts` | pi/netscan_controller.py:54-69 | the strictly ascending list of all ports of the items, or the refusal of the first bad item |
| `PortScan.ParseUndoesPrint` | pi/netscan_controller.py:54-69 | a written list of ranges is refused if and only if a range is reversed or outside, and otherwise read as exactly its ports |
| `PortScan.NumberItem` | pi/netscan_controller.py:61-67 | any string of digits is one port, or outside |
| `PortScan.RangeItem` | pi/netscan_controller.py:61-67 | two with a dash between them are a range, or outside or reversed |
| `PortScan.BadItemExactly` | pi/netscan_controller.py:61-64 | an item is bad if and only if it is neither |
| `PortScan.FirstRefusalIs` | pi/netscan_controller.py:61-67 | a list is refused exactly for its first item that is no range, with that item and what is wrong with it |
| `PortScan.Fill` | pi/netscan_controller.py:106-111 | keeps each port unsubmitted, in flight or finished, never more than 128 in flight; submits each once and only after a reading of the clock that is in time, and ends with the pool full, the list empty or a reading that is late |
| `PortScan.Collect` | pi/netscan_controller.py:119-123 | moves the finished jobs over without losing one |
| `PortScan.Scan` | pi/netscan_controller.py:95-129 | for every clock and every result of every wait: the report is about a set of finished ports, how many they are, which of them are open and whether they are all; and they are all unless a reading came too late or a wait ran into its timeout |
| `PortScan.OpenIsExact` | pi/netscan_controller.py:128-129 | of a parsed list the open ports are exactly the finished ones that accept, each once and ascending; of a complete scan, all that accept |

## Left out

- Sockets, subprocesses, udev, I2C, GPIO memory and sleeps: their outcomes are parameters or arbitrary choices.
- Floating point: frequencies, decibels and times are exact numbers, and `round` is exact half-to-even.
- LeaseManager.Manager.SlotAcquire: `expires_in` is the exact time left, not rounded to a tenth of a second.
- LeaseManager.Manager.SlotMode: the same.
- Dongle: the `_live_running` flag and reader threads that outlive their session are not modelled, and `reset_device`, which enters the admin section a second time, is left out.
- LiveRing.Live.Append: the parsing of a line into an event and the separate session log are left out.
- Hotplug.Slot.StartFlapRecovery: the check of the recovery flag and its setting are one step here, because a handler is; `RecoveryRace` takes them apart and says exactly when that makes a difference.
- Hotplug.RecoveryIsolates: an event that had passed the check of the flag before the recovery set it still changes the list of devices; a handler is one step here.
- Hotplug.RescueExactly: a device that is plugged in again by hand is bound by the kernel; "bound" is what the portal has done.
- Hotplug: a write to the kernel's bind or unbind file that fails, and a second device on the same slot, are left out.
- Hotplug: a stretch of a recovery thread between two sleeps is one step too; the proxy process, the error texts and the manual start, which marks a slot present by hand, are left out.
- RecoveryRace: only the recovery flag, the retry counter and the binding of the device are modelled there.
- Hotplug.Slot.HandleHotplug: the lookup of the slot for a device and the refusals of malformed requests before it are left out.
- Recorder.Recorder.Feed: decoding a line's bytes is any function; connecting and reconnecting to the monitor port is left out.
- Multipart: text is ASCII, so that encoding is the identity and the characters that only Unicode takes for space do not occur.
- Multipart.HandleFlash: resolving `flash_args`, writing the files and calling esptool come after the modelled loop and are left out; so is the reader that this handler overrides.
- Form.ConnectPost: the JSON parser is a parameter, and one read delivers up to 511 bytes of the body.
- ServerName.ExtractSni: decoding the name's bytes as ASCII is left out.
- Telnet.Proxy.HandleComPortOption: how the serial line responds to a setting is a parameter, fixed for each setting in turn.
- Telnet: bytes from the serial line to the client are left out; the program passes them on without doubling 255.
- Morse: `start` and its checks, and a key-off that raises, are left out; a run that repeats for ever is covered up to every stop.
- Si5351.Driver.Write: retries of a failed I2C write are left out.
- PE4302.Driver.SetDb: the lock and the delays between pin writes are left out.
- PortScan.Scan: elapsed time and logging are left out, and so is `validate_target`, which is plain address arithmetic.
- The remaining controllers (WiFi, BLE, MQTT, debug, signal generator, TLS mirror), the web page and the HTTP and JSON-RPC routing: external commands, lock-guarded flags and plumbing.
