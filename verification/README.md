# Verification of the ACE packet-latency rig

This project models the parts of the rig whose correctness is not visible from any one
function, and proves properties of those models in Dafny 4.11. `dafny verify dfyconfig.toml`
checks all of it.

The rig has two machines. A sender emits numbered UDP packets at fixed deadlines. On the
receiving machine an XDP program classifies them, stamps and counts them and sends them to
the stack, to a measuring CPU (CPUMAP) or to an AF_XDP socket. A loader owns the XDP program,
its maps and the NIC's timestamp configuration, and can be recovered after a crash. A run
controller on each machine drives many runs over one control connection. Afterwards an
analyzer joins the records of every source, converts clocks, and reports delays.

| file | what it models |
|---|---|
| `Hwtstamp.dfy` | capture, prepare, apply and restore of the device timestamp configuration (classes over a device) |
| `Lifecycle.dfy` | the loader, its `--recover` mode and any number of AF_XDP receivers as one transition system over shared maps; every process may die between two steps |
| `LifecycleHandshake.dfy` | claim, re-read, register against STOPPING, scan, detach |
| `LifecycleProgress.dfy` | the handshake happens: receivers can register and leave, and a loader can end its measurement |
| `LifecycleRecovery.dfy` | crash consistency of the saved configuration, and exactly when it fails |
| `LifecycleLiveness.dfy` | a recovery left alone always finishes |
| `LifecycleBounds.dfy` | no process of the lifecycle goes in circles or gets stuck, and the record it leaves is never one to be refused |
| `LifecycleDevice.dfy` | the steps on the device are the operations of `Hwtstamp.dfy` |
| `LifecyclePins.dfy` | somebody else's configuration, and when the pinned maps may go |
| `RunProtocol.dfy` | the two `ace-run` roles, their frames and their channels |
| `RunBarrier.dfy` | receivers and senders as children of the two roles: completion bytes, TERM and USR1, reaping |
| `RunProgress.dfy` | the barrier opens: healthy runs complete with every receiver saved, and failing ones are cleaned up |
| `RunCleanup.dfy` | the child table: polling, stopping, waiting, and the order of `cleanup_children` |
| `Packets.dfy` | the experiment header and the two packet parsers |
| `XdpAccounting.dfy` | the two XDP programs with their 21 counters and two record maps |
| `DrainBarrier.dfy` | the wait for quiescence over counters read one CPU at a time |
| `FrameLedger.dfy` | UMEM frame ownership, the two rings and `receive_batch` |
| `JsonString.dfy` | the UTF-8 to ASCII JSON string encoder, against RFC 3629 and RFC 8259 |
| `CpuList.dfy` | CPU-list parser, formatter and the analyzer's canonical form |
| `Placement.dfy` | which CPUs a configuration reserves, and the analyzer's check of it |
| `Calibration.dfy` | merging calibration captures, interpolation and rounding |
| `JoinRow.dfy` | one row of the full outer join and its decomposition; the key union |
| `EndToEnd.dfy` | from the octets of a frame, through the XDP programs and the receivers, to its joined row |
| `ClockValidation.dfy` | the decision whether a capture is accepted |
| `Percentile.dfy` | nearest-rank percentiles per run and pooled |
| `CounterCrop.dfy` | counters cropped to the measurement window |
| `Pacing.dfy` | absolute-deadline pacing and packet counts |
| `Sorting.dfy`, `Wrappers.dfy` | lists sorted and joined; optional values, octets |

State machines are written as `Enabled`/`Next` on values with runs as lists of actions; code
that works in place is written as classes and loops. A statement about "every run" is an
induction over such lists.

## What turned out not to hold

- **Crash consistency has a hole in `--recover`.** Recovery reads the runtime record
  (BPF/xdp_loader.c:1008-1017) before it checks that the loader is dead (1043-1055) and
  later writes that copy back (1059-1065). If the loader announces APPLYING and changes the
  device in between, and then dies, the announcement is overwritten and the device keeps a
  configuration no record names. `LifecycleRecovery.EarlyReadIsTheOnlyDanger` gives the exact
  condition: reading now can lose the configuration if and only if the maps are pinned, the
  loader has not announced yet, and the request differs from what was captured;
  `LifecycleRecovery.EarlyReadHappens` reaches such a point from the start.
- **The driver has to adopt what it is asked for.** A driver that settles on a third
  configuration leaves a crash point that recovery refuses to touch
  (`LifecycleRecovery.OtherAnswerLosesDevice`); the crash theorems therefore speak of drivers
  that leave the saved or the requested configuration behind.
- **One blind write.** While it takes back a filter the driver did not adopt, the loader sets
  the saved configuration without looking again (include/ace_hwtstamp.h:128-135), so an
  outside change in that window is lost (`LifecyclePins.RollbackOverwrites`,
  reached from the start in `LifecyclePins.RollbackHappens`).
  `LifecyclePins.ExternalSurvivesExactly` shows that this is the only such window.
- **The two CPU-list parsers differ.** The analyzer accepts lists that name a CPU twice, the
  configuration does not; `CpuList.AcceptsExactly` says that this and the word "inherit" are
  the whole difference (`CpuList.TwiceIsRefused` gives the list "1,1"), and where both accept, they agree on the set.

## Model

| member | source | states |
|---|---|---|
| Hwtstamp.RequestedMeaning | include/ace_hwtstamp.h:84-95 | what exactly is asked for on top of a captured configuration, and when that is no change at all |
| Hwtstamp.TimestampState.Capture | include/ace_hwtstamp.h:59-79 | saved and effective are the device's configuration exactly when the query succeeds; the device is untouched |
| Hwtstamp.TimestampState.PrepareRxAll | include/ace_hwtstamp.h:84-95 | only an active state is prepared; `changed` stays "the two configurations differ" |
| Hwtstamp.TimestampState.ApplyPreparedRxAll | include/ace_hwtstamp.h:100-137 | the device changes only from the captured configuration; success, staleness, rollback and both kinds of failed ioctl are characterised, including what the driver adopts |
| Hwtstamp.TimestampState.RestoreAllowSaved | include/ace_hwtstamp.h:165-192 | the device changes only if its configuration is one this program knows; skipped if and only if it is not |
| Hwtstamp.EnableThenRestore | include/ace_hwtstamp.h:151-198 | enabling and restoring against a driver that adopts both leaves the device as found |
| Lifecycle.HaveLiveClaim | BPF/xdp_loader.c:545-589 | the undisturbed scan deletes only well-formed claims of dead owners, ends clear only with no claim left, and otherwise names a live claim, a malformed one, or the map operation that failed |
| LifecycleHandshake.StepKeepsInv | BPF/afxdp_recv.c:1337-1385 | every step of every process keeps: protected receivers own their claim while XDP is up, scans know what they claim to know, releases are safe |
| LifecycleHandshake.NeverDetachedUnderReceiver | BPF/xdp_loader.c:1504-1536 | in every interleaving with any process dying anywhere, each XSKMAP entry belongs to a live receiver whose claim is present and whose XDP program is attached |
| LifecycleHandshake.StoppingIsFinal | BPF/afxdp_recv.c:1337-1375 | STOPPING never clears; afterwards only receivers that had passed their second look are ever registered |
| LifecycleHandshake.DetachIsFinal | BPF/xdp_loader.c:1056-1128 | the step that detaches XDP finds nobody registered, and nobody ever is again |
| LifecycleHandshake.RegisteredByUsableRecord | BPF/afxdp_recv.c:1241-1385 | whoever is registered went by a record that was applied, not stopping, and asked for all packets to be stamped |
| LifecycleHandshake.ScanIsTruthful | BPF/xdp_loader.c:545-589 | among other processes, a scan step says "live" only of a claim that is there and "clear" only of an empty map, and deletes only what it read as a dead owner's |
| LifecycleProgress.ReadyIsUsable | BPF/xdp_loader.c:1413-1476 | in every reachable state a loader that is ready has published a record receivers can use, naming its own two configurations, with XDP attached |
| LifecycleProgress.ReceiverCanRegister | BPF/afxdp_recv.c:1241-1385 | a receiver that has opened beside a ready loader can register whenever nobody claims its queue |
| LifecycleProgress.RegistrationHappens | BPF/afxdp_recv.c:1241-1385 | from the start, for every original configuration, receiver and queue, a run ends with exactly that receiver registered and XDP attached |
| LifecycleProgress.ReceiverCanLeave | BPF/afxdp_recv.c:1241-1385 | a registered receiver can leave by its own steps whatever the loader does, taking its claim and its entry along and nobody else's |
| LifecycleProgress.LoaderSweeps | BPF/xdp_loader.c:545-589 | over dead claims the loader's scan can go on to "clear" |
| LifecycleProgress.LoaderCanFinish | BPF/xdp_loader.c:1500-1603 | from every clean state with a ready loader and dead claimants the ordinary end of a measurement is open and leaves the device as found, XDP detached, the records exported and the pins gone |
| LifecycleRecovery.StepKeepsConf | BPF/xdp_loader.c:1413-1476 | what every clean step keeps: a changed device is named by the pinned record and by a loader that will restore it or leave the pins |
| LifecycleRecovery.CrashConsistent | BPF/xdp_loader.c:437-459 | wherever a clean run stops, crashes of loader and recoveries included, the record names the original configuration and the device has one of the two recorded ones, or the pins are gone and the device is restored |
| LifecycleLiveness.RecoveryFinishes | BPF/xdp_loader.c:1056-1215 | from every crash point of a clean run with dead claimants a recovery can start and restore the device, detach, export and drop the pins |
| LifecycleLiveness.LoneStepFalls | BPF/xdp_loader.c:545-589 | every step of a recovery left alone, nothing failing, strictly decreases what is left to do |
| LifecycleLiveness.NeverStuck | BPF/xdp_loader.c:1056-1215 | such a recovery always has a next step until it has finished |
| LifecycleLiveness.EveryRecoveryFinishes | BPF/xdp_loader.c:1056-1215 | every schedule of it has at most 4 steps per claim and 9 more, can stop only where it has finished, and then the device is restored and the record says so, XDP is detached, the records are exported and the pins gone |
| LifecycleBounds.StepsAreBounded | BPF/xdp_loader.c:1413-1603 | in every run, failures and crashes included, a loader takes at most 14 steps besides its scan, a receiver at most 10 and a recovery at most 8 |
| LifecycleBounds.LoaderNeverStuck | BPF/xdp_loader.c:1413-1603 | a loader that has not ended always has a step of its own other than dying |
| LifecycleBounds.RecordIsPlausible | BPF/xdp_loader.c:1018-1042 | in every reachable state the pinned record is one recovery does not refuse: never applying and applied at once, and applied only with all packets stamped |
| LifecycleRecovery.EarlyReadLosesDevice | BPF/xdp_loader.c:1008-1066 | the losing run: read, announce, set, die, publish the stale copy |
| LifecycleRecovery.EarlyReadIsTheOnlyDanger | BPF/xdp_loader.c:1008-1066 | the exact condition under which a recovery that reads the record now can lose the configuration |
| LifecycleRecovery.EarlyReadHappens | BPF/xdp_loader.c:1008-1066 | that danger is reached from the start, right after the maps are pinned, whenever the request is a change |
| LifecycleRecovery.OtherAnswerLosesDevice | include/ace_hwtstamp.h:121-135 | a driver that adopts anything but the saved or requested configuration leaves an unrecoverable crash point |
| LifecyclePins.ExternalNeverOverwritten | BPF/xdp_loader.c:1569-1592 | a configuration that is not one of ours survives whatever the loader and any number of recoveries do |
| LifecyclePins.ExternalSurvivesExactly | include/ace_hwtstamp.h:100-192 | a third configuration set at any point of a clean run after the capture survives everything that follows if and only if the loader is not just taking back a filter |
| LifecyclePins.RollbackOverwrites | include/ace_hwtstamp.h:128-135 | the one window in which it does not |
| LifecyclePins.RollbackHappens | include/ace_hwtstamp.h:128-135 | that window is reached from the start in a clean run, and an outside change in it is lost |
| LifecyclePins.PinsDroppedOnlyWhenDone | BPF/xdp_loader.c:1500-1603 | pins are dropped only with XDP detached, the device restored, and the records exported (after a completed measurement, or by recovery) |
| LifecyclePins.DeviceRestoredWhenUnpinned | BPF/xdp_loader.c:1500-1603 | in a clean run the device has its original configuration when loader or recovery drops the pins |
| LifecyclePins.ExportedAfterDetach | BPF/xdp_loader.c:1500-1567 | whatever has been exported was exported after the detach, with nobody registered |
| LifecycleDevice.CaptureIsStep | include/ace_hwtstamp.h:59-79 | a successful capture is the loader's Capture step |
| LifecycleDevice.PrepareIsStep | include/ace_hwtstamp.h:84-95 | preparing yields what the loader announces |
| LifecycleDevice.ApplyIsSteps | include/ace_hwtstamp.h:100-137 | every call of apply is SetAll, SetStale, SetOther with its Rollback, or an abort, with the same device and variables |
| LifecycleDevice.RestoreIsStep | include/ace_hwtstamp.h:165-192 | every call of restore by the loader is one of its restore steps |
| LifecycleDevice.RecoverIsStep | BPF/xdp_loader.c:1139-1178 | every call of restore by a recovery is one of its two restore steps |
| RunProtocol.OpIsExchange | experiment/ace-run.c:520-637 | the two programs are the two ends of one list of exchanges |
| RunProtocol.HeadIsExchange | experiment/ace-run.c:279-296 | a frame that is accepted is the peer's end of the exchange the reader stands before |
| RunProtocol.ForeignFramesRejected | experiment/ace-run.c:279-296 | a frame of another run, configuration or phase, or after the greeting of another session, is never accepted; the peer's own is |
| RunProtocol.HangUpIsNoticed | experiment/ace-run.c:571-605 | a role that hung up does nothing any more, and a peer waiting for its children can notice it |
| RunProtocol.StepKeepsInv | experiment/ace-run.c:259-296 | every step, failing ones with or without their FAIL frame included, keeps: what is in a channel is exactly the exchanges between the two roles, and whoever is ahead is ahead by sends only |
| RunProtocol.HealthyFramesAccepted | experiment/ace-run.c:279-296 | with one configuration no frame of a healthy peer is ever rejected, over any number of runs |
| RunProtocol.PollingNeverAbortsHealthyRun | experiment/ace-run.c:571-605 | while a role waits for its children its inbound channel is empty and open unless the peer failed |
| RunProtocol.ReceiverCompleteImpliesSender | experiment/ace-run.c:511-560 | receiver `.complete` of run k implies the sender wrote "completed" for k and `.complete` for all earlier runs |
| RunProtocol.SenderCompleteImpliesReceiver | experiment/ace-run.c:632-636 | sender `.complete` of run k implies the receiver announced the end of run k and completed all earlier ones |
| RunProtocol.LockStep | experiment/ace-run.c:520-637 | the roles never drift more than two exchanges apart |
| RunProtocol.MismatchNeverStarts | experiment/ace-run.c:297-325 | roles with different configurations never start a run |
| RunProtocol.HealthyNeverStuck | experiment/ace-run.c:511-724 | no deadlock: of two healthy roles one can go on until both have finished their last run |
| RunProtocol.HealthyCanFinish | experiment/ace-run.c:511-724 | from every state with two healthy roles there is a run, without anybody giving up, that completes and marks all runs on both sides |
| RunBarrier.StepKeepsInvOf | experiment/ace-run.c:520-637 | what every step of supervisors and children keeps: bytes heard mean drained or sent, USR1 only after the release, past the reaping everybody is reaped |
| RunBarrier.NothingSavedBeforeAllDrained | udp_socket/src/receiver.c:740-773 | without a failure on the receiving side, no receiver that reported success writes records before every sender attempted its last packet and every receiver drained |
| RunBarrier.NothingSentBeforeAllCapture | udp_socket/src/sender.c:316-345 | a packet is attempted only while both supervisors are in the same run, every receiver is there and none has been told to stop, unless the receiving side failed |
| RunBarrier.ReleasedExactly | experiment/ace-run.c:549-555 | unless the receiving side failed, every receiver has TERM exactly from the request to stop on and USR1 exactly from the release on |
| RunBarrier.DrainedMeansToldToStop | udp_socket/src/receiver.c:740-773 | a receiver that counts as drained was told to stop and captures no longer |
| RunBarrier.FailedChildEndsTheRuns | experiment/ace-run.c:571-605 | once a child has reported failure its supervisor completes neither this run nor a later one |
| RunBarrier.GoneIsGone | udp_socket/src/sender.c:583-600 | a child that exited takes no step, and a sender that reported sends nothing more |
| RunBarrier.LoaderToldLast | experiment/ace-run.c:549-558 | on healthy and failing paths the loader is told to stop only after every receiver child is reaped |
| RunBarrier.LoaderToldBeforeRecord | experiment/ace-run.c:511-560 | no run is recorded as completed whose loader has not been told to stop |
| RunBarrier.BlockedExactly | udp_socket/src/receiver.c:740-773 | a receiver in which nothing fails cannot go on exactly if it is gone, captures without TERM, or holds its records without USR1 |
| RunBarrier.BothSignalsRelease | BPF/afxdp_recv.c:1500-1517 | TERM and USR1 in either order, anywhere among its own steps: at most four steps, never held up again, and it ends drained, reported and saved |
| RunProgress.AllSavedWhenReaped | experiment/ace-run.c:549-555 | in every run without failure, past the reaping every receiver has drained, written its records and been reaped |
| RunProgress.BarrierAlwaysOpens | experiment/ace-run.c:511-637 | from every state of a run without failure there is a continuation without failure in which both roles finish and mark all their runs, the loader is told and every receiver is saved and reaped |
| RunProgress.CleanupAlwaysFinishes | experiment/ace-run.c:248-258 | wherever the receiving side fails, its cleanup can finish without killing anybody: all receivers reaped, then the loader told |
| RunCleanup.Supervisor.RequestStop | experiment/ace-run.c:196-201 | TERM once, and only to a child that is neither done nor told |
| RunCleanup.Supervisor.WaitChild | experiment/ace-run.c:202-221 | how the wait ends in either form: the child judged by the status of the first poll that reports it, killed only if no poll does, or the ordinary form given up for a request to stop or another child's failure and for nothing else; the cleanup form always returns with the child reaped |
| RunCleanup.Supervisor.Reap | experiment/ace-run.c:100-111 | takes over exactly what waitpid reports and complains exactly about children that ended untold or badly |
| RunCleanup.EndedWellMeans | experiment/ace-run.c:214-220 | which statuses end a wait well: 0 always, 130 or death by TERM only for an external tool that was told to stop |
| RunCleanup.ComplainsMeans | experiment/ace-run.c:100-111 | untold, a persistent child must not end at all and any other only with 0; nobody complains about a child that was told |
| RunCleanup.Supervisor.StopChild | experiment/ace-run.c:222-223 | TERM, then the cleanup wait: the child is reaped |
| RunCleanup.Supervisor.CleanupChildren | experiment/ace-run.c:248-258 | all children are reaped, every live one got its signals, none was signalled after it was reaped, and the loader's TERM comes after the reaping of all others |
| Packets.PacketUdpInfo | BPF/afxdp_recv.c:314-353 | the payload it reports lies inside the frame |
| Packets.UserParserExact | BPF/afxdp_recv.c:314-353 | the receiver's parser accepts exactly unfragmented IPv4 frames carrying UDP, stated field by field |
| Packets.VerdictMeans | BPF/xdp_kern.c:114-215 | malformed, fragment and unrelated, each exactly from the octets of the frame |
| Packets.ClassifierExact | BPF/xdp_kern.c:114-215 | the classifier accepts a frame for a key and path exactly if it is a UDP datagram for that path's port that starts with that key's header |
| Packets.UdpReceiverExact | udp_socket/src/receiver.c:695-712 | the UDP receiver takes exactly the datagrams of the expected size that start with a header of its own flow |
| Packets.ParsersAgree | BPF/xdp_kern.c:114-215 | for every octet string the classifier's verdict on experiment packets is the receiver parsers' verdict, key and path included |
| Packets.ValueOfOctets | udp_socket/src/sender.c:563-569 | network byte order decodes to the encoded number |
| Packets.HeaderRoundTrip | udp_socket/src/sender.c:557-570 | a header written by the sender, with any signed 64-bit time, decodes to the same flow, sequence and send time at the classifier, the AF_XDP receiver and the UDP receiver of that flow, and no other flow's receiver takes it |
| Packets.AcceptedPacketsAreEncodings | BPF/xdp_kern.c:194-215 | whatever the classifier accepts carries, octet by octet, the header encoding of the key it reports |
| XdpAccounting.EffectivePath | BPF/metadata.h:47-53 | CPUMAP only in mixed mode, XSK in all modes but all-pass, PASS otherwise |
| XdpAccounting.OutcomeMeans | BPF/xdp_kern.c:217-369 | which frame has which outcome, from the parsed frame, the helpers' answers and the books: measured or why not, stamped, recorded, duplicate, and where it goes |
| XdpAccounting.IngressRecordMeans | BPF/xdp_kern.c:217-242 | the ingress record of a recorded frame, field by field: key, queue, XDP time, hardware time and its validity, error code, effective path; every other record untouched |
| XdpAccounting.MetadataMeans | BPF/xdp_kern.c:254-308 | the same of the metadata queued for the measuring CPU, marked as its program expects |
| XdpAccounting.CpumapRecordMeans | BPF/xdp_kern.c:378-421 | when the measuring CPU makes a record, and what it says; nothing else changes |
| XdpAccounting.OutcomeKeepsBalance | BPF/xdp_kern.c:315-369 | every outcome keeps TOTAL = PASS + CPUMAP + XSK, HWTS valid + error = ingress outcomes = dispatch outcomes, and the reasons within PASS |
| XdpAccounting.DispatchKeepsBooks | BPF/xdp_kern.c:217-369 | every frame, for every capacity, keeps all laws, map sizes equal to RECORDED counters, and first values |
| XdpAccounting.TraceKeepsBooks | BPF/xdp_kern.c:345-421 | the same over every trace of frames, arrivals on the measuring CPU with any metadata, counts of inserts made there, and losses; without ingress update errors and altered keys CPUMAP keys are ingress keys |
| XdpAccounting.NoCpumapWithoutMixed | BPF/metadata.h:47-53 | in all-pass and pass-xsk no CPUMAP counter, record or queue entry ever appears |
| XdpAccounting.Programs.RecordIngress | BPF/xdp_kern.c:217-242 | recorded, duplicate or refused, by key, capacity and helper answer; an existing record is kept |
| XdpAccounting.Programs.PrepareMetadata | BPF/xdp_kern.c:254-308 | the metadata written, the stamp counted and the ingress entry made |
| XdpAccounting.Programs.DispatchRequestedPath | BPF/xdp_kern.c:315-343 | the fate of the packet, what it counts and what it queues |
| XdpAccounting.Programs.XdpDispatch | BPF/xdp_kern.c:345-369 | the whole classifier for one frame: the outcome, the new books, all laws kept |
| XdpAccounting.Programs.XdpCpumapMeasure | BPF/xdp_kern.c:378-421 | the measuring program for one packet with any metadata: believed exactly if marked, the record inserted once before it is counted, all laws kept at both points |
| DrainBarrier.SkewIsConservative | BPF/xdp_loader.c:886-905 | however the readings are skewed over CPUs and time, terminal is seen too low and requested too high, never the other way |
| DrainBarrier.EqualMeansDrained | BPF/xdp_loader.c:906-921 | seen equality means nothing in flight, lost or inserted but uncounted at that instant and, after detach, ever after; the record map is final |
| DrainBarrier.Waiter.LookupStatTotal | BPF/xdp_loader.c:840-849 | the sum over the CPUs, read one by one while they go on counting, lies between the totals before and after; or the lookup failed |
| DrainBarrier.Waiter.PollOnce | BPF/xdp_loader.c:886-905 | outcomes first, requests last: never too many outcomes and never too few requests for an instant in between, and nothing counted before the poll is missed |
| DrainBarrier.Waiter.WaitForCpumapRecords | BPF/xdp_loader.c:865-948 | in a moving world: the wait decides at the first failing, fully observed or last poll and never by its loop condition; its report never hides what was open at some instant of its last poll, and a world at rest is reported exactly |
| DrainBarrier.SuccessIsSteady | BPF/xdp_loader.c:906-940 | unobserved = requested - terminal; eleven equal polls for success, 101 for an accepted loss |
| DrainBarrier.SucceedsExactly | BPF/xdp_loader.c:906-921 | the wait succeeds with nothing unobserved if and only if eleven polls in a row, the last at or after the grace time, saw the same equal numbers (zero included) with no failed lookup before; and it ends at the first such poll |
| DrainBarrier.LossExactly | BPF/xdp_loader.c:924-940 | a loss is accepted if and only if no lookup failed, no poll was quiet, and the last 101 of 501 polls saw the same numbers with requests ahead |
| DrainBarrier.TraceIsLawful | BPF/xdp_kern.c:321-421 | every trace of the two XDP programs, with its counters spread over any number of CPUs, obeys the conservation law at every instant and takes no counter back |
| DrainBarrier.EveryTraceSpreads | BPF/xdp_kern.c:321-421 | however the events of a trace are dealt out to CPUs, per-CPU counters exist that keep the account |
| DrainBarrier.NothingOpenStaysSo | BPF/xdp_loader.c:851-948 | once nothing is open and no frame is classified any more, nothing is under way, lost or uncounted ever after and the record map stands |
| DrainBarrier.ExportIsComplete | BPF/xdp_loader.c:851-948 | for every such trace and any timing of the readings: once no frame is classified any more, a wait that reports nothing unobserved leaves no redirected packet under way, lost or uncounted and a record map that never changes again; and with nothing open and lookups answering the wait succeeds with exactly the number of requests |
| FrameLedger.ValidateDescriptor | BPF/afxdp_recv.c:462-513 | accepted exactly when the packet is a nonempty part of one UMEM frame and no fragment; the answer is that frame's base |
| FrameLedger.Receiver.FillInitialFrames | BPF/afxdp_recv.c:225-238 | every frame is submitted once and marked as the kernel's |
| FrameLedger.Receiver.TakeBatch | BPF/afxdp_recv.c:534-568 | the validating loop takes all frames of the batch or none; it takes them if and only if all descriptors are sound and the frames distinct and in the kernel |
| FrameLedger.Receiver.Rollback | BPF/afxdp_recv.c:541-549 | the ledger and the owned count are exactly as on entry |
| FrameLedger.Receiver.ProcessBatch | BPF/afxdp_recv.c:583-658 | the records made are those of the batch's packets, in order and up to capacity; every counter moves by the number of packets it names; the answer is the first problem; every frame goes back to the ledger and into its FILL slot, and the invariant checks never fire |
| FrameLedger.KeptIsPrefix | BPF/afxdp_recv.c:614-634 | keeping records packet by packet while there is room is cutting the whole list at capacity |
| FrameLedger.FirstProblemNone | BPF/afxdp_recv.c:599-634 | a batch goes without a problem exactly if all clocks could be read and all records fit |
| FrameLedger.Receiver.HandlePacket | BPF/afxdp_recv.c:595-636 | what one packet adds to counters and records |
| FrameLedger.OnlyOwnMetadata | BPF/afxdp_recv.c:397-444 | the fields of a record, and that it has metadata exactly if there is some in front of the packet, marked, for this very key and path |
| FrameLedger.ClassifierMetadataKept | BPF/afxdp_recv.c:397-444 | what the classifier wrote in front of a packet it sent to the socket is in that packet's record |
| FrameLedger.Receiver.ReceiveBatch | BPF/afxdp_recv.c:518-673 | on every path ledger and owned count as on entry; errors before processing consume nothing; otherwise exactly the received frames, aligned and pairwise distinct, are appended to FILL, the records are the old ones followed by one per packet with clocks and an XSK experiment header, cut at capacity, and the counters are the matching numbers; later invariant errors never occur |
| FrameLedger.WholePoolNeverFails | BPF/afxdp_recv.c:570-581 | with FILL, kernel and RX holding every frame once, there is always room and no batch is refused |
| FrameLedger.BatchKeepsWhole | BPF/afxdp_recv.c:660-663 | a published batch keeps every frame exactly once among FILL, kernel and RX |
| FrameLedger.NoBatchEverRefused | BPF/afxdp_recv.c:225-673 | after the initial fill and any run of kernel and receiver steps: every frame once among FILL, kernel and RX, room in FILL, and the next batch acceptable |
| FrameLedger.ReceiveFromWholePool | BPF/afxdp_recv.c:518-673 | with the pool whole, one call is the publishing step of such a run: the batch is published, no invariant error is counted |
| JsonString.FirstIsSound | experiment/ace_manifest.c:204-243 | whatever the reader takes is the UTF-8 encoding of the scalar value it reports |
| JsonString.FirstIsComplete | experiment/ace_manifest.c:204-243 | it takes every encoding |
| JsonString.ParseExactlyUtf8 | experiment/ace_manifest.c:204-243 | the encoder accepts exactly well-formed UTF-8 |
| JsonString.ReadOne | experiment/ace_manifest.c:204-243 | one turn of the reading loop; the cursor never passes the terminator |
| JsonString.WrittenDecodes | experiment/ace_manifest.c:205-255 | the output is ASCII and decodes, as a JSON string with surrogate pairs, to the code points read |
| JsonString.Write | experiment/ace_manifest.c:195-256 | null for a null pointer; otherwise success exactly on UTF-8, with output that decodes to the input's code points |
| CpuList.RunParseCpus | experiment/run_config.c:44-66 | the parser's loops compute the grammar: numbers below 1024, ascending, no overlap |
| CpuList.RunFormatCpus | experiment/run_config.c:67-78 | the canonical text, or a refusal exactly when it does not fit with its terminator |
| CpuList.FormatFits | experiment/run_config.h:7 | no set needs more than 4009 of the 4096 bytes |
| CpuList.ParseOfFormat | experiment/run_config.c:44-78 | parsing the formatted text of any nonempty set gives the set back |
| CpuList.CanonicalIsFormat | analysis/analyze_experiment.py:57-72 | every text the configuration accepts gets from the analyzer exactly the formatter's text |
| CpuList.AcceptsExactly | experiment/run_config.c:44-66 | the configuration accepts exactly what the analyzer accepts, except "inherit" and lists that name a CPU twice |
| CpuList.TwiceIsRefused | experiment/run_config.c:61-61 | the list "1,1" is taken by the analyzer and refused by the configuration |
| Placement.GeneralSetFacts | experiment/run_config.c:140-166 | the general set keeps the IRQ CPU; it and the CPUMAP CPU cover the available set, disjointly exactly when CPUMAP is active |
| Placement.RxSetMeans | experiment/run_config.c:138-166 | which CPUs a receiver gets: without shared CPUs its own setting, in all-pass mode the other one; with them the reserved CPU or the general set |
| Placement.FlowPathIsClassified | experiment/run_config.c:132-137 | the path named in a condition is the path the classifier takes for that flow's port in that mode |
| Placement.EmittedConditionPasses | experiment/run_config.c:341-371 | the condition emitted for any accepted configuration in any mode passes the analyzer's placement check |
| Placement.ReservationHolds | analysis/analyze_experiment.py:105-123 | the reservation part of that check, with its text splitting and joining |
| Placement.CheckIsSound | analysis/analyze_experiment.py:86-124 | a condition that passes the check really reserves: the shared CPUs are the available ones without the target exactly while CPUMAP is active, and every flow is on its share |
| Calibration.RoundRatioNearest | analysis/join_results.py:187-194 | the nearest integer, halves away from zero |
| Calibration.RoundRatioUnique | analysis/join_results.py:187-194 | those bounds determine the result |
| Calibration.LookupMeaning | analysis/join_results.py:135-171 | what every lookup answers, exact at points, rounded interpolant between neighbours, nothing or the clamped end outside |
| Calibration.LookupInterpolates | analysis/join_results.py:155-171 | between the bracketing offsets and within half a nanosecond of the straight line, given by the weights of its ends |
| Calibration.LookupMonotone | analysis/join_results.py:155-171 | monotone in time within a segment |
| Calibration.Unique | analysis/join_results.py:478-492 | the merging loop: strictly increasing, same elements, refused exactly on a conflict |
| Calibration.LoadFile | analysis/join_results.py:396-457 | one capture file: refused exactly for an inconsistent row or no selected sample; otherwise the selected midpoints and offsets |
| Calibration.SampleFits | analysis/join_results.py:415-445 | the numbers of an accepted row, and the point made of it, fit 64 bits |
| Calibration.SelectedMeans | analysis/join_results.py:436-455 | a point is used exactly if it is that of a row marked as selected |
| Calibration.MidpointBetween | analysis/join_results.py:440-449 | the midpoint lies between the two clock reads, at most one nanosecond off the middle, and the offset is the hardware clock's lead over it |
| Calibration.LoadCalibration | analysis/join_results.py:461-502 | the merged points, strictly increasing, or a failure exactly for no file, an unsound file or a conflict; with the duplicates counted |
| Calibration.FileOrderIrrelevant | analysis/join_results.py:461-502 | any order of the files gives the same points or the same failure |
| JoinRow.ResidualIsZero | analysis/join_results.py:815-886 | for every combination of sources the residual is zero whenever defined, defined exactly when all three segments are, and "mismatch" is unreachable |
| JoinRow.CompleteRowIsOrdered | analysis/join_results.py:600-886 | a complete row has all observation times in order and non-negative segments that sum to the total |
| JoinRow.ConvertedAtXdp | analysis/join_results.py:818-834 | a packet with an XDP time has its hardware time converted at that time |
| JoinRow.TrustedTimes | analysis/join_results.py:600-815 | for every combination of records, sound or not: which times are taken from which record, exactly when its values can be believed |
| JoinRow.ConsistentExactly | analysis/join_results.py:600-815 | when nothing is held against a packet, in terms of the values of its records |
| JoinRow.ConsistentDelays | analysis/join_results.py:815-886 | the delays of every such packet, complete or not, are differences of its recorded times, the hardware time converted at the XDP time or else at the user time |
| JoinRow.RowFromIngress | analysis/join_results.py:787-834 | a complete row with a stamped ingress record: d1, total, d2 and d3 from the recorded times, by path |
| JoinRow.RowWithUdpTime | analysis/join_results.py:787-834 | a complete row whose hardware time only the UDP receiver has |
| JoinRow.RowFromAfXdp | analysis/join_results.py:787-834 | a complete row known from the AF_XDP receiver alone |
| JoinRow.RowFromUdp | analysis/join_results.py:787-834 | a packet only the UDP receiver knows has a total, exactly when stamped and convertible, and no segments |
| JoinRow.CompleteExactly | analysis/join_results.py:815-886 | a row is complete if and only if nothing is held against it, all three segments are there and none is negative |
| EndToEnd.PassRow | analysis/join_results.py:600-886 | a stamped packet the classifier passed to the stack and the UDP receiver saw has a complete row with the differences of its true times |
| EndToEnd.CpumapRow | analysis/join_results.py:600-886 | the same of a packet measured on its way, with its queueing delay in the middle |
| EndToEnd.XskRow | analysis/join_results.py:600-886 | the same of a packet for the AF_XDP socket, with the metadata the classifier put in front of it |
| JoinRow.JoinAll | analysis/join_results.py:1345-1355 | every key any of the four sources knows, and no other, gets exactly one row, in key order, joined from what each source has under it |
| ClockValidation.ValidateClock | analysis/clock_validation.py:6-32 | the report counts, and the verdict is the stated condition |
| ClockValidation.ReportCovers | analysis/clock_validation.py:12-24 | every row is counted once and its times lie within the reported range |
| ClockValidation.ReportCounts | analysis/clock_validation.py:12-24 | every number of the report is the number of rows it names |
| ClockValidation.ReportRange | analysis/clock_validation.py:12-24 | the reported range runs exactly from the first to the last time of any row |
| ClockValidation.AcceptedExactly | analysis/clock_validation.py:25-32 | a capture is accepted if and only if something was received, no row is broken, lacks its total or has a negative delay where it matters, and calibration covers the capture without a gap over 500 ms |
| ClockValidation.AcceptedMeansOrdered | analysis/clock_validation.py:25-32 | in an accepted capture every received packet has ordered times, non-negative segments summing to its total, and an offset between calibration points at most 500 ms apart |
| Percentile.NearestRankIsRank | analysis/aggregate_runs.py:415-419 | nearest rank without reference to order: enough samples at or below, not enough below |
| Percentile.OrderIrrelevant | analysis/aggregate_runs.py:415-419 | permuting samples changes nothing |
| Percentile.StatisticsOrdered | analysis/aggregate_runs.py:422-438 | p50 <= p95 <= p99 <= max, and max is the maximum |
| Percentile.StatisticsMeaning | analysis/aggregate_runs.py:422-438 | which number stands in which field: count, negatives, misses, and p50, p95, p99 and max by their ranks |
| Percentile.PooledBetweenRuns | analysis/aggregate_runs.py:834-839 | the pooled percentile lies between the smallest and largest per-run percentile |
| Sorting.FlattenPermuted | analysis/aggregate_runs.py:834-838 | permuting the runs keeps the multiset of the pooled samples |
| Percentile.PooledOrderIrrelevant | analysis/aggregate_runs.py:796-863 | permuting the runs and the samples within every run changes no pooled statistic |
| Percentile.PooledCountsAdd | analysis/aggregate_runs.py:834-839 | pooled sample, negative and miss counts are the sums of the runs' |
| Percentile.RunLevelFacts | analysis/aggregate_runs.py:840-847 | only runs with samples miss, some run misses exactly if the pool does, and there are at least as many misses as missing runs |
| Percentile.CountAbove | analysis/aggregate_runs.py:426-430 | one pass counts misses (strictly above the deadline) and negatives |
| Percentile.Aggregate | analysis/aggregate_runs.py:796-872 | for every metric and any deadline or none: per-run statistics, pooled ones whose counts are the runs' together, and the numbers of runs with samples and with misses |
| CounterCrop.CroppedIsDifference | analysis/analyze_experiment.py:589-602 | the overlap-weighted total is the difference of the piecewise linear counter at the window's ends |
| CounterCrop.CroppedIsAdditive | analysis/analyze_experiment.py:589-602 | adjacent windows add up |
| CounterCrop.WholeRangeKeepsDelta | analysis/analyze_experiment.py:589-602 | a window between observations gets exactly their difference |
| CounterCrop.FullCoverageMeansBracketed | analysis/analyze_experiment.py:596-603 | full coverage exactly when the samples bracket the window |
| CounterCrop.CropNetwork | analysis/analyze_experiment.py:589-604 | the network loop computes those totals and that coverage |
| CounterCrop.CropCpu | analysis/analyze_experiment.py:503-524 | the CPU loop computes the totals, skips intervals without movement, and fails exactly when a counter went down inside the window |
| CounterCrop.CpuFullyCovered | analysis/analyze_experiment.py:503-524 | a CPU is fully covered exactly if its samples bracket the window and some counter moved in every interval of it |
| CounterCrop.SummarizeCpu | analysis/analyze_experiment.py:503-530 | with full coverage every percentage is that counter's share of the movement in the window, they sum to 100, and busy is what idle and iowait leave |
| Pacing.AddNs | udp_socket/src/sender.c:280-288 | exactly that many nanoseconds later, and normalised |
| Pacing.GuardIsExact | udp_socket/src/sender.c:490-495 | the guard passes exactly when the last deadline fits int64, and then all do |
| Pacing.Pace | udp_socket/src/sender.c:482-513 | the k-th deadline is base + k * period, normalised and in range |
| Pacing.FlowCountExact | experiment/run_config.c:129-130 | the last packet is due strictly inside the duration, one more would not be |
| Pacing.PacedWithinDuration | experiment/run_config.c:129-130 | the same for the absolute deadlines of a flow, for which the guard passes |

## Left out

Idealisations:

- Process death closes the process's sockets at once and changes nothing else.
- A HWTSTAMP query followed by a set is one step, except in the rollback above; a failed set leaves the device as it was.
- Every map operation, attach, detach and ioctl is atomic; map values other than the modelled fields of the runtime record do not change.
- A process is identified by pid and start time, so identities are never reused; one loader owns the maps at a time.
- The kernel moves a frame address from FILL to RX and does nothing else with addresses.
- Control frames are written and read whole. A frame cut short by a timeout and followed by a FAIL frame is not modelled.
- A configuration digest determines the configuration, and with the run index the run identifier.
- Signals reach the children from their supervisor only.
- Python floats in counter cropping are exact rationals; `math.ceil(p * n / 100)` is the exact integer ceiling.
- Timeouts, signals to a supervisor and child failures are one nondeterministic failure step; nothing is claimed about when they happen.

Not modelled, with what that leaves unsaid:

- Lifecycle: option handling, map validation, program identity and the recovery of a foreign XDP program; these only add refusals.
- LifecycleRecovery.CrashConsistent: speaks of runs without outside changes and with a driver that leaves the saved or requested configuration, and excludes recoveries that read the record early; the three exclusions have their own counterexamples.
- RunProtocol: calibration, state capture, load generation and placement checks between the messages are local steps without effect.
- RunBarrier: senders' flush and the monitor, clock-tracking and load children; they take no part in the barrier.
- Lifecycle.HaveLiveClaim: the scan on its own; the scan among other processes is the `Scan` of the transition system.
- LifecycleLiveness: a recovery whose claimants live, or in which an operation fails, need not finish.
- RunCleanup: the sweep over adopted descendants and the staging files of children.
- XdpAccounting: per-CPU spread of the counters (it is in DrainBarrier), counter wrap-around, and the effect of two CPUs running the classifier at once on one key beyond the map's own atomicity.
- FrameLedger: clearing the metadata in front of a processed packet, and the octets of frames between two packets.
- JoinRow: the raw columns copied through, the diagnostic lookups, and the single bits of the inconsistency word (only whether it is zero).
- Calibration.LoadFile: reading the CSV text; rows arrive as numbers.
- ClockValidation: reads rows as values, not as CSV text, and uses the calibration the join used.
- Percentile.Aggregate: means, miss rates and confidence intervals are floating-point statistics.
- CounterCrop: reading and checking the sample files, and rates derived from the totals.
- Placement: configurations are taken after parsing; the scheduler policies, load settings and JSON text of a condition are left out.
- CpuList.RunFormatCpus: the limit on CPU numbers is a parameter (the theorems hold for every limit up to 1024).
- The sender's lateness statistics, the receivers' timestamps, report rendering, manifests, file digests and the plan generator are not part of this model.
