# Mocha device HALs: a verified model

This project models the stateful and numerical core of the hardware abstraction layers in an Android device tree
(Xiaomi Mi Pad, "Mocha") in Dafny, and proves what that core promises. The model follows the code branch by branch:
classes where the code keeps mutable objects, methods with loops where it loops, state machines over single steps where
several threads meet. All theorems hold for every input, every run and every interleaving of the modelled steps.

| file | what it models |
|---|---|
| `SensorEventQueue.dfy`, `MultiHal.dfy`, `MultiHalProtocol.dfy` | the sensor multi-HAL: event ring, handle table, poll loop, and the writer/poller protocol over all interleavings |
| `PcmMmap.dfy`, `RingArithmetic.dfy` | tinyalsa's memory-mapped PCM ring: boundary, available space, begin/commit, playback transfer |
| `AudioRoute.dfy`, `AudioConfigParser.dfy` | the audio configuration manager: device use counts and on/off paths over any run, and the XML parse stack |
| `CondVar.dfy` | the condition variable over an atomic word and a futex, over all interleavings |
| `CameraRequest.dfy` | capture requests, flush, configure and close under one lock, with the in-flight tracker |
| `AutoExposure.dfy`, `AutoFocus.dfy`, `OrderStatistics.dfy` | frame timing, mains anti-banding and auto exposure; the contrast autofocus scan; medians |
| `CameraParameters.dfy`, `VendorTags.dfy`, `StringOrder.dfy` | parameter dictionaries and their text form; vendor tag descriptors and their parcel form |
| `ColorConv.dfy`, `Sobel.dfy` | vector pixel kernels against their scalar formulas, the vertical flip, the unrolled gradient sum |

## Where the code and its words differ, and what is proved about it

The model follows the code in each case.

- `poll` with a count of zero or less never returns: in every run after the call it takes nothing from any queue,
  whatever the writers do (`PollForNothingNeverReturns`). The no-lost-wakeup theorem is therefore about counts of at
  least one.
- Registering the same sensor twice gives two global handles for it; only the last leads back
  (`GlobalToLocalRoundTripIff` gives the exact condition).
- A PCM buffer of more than INT_MAX / 3 frames gets a boundary of one buffer, and then an empty ring reports no space
  (`ComputeBoundary`, `EmptyRingNeedsSecondBuffer`).
- The playback transfer returns early with frames unwritten exactly when the stream is stopped, the ring is full and
  the start threshold is larger than the ring (`Transfer`).
- Device use counts and switching are right for every run of some configurations and not of others; both are proved.
  - If device types share no low bit, every device declares `on` and `off`, there is at most one global device, types have
    one bit that the platform masks keep, and routes name only devices of their stream's direction, then after any run
    every count is the number of streams routed to the device, the global count is the number of open streams, and
    every device is switched on and off in turn and is on exactly while used (`EveryOneBitRunIsRight`). With types of
    several bits the same holds if the masks keep what a route names and each reroute is balanced
    (`EveryFitRunIsRight`), and in such configurations the counts are right throughout if and only if every reroute is
    paid (`TidyRunCountsExactly`).
  - For every configuration whatever: the counts are right throughout a run if and only if each operation pays, which is
    decided by the devices its walks reach, the paths they declare and the masks (`CountsAfterAnyRun`). The walk reaches a
    set of devices if and only if each of them, at its turn, is met by what the earlier ones left of the mask
    (`WalkReachesExactly`). Where the walks reach what they mean, paying is: the needed paths are declared, the masks keep
    the device, the route is balanced for it (`MeantRunCountsExactly`).
  - A type of several bits (SCO, A2DP, USB) is counted twice and left counted when a route takes a part of its bits
    (`TwoBitTypeLeaks`, a run from the start).
  - The shipped `audio/audio.mocha.xml` is not a tidy configuration. `headset` and `mic` share a low bit: an input stream
    opened, routed to `headset_in` and then to `mic` leaves the `headset` output counted without a user and the microphone
    used without being counted (`ShippedRunMissesMicrophone`). None of its devices declares `off`, and `headset_in`
    declares no `on` either. What holds without `off`: over any run the count never falls and `on` is applied at most
    once (`WithoutOff`); without `on`: it never rises and `on` is never applied (`WithoutOn`).
- The condition variable's comment speaks of UINT_MAX / 2 missed pulses. The counter is the upper 30 bits of the word,
  so a wakeup is lost exactly when the pulses missed are a positive multiple of 2^30 (`LostWakeupExactly`).
- `flush` and `close` say that they mark requests still in flight. Marking and draining are separate steps of the
  model, and the mark finds nothing in any interleaving, because no request can be in flight while they hold the lock:
  the branches for a flushed frame are never taken (`MarksNothing`, `TrackerEmptyWhenLockFree`).
- The exposure comment says that exposure never leaves the mains grid. Over any run of frames, correction passes and
  restarts the exposure is on the grid if and only if it was snapped since the last restart or the value carried over
  happens to be on it (`GridAfterAnyRun`). Restarting after the timing froze puts back the seed without snapping, and is
  on the grid if and only if the seed is a multiple of the step (`RestartAfterFreeze`, with the numbers of one such run
  in `RestartOffGrid`). A frame shorter than a mains half-period leaves the sensor's range (`ShortFramesLeaveRange`);
  the range holds exactly when one step fits (`SnapInRange`, `WantedInRange`).
- The exposure pass is meant to bring a scene towards its target. A pass that acts gives a dark scene no less light and a
  bright one no more, but for the rounding of the gain, if the exposure was on the mains grid (`PassMovesTowardsTarget`),
  and goes past the target by no more than a rounding unless the gain is at the end of its range
  (`PassDoesNotOvershoot`); there it can (`GridMayOvershoot`, `GridMayUndershoot`). From an exposure off the grid the snap
  can darken a scene that was too dark (`OffGridMayDarken`), by less than one step (`WantedOffGrid`).
- An inconclusive autofocus scan is said to leave the lens where it was; the lens stays at the last position swept
  (`StartAfScan`).
- The fine autofocus sweep means to pass over the position the coarse sweep measured already. It passes over the position
  that is the best so far, so the coarse best is measured a second time exactly when a position before it beat it
  (`FineSweepOrder`).
- In the insertion-ordered parameters a value that was set is not read back when the key was repeated in the text that
  was loaded (`SetThenGetExactly`, `DuplicateHidesSet`).
- A vendor tag listed twice, a nameless tag or a nameless section makes a descriptor that can be written and not read
  (`ReadWrittenExactly`). A descriptor that is read answers lookups as before if and only if, of tags that share section
  and name, the last listed is also the highest (`OpsRoundTripExactly`).
- White balance gains of 65536 and more are truncated in the vector lanes; the two paths agree exactly for gains below
  that or with a low half of at least 65152 (`GainPathsAgreeExactly`).

## Model

| member | source | states |
|---|---|---|
| `EventRing.SlotIsModulo` | sensors/SensorEventQueue.cpp:39-59 | the compare-and-subtract slot computation is the remainder modulo the capacity |
| `EventRing.RegionDisjointFromReadable` | sensors/SensorEventQueue.cpp:39-59 | a region handed to the writer contains no readable slot |
| `EventRing.MarkedAppendsRegion` | sensors/SensorEventQueue.cpp:61-63 | marking appends exactly the first slots of the region, in order |
| `EventRing.DequeuedPopsOldest` | sensors/SensorEventQueue.cpp:74-81 | dequeuing removes the oldest event and nothing else |
| `EventRing.DequeuedKeepsRegion` | sensors/SensorEventQueue.cpp:74-81 | a region handed out earlier stays valid when the reader dequeues |
| `EventRing.RegionWriteInvisible` | sensors/SensorEventQueue.cpp:39-63 | writing inside an unmarked region changes nothing the reader can see |
| `SensorEventQueueClass.SensorEventQueue.constructor` | sensors/SensorEventQueue.cpp:24-31 | a new queue is empty |
| `SensorEventQueueClass.SensorEventQueue.GetWritableRegion` | sensors/SensorEventQueue.cpp:39-59 | the region is free, contiguous, as long as request, space and array end allow, and empty exactly when the queue is full or nothing is asked for |
| `SensorEventQueueClass.SensorEventQueue.MarkAsWritten` | sensors/SensorEventQueue.cpp:61-63 | contents grow by the marked slots |
| `SensorEventQueueClass.SensorEventQueue.Peek` | sensors/SensorEventQueue.cpp:69-72 | the oldest event, or none exactly when empty |
| `SensorEventQueueClass.SensorEventQueue.Dequeue` | sensors/SensorEventQueue.cpp:74-81 | the oldest event leaves; the space signal is sent exactly when the queue was full |
| `SensorHandles.RegisterShape` | sensors/multihal.cpp:83-91 | after any registrations the global handles are 1..n in order and both maps agree |
| `SensorHandles.HandleLeadsToSensor` | sensors/multihal.cpp:94-116 | a global handle gives module and local handle of the sensor registered under it, any other number -1 for both |
| `SensorHandles.LocalToGlobalRoundTrip` | sensors/multihal.cpp:94-125 | the global handle of a registered sensor leads back to its module and local handle; unregistered ones give -1 |
| `SensorHandles.LastRegistrationWins` | sensors/multihal.cpp:83-91 | a sensor registered several times answers to its last global handle |
| `SensorHandles.GlobalToLocalRoundTripIff` | sensors/multihal.cpp:83-125 | every global handle is the handle of its sensor if and only if no sensor was registered twice |
| `SensorHandles.HandleTable.constructor` | sensors/multihal.cpp:83-91 | an empty table |
| `SensorHandles.HandleTable.AssignGlobalHandle` | sensors/multihal.cpp:83-91 | the next handle, recorded in both maps |
| `MultiHalPoll.PassedSnoc` | sensors/multihal.cpp:290-352 | one more event taken adds its remapped form, or nothing if its handle becomes -1 |
| `MultiHalPoll.VisitKeepsTrail` | sensors/multihal.cpp:320-338 | the count of empties says that this many queues visited last are empty |
| `MultiHalPoll.FullTrailMeansAllEmpty` | sensors/multihal.cpp:320-338 | a full count means that all queues are empty |
| `MultiHalPoll.Drain` | sensors/multihal.cpp:320-338 | the inner loop ends with enough events or all queues empty |
| `MultiHalPollLoop.PollContext.PeekAt` | sensors/multihal.cpp:322-323 | looks at the queue whose turn it is |
| `MultiHalPollLoop.PollContext.DequeueAt` | sensors/multihal.cpp:327-335 | dequeues from one queue, the others unchanged |
| `MultiHalPollLoop.PollContext.ReadHead` | sensors/multihal.cpp:327-335 | the head event is remapped, kept unless its handle is -1, and removed |
| `MultiHalPollLoop.PollContext.VisitNext` | sensors/multihal.cpp:320-338 | one turn of the round robin over the real queues is one step of the specification |
| `MultiHalPollLoop.PollContext.DrainQueues` | sensors/multihal.cpp:320-338 | the loop over the real queues computes the specified drain, and terminates |
| `MultiHalProtocol.StepKeepsInv` | sensors/multihal.cpp:134-352 | every step of a writer or the poller keeps the protocol invariant |
| `MultiHalProtocol.RunKeepsInv` | sensors/multihal.cpp:134-352 | so does every interleaving of them |
| `MultiHalProtocol.DrainIsRunOfVisits` | sensors/multihal.cpp:320-338 | the drain of the sequential loop is a run of the protocol |
| `MultiHalProtocol.RegionsStayPrivate` | sensors/multihal.cpp:134-171 | in every interleaving a region in the hands of a writer is disjoint from readable slots and holds what was written |
| `MultiHalProtocol.DeliveryIsExactPrefix` | sensors/multihal.cpp:134-352 | in every interleaving what poll returned from a queue is, in order and exactly once, a prefix of what its writer marked, remapped and filtered |
| `MultiHalProtocol.DeliveryIsPrefixOfReports` | sensors/multihal.cpp:134-352 | in every interleaving what the writer of a queue marked or holds is what its sub-HAL reported, read off the list of steps alone; what poll returned from the queue is, in order and exactly once, a prefix of these reports, remapped and filtered |
| `MultiHalProtocol.RunIsTold` | sensors/multihal.cpp:134-352 | the list of steps alone tells, after any run, the marks, the free slots of the ring and what the sub-HAL stored in them |
| `MultiHalProtocol.WriterGetsAllRoom` | sensors/multihal.cpp:134-171 | in every interleaving a writer gets a free region that reaches to the end of the free space or of the array, and sleeps exactly when its queue is full |
| `MultiHalProtocol.WriterStartsOver` | sensors/multihal.cpp:134-171 | after a failed poll, a mark or a wakeup a writer holds no region and asks for a new one |
| `MultiHalProtocol.NoLostWakeup` | sensors/multihal.cpp:134-352 | a sleeping poller means all queues are empty, a sleeping writer that its queue is full, so never both |
| `MultiHalProtocol.RegionsAlwaysFit` | sensors/multihal.cpp:146-171 | in every interleaving the region of a writer and the batch it is about to mark fit in the queue, so that the unconditional marking of the code is always enabled |
| `MultiHalProtocol.NothingComesOfIt` | sensors/multihal.cpp:312-352 | no run of steps lets a poll for nothing take or return an event |
| `MultiHalProtocol.PollForNothingNeverReturns` | sensors/multihal.cpp:312-352 | after a call for a count of zero or less, in every run, the poller is not idle and nothing was taken, passed or returned; waiting is the only thing it can do |
| `MultiHalProtocol.PassedHandlesLeadBack` | sensors/multihal.cpp:290-310 | a delivered event is one the queue held with its own or its inner handle rewritten to one that leads back to queue and local handle; only a meta-data event about an unregistered sensor is delivered with -1 |
| `MultiHalProtocol.DroppedExactly` | sensors/multihal.cpp:290-310 | an event is dropped exactly when its sensor is unregistered, or a meta event carries -1 |
| `PcmMmap.ComputeBoundary` | tinyalsa/src/pcm.c:433-436 | the loop ends with the largest doubling that fits; at least two buffers exactly for sizes up to INT_MAX / 3 |
| `PcmMmap.BoundaryIsGood` | tinyalsa/src/pcm.c:433-436 | such a boundary meets what the pointer arithmetic needs |
| `PcmMmap.PlaybackAvailExact` | tinyalsa/src/pcm.c:1231-1243 | the playback formula is size minus fill if and only if that is at least zero and less than a boundary, also when the application pointer rests on the boundary |
| `PcmMmap.PlaybackAvailRange` | tinyalsa/src/pcm.c:1231-1243 | whatever the pointers, the amount is at least zero and less than a boundary |
| `PcmMmap.CaptureAvailExact` | tinyalsa/src/pcm.c:1245-1251 | the capture formula is the fill if and only if that is at least zero and less than a boundary |
| `PcmMmap.EmptyRingNeedsSecondBuffer` | tinyalsa/src/pcm.c:1231-1243 | an empty ring reports its size if and only if the boundary is more than one buffer |
| `PcmMmap.ApplForwardRepresents` | tinyalsa/src/pcm.c:1262-1271 | advancing the wrapped pointer advances the position it stands for |
| `PcmMmap.OffsetOfRepresented` | tinyalsa/src/pcm.c:1273-1298 | the ring offset of the pointer is that of the position |
| `PcmMmap.StoreAppends` | tinyalsa/src/pcm.c:571-613 | a chunk stored at the offset extends the queued stream and damages no frame still to be played |
| `PcmMmap.PlayedIsStream` | tinyalsa/src/pcm.c:591-613 | what the hardware reads next from the ring is the next part of the stream |
| `PcmPlayback.Pcm.constructor` | tinyalsa/src/pcm.c:433-436 | an empty ring with all space free |
| `PcmPlayback.Pcm.SyncPtr` | tinyalsa/src/pcm.c:1253-1260 | the hardware moves forward only while running, and what it passes is the stream unless it ran out, which is recorded exactly when it passes the end |
| `PcmPlayback.Pcm.Avail` | tinyalsa/src/pcm.c:1253-1260 | the number returned is the free space |
| `PcmPlayback.Pcm.Begin` | tinyalsa/src/pcm.c:1273-1298 | offset and length of the next contiguous free part |
| `PcmPlayback.Pcm.AreasCopy` | tinyalsa/src/pcm.c:571-589 | the loop stores the frames there and nothing else |
| `PcmPlayback.Pcm.Commit` | tinyalsa/src/pcm.c:1300-1316 | the stream grows by the stored chunk |
| `PcmPlayback.Pcm.TransferChunk` | tinyalsa/src/pcm.c:591-613 | one turn moves at least one frame |
| `PcmPlayback.Pcm.TransferAreas` | tinyalsa/src/pcm.c:591-613 | with enough space the loop ends and has appended exactly the requested frames, across any wraps |
| `PcmPlayback.Pcm.Start` | tinyalsa/src/pcm.c:1200-1214 | the stream runs after a successful start |
| `PcmPlayback.Pcm.StartIfDue` | tinyalsa/src/pcm.c:1401-1411 | start is tried, and can only fail, when the stream is stopped and the unsigned number of queued frames reaches the threshold; below it nothing changes |
| `PcmPlayback.Pcm.WaitForRoom` | tinyalsa/src/pcm.c:1413-1434 | only a blocking stream sleeps or fails in the wait; a stream that is not to wait gives up the turn |
| `PcmPlayback.Pcm.TransferTurn` | tinyalsa/src/pcm.c:1382-1458 | one turn of the outer loop with room for a frame writes at least what is left or what was free, or fails to start; it waits only while running with no room, and ends early only when stopped, full and below the threshold |
| `PcmPlayback.Pcm.Transfer` | tinyalsa/src/pcm.c:1382-1458 | any transfer appends a prefix of the source; it is short with success exactly when stopped, full and below the threshold |
| `RouteBits.DifferenceMarks` | configmgr/audio_config.c:607-608 | what a reroute switches off was on and what it switches on is wanted, with the exact converse for types on one side only |
| `RouteBits.SingleBitMarks` | configmgr/audio_config.c:607-608 | for a one-bit type the two differences are exactly leaving and entering |
| `RouteBits.NamesOwnDirection` | configmgr/audio_config.c:612-632 | a route of the direction of the stream names exactly the devices of that direction it shares a bit with |
| `RouteBits.MaskedRouteNames` | configmgr/audio_config.c:613-630 | masking a route by the platform set names no new device and keeps the direction |
| `RouteBits.HitIsHas` | configmgr/audio_config.c:552-575 | the first comparison of the walk is: a common low bit, and an input type if the mask is one for input |
| `DeviceWalk.ReachedIsFair` | configmgr/audio_config.c:552-575 | a device is reached exactly when what the earlier reached ones left of the mask meets its type |
| `DeviceWalk.FairIsUnique` | configmgr/audio_config.c:552-575 | only one set of devices has that property |
| `DeviceWalk.WalkReachesExactly` | configmgr/audio_config.c:552-575 | for any device table and any mask, the walk reaches a set of devices if and only if the set has that property |
| `DeviceWalk.ApartWalkIsExact` | configmgr/audio_config.c:552-575 | with types that share no low bit the walk reaches exactly the devices the mask means |
| `AudioRoute.WalkIsEach` | configmgr/audio_config.c:552-575 | the walk that clears bits as it goes is: apply the paths to each reached device once, in order |
| `AudioRoute.ApplyPathsDoes` | configmgr/audio_config.c:517-550 | one device gets its declared on and off switches in order, with count and log in step; others stay |
| `AudioRoute.DevicesDoes` | configmgr/audio_config.c:552-575 | a mask of devices switches exactly the reached ones |
| `AudioRoute.GlobalDoes` | configmgr/audio_config.c:577-592 | only the first global device is switched |
| `AudioRoute.OpDoes` | configmgr/audio_config.c:601-829 | for every configuration, state and device: opening, rerouting or releasing switches the device by exactly the specified list |
| `AudioRoute.UsersUpdate` | configmgr/audio_config.c:601-640 | changing the route of one stream moves the number of users of a device by what the two routes name |
| `AudioRoute.ApplyKeepsStreamsOk` | configmgr/audio_config.c:601-829 | every operation leaves streams with routes of their direction, and none when closed |
| `AudioRoute.ExpectedMoves` | configmgr/audio_config.c:601-829 | every operation moves the number of users of a device by the specified amount |
| `AudioRoute.PaysExactly` | configmgr/audio_config.c:487-829 | for every configuration the switches asked of a device sum to the move of its users if and only if the operation pays: by reached devices, declared paths and masks |
| `AudioRoute.StepCountsExactly` | configmgr/audio_config.c:601-829 | a right count is right after one operation if and only if the operation pays |
| `AudioRoute.CountsAfterAnyRun` | configmgr/audio_config.c:487-829 | for any configuration and any run: the count of a device was right throughout if and only if each operation paid; then it is the number of streams routed to it, for the global device the number of open streams; a closed stream has no routes |
| `AudioRoute.TurnsInStep` | configmgr/audio_config.c:492-512 | on and off keep alternating from on, with the count, if and only if no off comes at count zero |
| `AudioRoute.StepSwitchesExactly` | configmgr/audio_config.c:492-512 | so for one operation |
| `AudioRoute.SwitchingAfterAnyRun` | configmgr/audio_config.c:492-512 | for any run: switching alternated throughout if and only if no off came at count zero, which with right counts is: each off was asked of a device in use; then the device is on exactly while somebody uses it |
| `AudioRoute.PaidExactly` | configmgr/audio_config.c:601-640 | the change of the count is the change of the users if and only if what left and what entered was paid |
| `AudioRoute.RouteCountsExactly` | configmgr/audio_config.c:601-640 | a reroute keeps the count right if and only if it pays, for any walks and paths; where its walks reach what they mean that is: the needed paths are declared, the masks keep the device, and the route is balanced for it |
| `AudioRoute.SettlesExactly` | configmgr/audio_config.c:487-829 | where the walks mean a device, paying is: a paid reroute, off declared by a used device on the last release, the first global device with its path on the first open and the last release |
| `AudioRoute.MeantOffIsUsed` | configmgr/audio_config.c:601-829 | where the walks mean a device, off is asked of it only while it is used |
| `AudioRoute.MeantRunCountsExactly` | configmgr/audio_config.c:487-829 | over any run whose walks mean a device its count is right throughout if and only if every operation settles; then its switching is right too |
| `AudioRoute.SingleBitIsBalanced` | configmgr/audio_config.c:601-640 | for a one-bit device type every reroute is balanced |
| `AudioRoute.DeclaredRouteIsBalanced` | configmgr/audio_config.c:601-640 | with on and off declared and the masks keeping the device, paid means balanced |
| `AudioRoute.ApartWalksMean` | configmgr/audio_config.c:552-640 | types without common low bits and of the direction of the stream make both walks reach what they mean |
| `AudioRoute.TidyStep` | configmgr/audio_config.c:487-829 | in a tidy configuration an open, a release or a fitting reroute keeps count and switching of every device right |
| `AudioRoute.EveryFitRunIsRight` | configmgr/audio_config.c:487-829 | in a tidy configuration, after any run of opens, releases and fitting reroutes, every count is the number of users and every device was switched on and off in turn and is on exactly while used |
| `AudioRoute.OneBitFits` | configmgr/audio_config.c:601-640 | with one-bit types that the masks keep every route that names only devices of its direction fits |
| `AudioRoute.EveryOneBitRunIsRight` | configmgr/audio_config.c:487-829 | with one-bit types the same from conditions on the configuration and the masks asked for alone |
| `AudioRoute.TidyRunCountsExactly` | configmgr/audio_config.c:487-829 | in a tidy configuration of any types the count is right throughout if and only if every reroute is paid |
| `AudioRoute.WithoutOff` | configmgr/audio_config.c:487-515 | over any run a device without off never loses count and is switched on at most once |
| `AudioRoute.WithoutOn` | configmgr/audio_config.c:487-515 | over any run a device without on never gains count and is never switched on |
| `AudioRoute.TwoBitTypeLeaks` | configmgr/audio_config.c:552-829 | a run from the start: open, route to one bit, then to both; a two-bit device type is counted twice by one stream and stays counted, never switched off, after its release |
| `AudioRoute.ShippedMicrophoneIsMissed` | audio/audio.mocha.xml:157-214 | in the shipped table, moving an input from headset_in to mic reaches the headset output and not the microphone |
| `AudioRoute.OwnPathsApplied` | configmgr/audio_config.c:517-640 | for every configuration, state and operation: a stream path of its own is applied once, disabling before enabling, to each device that declares it and is reached by the leaving or the entering part of the route, the global device on first open and last release; to no other device |
| `AudioRoute.ShippedRunMissesMicrophone` | audio/audio.mocha.xml:157-214 | as a run from the start: the headset output ends counted without a user, the microphone used without being counted |
| `AudioConfigManager.ConfigMgr.ApplyDevicePathL` | configmgr/audio_config.c:487-515 | count and path of one device |
| `AudioConfigManager.ConfigMgr.FindPaths` | configmgr/audio_config.c:517-550 | the loop finds both paths where declared |
| `AudioConfigManager.ConfigMgr.ApplyPathsByIdL` | configmgr/audio_config.c:517-550 | both paths of one device, in order |
| `AudioConfigManager.ConfigMgr.ApplyPathsToDevicesL` | configmgr/audio_config.c:552-575 | the loop over devices computes the specified walk |
| `AudioConfigManager.ConfigMgr.ApplyPathsToGlobalL` | configmgr/audio_config.c:577-592 | the loop over devices reaches the global device |
| `AudioConfigManager.ConfigMgr.ApplyRoute` | configmgr/audio_config.c:601-640 | the specified rerouting, switching every device by the specified list |
| `AudioConfigManager.ConfigMgr.OpenStreamL` | configmgr/audio_config.c:718-730 | opens unless the stream is at its limit |
| `AudioConfigManager.ConfigMgr.GetStream` | configmgr/audio_config.c:732-771 | the last openable stream of the kind is opened, or nothing changes |
| `AudioConfigManager.ConfigMgr.ReleaseStreamL` | configmgr/audio_config.c:812-829 | the specified release |
| `AudioConfigParser.SubEntryOk` | configmgr/audio_config.c:913-1047 | every element allowed below an entry at depth k leads to an entry allowed at depth k+1, and none below depth 5 |
| `AudioConfigParser.MixerEntriesOk` | configmgr/audio_config.c:2106-2130 | opening the mixer at depth 1 allows the elements that need it |
| `ElementTable.TableIsParents` | configmgr/audio_config.c:913-1047 | an element is allowed below another if and only if the table of parents of each element says so |
| `AudioConfigParser.ParseState.constructor` | configmgr/audio_config.c:2260-2289 | an empty parse stack |
| `AudioConfigParser.ParseState.BeginFile` | configmgr/audio_config.c:2260-2289 | the root entry of a new file |
| `AudioConfigParser.ParseState.FindElem` | configmgr/audio_config.c:2195-2240 | the first allowed element of the name, or none exists |
| `AudioConfigParser.ParseState.Push` | configmgr/audio_config.c:2195-2240 | the index stays below the guard by the table alone |
| `AudioConfigParser.ParseState.Handle` | configmgr/audio_config.c:2195-2240 | the verdict of the attributes and the handler |
| `AudioConfigParser.ParseState.Accept` | configmgr/audio_config.c:2195-2240 | a matched element is pushed and handled |
| `AudioConfigParser.ParseState.SectionStart` | configmgr/audio_config.c:2195-2240 | matched, rejected or skipped after an error, with the exact conditions |
| `AudioConfigParser.ParseState.MixerStart` | configmgr/audio_config.c:2106-2130 | an opened mixer widens the enclosing entry; a failed one is an error |
| `AudioConfigParser.ParseState.SectionEnd` | configmgr/audio_config.c:2242-2258 | pops one entry and takes the result of the end handler, if the element has one; nothing while an error is pending |
| `AudioConfigParser.ParseState.ParseFile` | configmgr/audio_config.c:2260-2289 | for every well-nested file the index stays within the stack and no device, stream or control handler runs before the mixer is open |
| `CondVar.WordKeepsFlags` | libmocha/bionic/pthread_cond.cpp:26-30 | adding to the counter leaves the flag bits |
| `CondVar.WordRepeats` | libmocha/bionic/pthread_cond.cpp:125-140 | the word repeats exactly after multiples of 2^30 pulses |
| `CondVar.WordSucc` | libmocha/bionic/pthread_cond.cpp:125-140 | one atomic add is one pulse |
| `CondVar.StepKeepsInv` | libmocha/bionic/pthread_cond.cpp:125-154 | every step of a waiter or a waker keeps the invariant |
| `CondVar.RunKeepsInv` | libmocha/bionic/pthread_cond.cpp:125-154 | so does every interleaving |
| `CondVar.FlagsNeverChange` | libmocha/bionic/pthread_cond.cpp:26-30 | in every run the flag bits are those of initialisation |
| `CondVar.SleepsExactlyWhen` | libmocha/bionic/pthread_cond.cpp:142-154 | a waiter goes to sleep if and only if the pulses since its snapshot are a multiple of 2^30 |
| `CondVar.RefinesCounting` | libmocha/bionic/pthread_cond.cpp:125-177 | for every run the state is what the list of steps tells: the number of pulses, the wakes still due in order and of which kind, and of each thread the step of its wait and the pulses it missed |
| `CondVar.BroadcastWakesAll` | libmocha/bionic/pthread_cond.cpp:125-140 | after the wake of a broadcast no thread is asleep, and nothing but the sleepers changed |
| `CondVar.BroadcastLeavesNobody` | libmocha/bionic/pthread_cond.cpp:171-173 | after any run whose steps hold a broadcast and its wake since the snapshot of a waiter, the waiter is asleep only if the pulses between its snapshot and its check were a positive multiple of 2^30 |
| `CondVar.SignalReleasesOne` | libmocha/bionic/pthread_cond.cpp:175-177 | a signal lets a sleeper go, or the waiter not yet asleep will not sleep unless it missed a multiple of 2^30 |
| `CondVar.LostWakeupExactly` | libmocha/bionic/pthread_cond.cpp:142-154 | from any state, n pulses between snapshot and check lose the wakeup if and only if n is a multiple of 2^30 |
| `InFlight.InFlightTracker.constructor` | camera/InFlightTracker.h:23 | no frames |
| `InFlight.InFlightTracker.MarkAllAsError` | camera/InFlightTracker.h:39-44 | all tracked frames are marked |
| `InFlight.InFlightTracker.DrainAll` | camera/InFlightTracker.h:58-66 | every tracked frame once, ascending, and the tracker is empty; for 32-bit frames that is the list the protocol drains |
| `CameraRequest.BeginKeepsInv` | camera/MochaCameraHAL.cpp:1373-1417 | the checks at the start of a request keep the invariant |
| `CameraRequest.FinishedPays` | camera/MochaCameraHAL.cpp:1708-1795 | the end of a request sends what its status owes |
| `CameraRequest.FinishKeepsInv` | camera/MochaCameraHAL.cpp:1708-1795 | so does its end |
| `CameraRequest.ConfigureKeepsInv` | camera/MochaCameraHAL.cpp:847-1048 | configuring keeps it and sends no result |
| `CameraRequest.StepKeepsInv` | camera/MochaCameraHAL.cpp:786-1846 | every step of any call keeps it |
| `CameraRequest.RunKeepsInv` | camera/MochaCameraHAL.cpp:786-1846 | and every interleaving |
| `CameraRequest.MarksNothing` | camera/MochaCameraHAL.cpp:1835-1842 | the mark of flush or close finds an empty tracker |
| `CameraRequest.TrackerEmptyWhenLockFree` | camera/MochaCameraHAL.cpp:1813-1846 | in every interleaving the tracker holds exactly the frame of the request that has the lock, and nothing when no request has it; no frame is ever marked, also not by the mark steps of flush and close; configure drains nothing |
| `CameraRequest.TraceIsDeliveries` | camera/MochaCameraHAL.cpp:1708-1795 | the framework sees exactly, in lock order, one notification and one result of min(n, 16) buffers per request that returned 0, SHUTTER and OK if a capture step of the request succeeded, ERROR otherwise, and nothing for the others; which requests ended how is read off the list of steps alone |
| `CameraRequest.CallsEndAsTold` | camera/MochaCameraHAL.cpp:1373-1795 | in every interleaving each request ends with the status and the capture mark that the list of steps tells: captured if and only if one of its own capture steps delivered a frame; who has the lock, and how far that call has come, is read off the steps too, so each call gives the lock back with the step that ends it |
| `CameraRequest.DeletedIsDead` | camera/MochaCameraHAL.cpp:786-829 | once close has deleted the camera no step of a request, flush or configure is enabled |
| `CameraRequest.ResultsAreSuccesses` | camera/MochaCameraHAL.cpp:1708-1795 | counting results is counting successes |
| `CameraRequest.OneResultPerSuccess` | camera/MochaCameraHAL.cpp:1373-1795 | each frame gets as many results as requests for it end with 0 by the list of steps |
| `CameraRequest.ClosingCameraIsSilent` | camera/MochaCameraHAL.cpp:786-829 | after close raised its flag and no request is past its second check, nothing more is sent |
| `OrderStatistics.RankIsUnique` | camera/CameraPipeline.cpp:788-797 | the element of a rank is one value, however it is found |
| `OrderStatistics.SortedRank` | camera/CameraPipeline.cpp:788-797 | position k of a sorted list has rank k |
| `OrderStatistics.SwapKeepsElements` | camera/CameraPipeline.cpp:792-795 | an adjacent swap keeps all counts |
| `OrderStatistics.InsertLast` | camera/CameraPipeline.cpp:790-796 | bubbling the last element down sorts and keeps the elements |
| `OrderStatistics.RankExists` | camera/CameraPipeline.cpp:788-797 | a list has an element of every rank |
| `OrderStatistics.Median` | camera/CameraPipeline.cpp:788-797 | the insertion sort finds the element of the middle rank, the median |
| `MainsGrid.StepAtLeastMinimum` | camera/CameraPipeline.cpp:785-803 | the 200 ms filter makes a mains step at least the shortest exposure, for both sensors and both mains |
| `MainsGrid.SnapsAgree` | camera/CameraPipeline.cpp:805-807 | the snap at freezing and the snap in the loop are one function |
| `MainsGrid.StepIsHalfPeriod` | camera/CameraPipeline.cpp:799-804 | the step is a whole number of lines, at least one, within half a line of the mains half-period |
| `MainsGrid.MultipleOnGrid` | camera/CameraPipeline.cpp:805-807 | a number of whole steps is on the grid |
| `MainsGrid.SnapInRange` | camera/CameraPipeline.cpp:805-807 | the snapped exposure is on the grid, at least one step, and in range if and only if one step is |
| `MainsGrid.SnapIsNearest` | camera/CameraPipeline.cpp:614-618 | no grid point in range is nearer |
| `AutoExposure.Ratio` | camera/CameraPipeline.cpp:582-586 | the correction is damped to [0.6, 1.7] |
| `AutoExposure.RatioMeetsTarget` | camera/CameraPipeline.cpp:582-586 | the correction times the brightness seen is the target, unless the damping bites, and then it is the bound on that side |
| `AutoExposure.RatioSide` | camera/CameraPipeline.cpp:582-586 | it asks for more light below the target and for less above, and never for more of a change than the target needs |
| `AutoExposure.CapsAreDamping` | camera/CameraPipeline.cpp:622-625 | the two caps on the gain are the damping by 1.7 and nothing else |
| `AutoExposure.EffectiveBounds` | camera/CameraPipeline.cpp:595 | the wanted product is within the damping of the present one |
| `AutoExposure.GainAtLongEnd` | camera/CameraPipeline.cpp:598-600 | at the longest exposure the gain grows by at most 1.7 |
| `AutoExposure.GainAtShortEnd` | camera/CameraPipeline.cpp:601-604 | at the shortest it shrinks to no less than 10/17 |
| `AutoExposure.SplitInRange` | camera/CameraPipeline.cpp:595-606 | exposure and gain in range, the gain damped |
| `AutoExposure.SplitTracksTarget` | camera/CameraPipeline.cpp:595-606 | while no gain limit bites, exposure times gain meets the wanted brightness to within one unit |
| `AutoExposure.AbsorbInRange` | camera/CameraPipeline.cpp:619-629 | the absorbing gain is in range and damped |
| `AutoExposure.AbsorbTracksTarget` | camera/CameraPipeline.cpp:619-629 | after a snap the gain restores the brightness to within half a unit while no cap bites |
| `AutoExposure.AbsorbIsNearest` | camera/CameraPipeline.cpp:619-629 | no gain in range and within the damping is nearer to the one that restores the brightness |
| `AutoExposure.SplitRises` | camera/CameraPipeline.cpp:595-606 | asked for more light, exposure and gain give no less than before and no more than asked |
| `AutoExposure.SplitFalls` | camera/CameraPipeline.cpp:595-606 | asked for less, they give no more than before and fall short of what is asked by less than one unit of either |
| `AutoExposure.WantedRises` | camera/CameraPipeline.cpp:591-630 | from an exposure on its grid a correction upwards never takes light away |
| `AutoExposure.WantedFalls` | camera/CameraPipeline.cpp:591-630 | and one downwards adds none but for the rounding of the gain |
| `AutoExposure.WantedOffGrid` | camera/CameraPipeline.cpp:591-630 | off the grid the same to within one step and half a unit of gain |
| `AutoExposure.OffGridMayDarken` | camera/CameraPipeline.cpp:613-618 | one such case: asked for a fifth more light the snap gives less |
| `AutoExposure.SnapLowersLess` | camera/CameraPipeline.cpp:614-618 | from a grid point a snap that lowers the exposure lowers it by less than half a step |
| `AutoExposure.AdjustedRisesClose` | camera/CameraPipeline.cpp:595-629 | on the grid, asked for more light, the caps on the gain never bite and no more is given than asked for plus half a unit of gain, unless the gain is at its least |
| `AutoExposure.AdjustedFallsClose` | camera/CameraPipeline.cpp:595-629 | asked for less, no less is given than asked for minus one unit, unless the gain is at its greatest |
| `AutoExposure.WantedStopsShort` | camera/CameraPipeline.cpp:591-630 | so the light asked for is not passed by, but for these roundings |
| `AutoExposure.WantedDoesNotOvershoot` | camera/CameraPipeline.cpp:582-630 | and a dark scene is not made brighter than the target nor a bright one darker, but for the same |
| `AutoExposure.GridMayOvershoot` | camera/CameraPipeline.cpp:613-629 | at the least gain a snap upwards gives a third more than asked for |
| `AutoExposure.GridMayUndershoot` | camera/CameraPipeline.cpp:613-629 | at the greatest gain a snap downwards gives less than asked for |
| `AutoExposure.WantedWhenStepTooLong` | camera/CameraPipeline.cpp:613-630 | a step that does not fit is asked for whatever the scene |
| `AutoExposure.WantedInRange` | camera/CameraPipeline.cpp:591-630 | from any setting in range, whatever the scene: gain in range and between old*10/17 and old+old*7/10, exposure on the grid, and in range if and only if one step fits |
| `ExposureRuns.FrozenKeepsInv` | camera/CameraPipeline.cpp:787-813 | freezing the timing keeps range and grid; after an accepted snap the exposure is in range if and only if one step fits |
| `ExposureRuns.FrameKeepsInv` | camera/CameraPipeline.cpp:780-818 | every frame keeps them, also when the driver refuses |
| `ExposureRuns.WantedOnGrid` | camera/CameraPipeline.cpp:591-630 | the correction asked for is damped, in range if and only if one step fits, and on the grid |
| `ExposureRuns.PassKeepsInv` | camera/CameraPipeline.cpp:545-639 | every correction pass keeps them, also when the driver refuses, and the gain moves within the damping |
| `ExposureRuns.PassActsExactly` | camera/CameraPipeline.cpp:545-639 | a pass changes the setting only outside the deadband and when not holding or fourfold off; then each of exposure and gain is the wanted one unless refused, and the hold is six passes |
| `ExposureRuns.PassMovesTowardsTarget` | camera/CameraPipeline.cpp:545-639 | a pass that acts and is obeyed, on its grid, gives a dark scene no less light and a bright one no more but for the rounding of the gain |
| `ExposureRuns.PassDoesNotOvershoot` | camera/CameraPipeline.cpp:545-639 | the light after a pass on its grid, or without one, is still on the same side of the target, but for the rounding, unless the gain is at the end of its range |
| `ExposureRuns.HoldsSixPasses` | camera/CameraPipeline.cpp:573-580 | while holding, passes that are not fourfold off leave the setting alone and count the hold down |
| `ExposureRuns.RestartKeepsInv` | camera/CameraPipeline.cpp:502-518 | so does a restart of the stream |
| `ExposureRuns.GridAfterAnyRun` | camera/CameraPipeline.cpp:502-818 | over any run of frames, passes and restarts the setting is in range while a step fits, a snapped exposure is on the grid, and the exposure is on the grid if and only if it was snapped since the restart or the carried value is |
| `ExposureRuns.SteadyFrames` | camera/CameraPipeline.cpp:780-818 | n frames of a steady period fill n deltas |
| `ExposureRuns.RestartAfterFreeze` | camera/CameraPipeline.cpp:502-518 | for every sensor, mains and period: twelve steady frames freeze and snap; a restart then has the seed, on the grid if and only if the seed is a multiple of the step |
| `ExposureRuns.RestartOffGrid` | camera/CameraPipeline.cpp:502-518 | one such run that ends off the grid |
| `ExposureRuns.ShortFramesLeaveRange` | camera/CameraPipeline.cpp:805-807 | a short frame period puts the snapped exposure out of range |
| `ExposureRuns.MedianIsPlausible` | camera/CameraPipeline.cpp:788-799 | the median of plausible deltas is plausible |
| `AutoExposureLoop.ExposureControl.constructor` | camera/CameraPipeline.cpp:311-340 | a control whose first start of streaming gives the initial state of all runs |
| `AutoExposureLoop.ExposureControl.StartStreaming` | camera/CameraPipeline.cpp:502-518 | is the restart of the runs, and leaves the invariant |
| `AutoExposureLoop.ExposureControl.Freeze` | camera/CameraPipeline.cpp:787-813 | the sorting and snapping code is the freeze of the runs, with the median of the twelve deltas |
| `AutoExposureLoop.ExposureControl.RecordFrame` | camera/CameraPipeline.cpp:780-818 | is the frame event of the runs: only plausible deltas count, the timing is frozen once |
| `AutoExposureLoop.ExposureControl.Correct` | camera/CameraPipeline.cpp:591-637 | writes gain and exposure, each kept as it was when the driver refuses |
| `AutoExposureLoop.ExposureControl.Follow` | camera/CameraPipeline.cpp:545-639 | nothing in the deadband, nothing while holding unless the change is fourfold, else the correction |
| `AutoExposureLoop.ExposureControl.DoAutoExposure` | camera/CameraPipeline.cpp:545-639 | is the pass of the runs; the gain moves within the damping and the invariant is kept |
| `FocusScan.VisitKeepsScanOk` | camera/CameraPipeline.cpp:1153-1170 | one measurement keeps: commands in range, best is the first of the greatest |
| `FocusScan.VisitIsTold` | camera/CameraPipeline.cpp:1153-1170 | the samples are exactly the commands whose measured energy was positive, in order, and the failures counted are those since the last of them |
| `FocusScan.BestWasVisited` | camera/CameraPipeline.cpp:1180 | the position passed over was measured, or is the default |
| `FocusScan.FineSweepOrder` | camera/CameraPipeline.cpp:1173-1198 | the positions of the fine sweep ascend within 50 of the coarse best; unless four failures stop it, it measures the coarse best again if and only if a position in front of it beat it |
| `FocusScan.FineSweepCovers` | camera/CameraPipeline.cpp:1173-1198 | unless four failures stop it every position within 50 of the coarse best has been measured |
| `FocusScan.InsertByShift` | camera/CameraPipeline.cpp:1211-1215 | the shifting insertion sorts and keeps the elements |
| `FocusScan.MedianEnergy` | camera/CameraPipeline.cpp:1209-1216 | the element of the middle rank |
| `AutoFocus.Focuser.constructor` | camera/CameraPipeline.cpp:1127-1135 | no scan yet |
| `AutoFocus.Focuser.MeasureAt` | camera/CameraPipeline.cpp:1153-1171 | one command, one measurement: the specified visit |
| `AutoFocus.Focuser.CoarseStep` | camera/CameraPipeline.cpp:1153-1171 | one position of the coarse sweep |
| `AutoFocus.Focuser.CoarseSweep` | camera/CameraPipeline.cpp:1152-1171 | 140 to 640 by 50, cut short only by four failures in a row |
| `AutoFocus.Focuser.FineLoop` | camera/CameraPipeline.cpp:1173-1198 | the loop is the specified fine run |
| `AutoFocus.Focuser.FineSweep` | camera/CameraPipeline.cpp:1173-1198 | within 50 of the best by 10; unless four failures stop it every such position gets measured |
| `AutoFocus.Focuser.Sweep` | camera/CameraPipeline.cpp:1152-1198 | both sweeps: the coarse one through its eleven positions or until four failures, then the fine one around its best; at most 22 commands, samples exactly the positive measurements |
| `AutoFocus.Focuser.Settle` | camera/CameraPipeline.cpp:1205-1238 | locked if and only if conclusive, and then on the best position |
| `AutoFocus.Focuser.Decide` | camera/CameraPipeline.cpp:1205-1238 | locks if and only if conclusive |
| `AutoFocus.Focuser.StartAfScan` | camera/CameraPipeline.cpp:1127-1239 | at most 22 commands, all in [140, 640]; they are the coarse sweep and the fine sweep around its best; the samples are exactly the positive measurements at these; locked exactly when there are samples and, from five on, the best is at least median + median/3; then on the first sample of greatest energy |
| `FlattenedParameters.ParsedIsSeparable` | libmocha/camera/CameraParameters.cpp:212-242 | whatever the text, keys read from it have no = and values no ; |
| `FlattenedParameters.ParsedFlat` | libmocha/camera/CameraParameters.cpp:192-242 | reading the text form gives the entries back, order and duplicates included |
| `FlattenedParameters.RoundTripExactly` | libmocha/camera/CameraParameters2.cpp:37-89 | and does so if and only if the entries are separable |
| `FlattenedParameters.FlatSnoc` | libmocha/camera/CameraParameters.cpp:192-210 | the text form grows at its end |
| `FlattenedParameters.Flatten` | libmocha/camera/CameraParameters.cpp:192-210 | the loop writes the text form |
| `FlattenedParameters.ReadEntries` | libmocha/camera/CameraParameters2.cpp:59-89 | the loop reads all entries |
| `DecimalText.PrintIsPlain` | libmocha/camera/CameraParameters.cpp:365-370 | a number is printed as its digits without a leading zero, behind a minus sign exactly if it is negative |
| `DecimalText.ScanPrinted` | libmocha/camera/CameraParameters.cpp:315-338 | printing and scanning are inverse on all 32-bit integers |
| `DecimalText.PairRoundTrip` | libmocha/camera/CameraParameters.cpp:315-338 | a printed pair parses back and is consumed whole |
| `DecimalText.ScanSaturates` | libmocha/camera/CameraParameters.cpp:315-338 | any digits are their value, or the nearest 32-bit bound beyond it, and are consumed whole |
| `DecimalText.SpaceIsSkipped` | libmocha/camera/CameraParameters.cpp:315-338 | leading white space is skipped, and anything else that is no number is read as 0 and not consumed |
| `DecimalText.PairNeedsDelimiter` | libmocha/camera/CameraParameters.cpp:315-338 | a text without the delimiter is no pair |
| `OrderedParameters.SetThenGetExactly` | libmocha/camera/CameraParameters2.cpp:92-132 | what is read after a set is the value, or the second entry of the key if there was one |
| `OrderedParameters.DuplicateHidesSet` | libmocha/camera/include/camera/CameraParameters2.h:153-171 | a repeated key that does hide it |
| `OrderedParameters.RemovedOthers` | libmocha/camera/include/camera/CameraParameters2.h:153-161 | removing one key leaves the values of all others |
| `OrderedParameters.PutOthers` | libmocha/camera/include/camera/CameraParameters2.h:168-171 | setting one key leaves the values of all others |
| `OrderedParameters.PutIsLatest` | libmocha/camera/CameraParameters2.cpp:149-177 | with distinct keys the key set last is last in order and reads back |
| `OrderedParameters.SeparablePut` | libmocha/camera/CameraParameters2.cpp:92-108 | setting and removing keep the entries separable |
| `OrderedParameters.Order` | libmocha/camera/CameraParameters2.cpp:149-177 | two set keys are equal in order if and only if they are the same key |
| `OrderedParameters.SetKeepsOrder` | libmocha/camera/CameraParameters2.cpp:149-177 | setting a key leaves the order of any two others as it was |
| `OrderedParameters.SetIsLater` | libmocha/camera/CameraParameters2.cpp:149-177 | a key just set comes after every other: -1 one way round, 1 the other |
| `OrderedParameters.OrderTurns` | libmocha/camera/CameraParameters2.cpp:149-177 | exchanging the keys turns the sign |
| `SortedParameters.InsertKeepsSorted` | libmocha/camera/CameraParameters.cpp:245-270 | adding keeps the keys sorted and single |
| `SortedParameters.LookupInsert` | libmocha/camera/CameraParameters.cpp:245-292 | the key written reads back, every other key is unchanged |
| `SortedParameters.RemovedIsGone` | libmocha/camera/CameraParameters.cpp:309-312 | a removed key is absent |
| `SortedParameters.InsertAllSorted` | libmocha/camera/CameraParameters.cpp:212-242 | adding sorted entries one by one gives them back |
| `SortedParameters.SortedRoundTrip` | libmocha/camera/CameraParameters.cpp:192-242 | reading the text form gives back every vector the class can hold |
| `SortedParameters.ReadFromIsValid` | libmocha/camera/CameraParameters.cpp:212-242 | whatever the text, the vector read is sorted and separable |
| `SortedParameters.SearchKey` | libmocha/camera/CameraParameters.cpp:286-292 | the binary search of the sorted vector finds the index of the key, or that there is none |
| `SortedParameters.ReadSorted` | libmocha/camera/CameraParameters.cpp:212-242 | the loop adds all entries in place |
| `CameraParameterClasses.SizeTextAllowed` | libmocha/camera/CameraParameters.cpp:365-370 | the text of a size is always accepted |
| `CameraParameterClasses.NoSize` | libmocha/camera/CameraParameters.cpp:372-379 | no text, or one without the x, reads as -1 by -1 |
| `CameraParameterClasses.SizeTextRoundTrip` | libmocha/camera/CameraParameters.cpp:365-379 | and reads back as the size, for all pairs of 32-bit integers |
| `CameraParameterClasses.CameraParameters2.constructor` | libmocha/camera/CameraParameters2.cpp:28-31 | no entries |
| `CameraParameterClasses.CameraParameters2.Flatten` | libmocha/camera/CameraParameters2.cpp:37-57 | text that reads back as the entries |
| `CameraParameterClasses.CameraParameters2.Unflatten` | libmocha/camera/CameraParameters2.cpp:59-89 | the entries of the text |
| `CameraParameterClasses.CameraParameters2.Set` | libmocha/camera/CameraParameters2.cpp:92-108 | put, or nothing for a forbidden character |
| `CameraParameterClasses.CameraParameters2.Get` | libmocha/camera/CameraParameters2.cpp:124-132 | the value of the first entry of the key, or none |
| `CameraParameterClasses.CameraParameters2.Remove` | libmocha/camera/CameraParameters2.cpp:179-182 | the first entry of the key is gone |
| `CameraParameterClasses.CameraParameters2.CompareSetOrder` | libmocha/camera/CameraParameters2.cpp:149-177 | the order of two set keys, or not found |
| `CameraParameterClasses.CameraParameters2.SetPreviewSize` | libmocha/camera/CameraParameters2.cpp:235-240 | the size that reads back is the one set, or the one of the second entry of the key if it was repeated |
| `CameraParameterClasses.CameraParameters2.GetPreviewSize` | libmocha/camera/CameraParameters2.cpp:242-249 | the stored size, or -1 by -1 |
| `CameraParameterClasses.CameraParameters.constructor` | libmocha/camera/CameraParameters.cpp:183-186 | no entries |
| `CameraParameterClasses.CameraParameters.Flatten` | libmocha/camera/CameraParameters.cpp:192-210 | text that reads back as the entries |
| `CameraParameterClasses.CameraParameters.Unflatten` | libmocha/camera/CameraParameters.cpp:212-242 | the entries of the text, sorted |
| `CameraParameterClasses.CameraParameters.Set` | libmocha/camera/CameraParameters.cpp:245-270 | exactly this key changes, or nothing for a forbidden character |
| `CameraParameterClasses.CameraParameters.Get` | libmocha/camera/CameraParameters.cpp:286-292 | the search finds the value of the key; an absent key and an empty value both read as absent |
| `CameraParameterClasses.CameraParameters.Remove` | libmocha/camera/CameraParameters.cpp:309-312 | exactly this key disappears |
| `CameraParameterClasses.CameraParameters.SetPreviewSize` | libmocha/camera/CameraParameters.cpp:365-370 | the size reads back, for all pairs of 32-bit integers |
| `CameraParameterClasses.CameraParameters.GetPreviewSize` | libmocha/camera/CameraParameters.cpp:372-379 | the stored size, or -1 by -1 |
| `StringOrder.AddedAllAscends` | libmocha/camera/VendorTagDescriptor.cpp:104-115 | the section vector is sorted without repeats |
| `StringOrder.AddedAllSorted` | libmocha/camera/VendorTagDescriptor.cpp:222-230 | adding sorted sections gives them back |
| `VendorTags.BuildsExactly` | libmocha/camera/VendorTagDescriptor.cpp:58-137 | building succeeds if and only if every listed tag is at least 0x80000000, has a name, a section and one of the six types; otherwise it is BAD_VALUE |
| `VendorTags.FromOpsIsSound` | libmocha/camera/VendorTagDescriptor.cpp:58-137 | building keeps what the operations report for every tag |
| `VendorTags.CountIsCompleteExactly` | libmocha/camera/VendorTagDescriptor.cpp:58-137 | the count is the number of tags if and only if none is listed twice |
| `VendorTags.ReadTagsEncoded` | libmocha/camera/VendorTagDescriptor.cpp:166-203 | the reader takes in the written tags in order |
| `VendorTags.ReadTagsFails` | libmocha/camera/VendorTagDescriptor.cpp:166-203 | a nameless tag or too large a count stops it |
| `VendorTags.ReadNamesEncoded` | libmocha/camera/VendorTagDescriptor.cpp:222-230 | the section names are read back, or an empty one stops the reader |
| `VendorTags.CompleteIsRead` | libmocha/camera/VendorTagDescriptor.cpp:139-325 | a complete descriptor is read back |
| `VendorTags.IncompleteIsRefused` | libmocha/camera/VendorTagDescriptor.cpp:139-325 | an incomplete one is refused |
| `VendorTags.ReadWrittenExactly` | libmocha/camera/VendorTagDescriptor.cpp:139-325 | a written descriptor reads back with the same count, tags, names, types and sections if and only if it is complete |
| `VendorTags.ReadIsSound` | libmocha/camera/VendorTagDescriptor.cpp:139-250 | whatever the parcel, a descriptor that is read has the announced count, at most that many tags, all vendor tags of known types with a name, and sorted, named sections that each tag points into |
| `VendorTags.SectionErrors` | libmocha/camera/VendorTagDescriptor.cpp:205-220 | too few sections for the tags read is BAD_VALUE, exactly |
| `VendorTags.LookupInvertsExactly` | libmocha/camera/VendorTagDescriptor.cpp:331-348 | looking up its own section and name finds each tag if and only if no two tags share both |
| `VendorTags.LookupFindsOnlyNamed` | libmocha/camera/VendorTagDescriptor.cpp:331-348 | a lookup succeeds if and only if some tag has the section and name |
| `VendorTags.ReversedKeepsLast` | libmocha/camera/VendorTagDescriptor.cpp:117-133 | of tags with one section and name the reverse map keeps the last entered |
| `VendorTags.ReversedSameExactly` | libmocha/camera/VendorTagDescriptor.cpp:236-246 | entering the tags in ascending order gives the same reverse map if and only if the last entered of each name is the highest |
| `VendorTags.NamedIsComplete` | libmocha/camera/VendorTagDescriptor.cpp:58-137 | the built descriptor is complete if and only if the operations list each tag once with a name and a section |
| `VendorTags.OpsRoundTripExactly` | libmocha/camera/VendorTagDescriptor.cpp:58-325 | operations to descriptor to parcel and back: reading succeeds if and only if each tag is listed once with a name and a section, and gives the descriptor back if and only if, besides, tags sharing both end with the highest |
| `VendorTags.OpsLookupExactly` | libmocha/camera/VendorTagDescriptor.cpp:58-348 | every tag is found by the section and name the operations report if and only if no two tags share both, in the built descriptor and in the one read back from its parcel |
| `VendorTagLoops.CollectSections` | libmocha/camera/VendorTagDescriptor.cpp:84-113 | the first loop accepts exactly valid tags and collects the sections |
| `VendorTagLoops.CreateDescriptorFromOps` | libmocha/camera/VendorTagDescriptor.cpp:58-137 | the loops build the specified descriptor or BAD_VALUE |
| `VendorTagLoops.WriteToParcel` | libmocha/camera/VendorTagDescriptor.cpp:291-325 | the loops write the specified parcel |
| `VendorTagLoops.ReadTagLoop` | libmocha/camera/VendorTagDescriptor.cpp:166-203 | the loop reads the tags or the first error |
| `VendorTagLoops.CreateFromParcel` | libmocha/camera/VendorTagDescriptor.cpp:139-250 | the reader computes the specified result |
| `PixelRows.SwapRows` | camera/CameraPipeline.cpp:708-713 | two rows change places, the rest stays |
| `PixelRows.FlipVertical` | camera/CameraPipeline.cpp:704-715 | the rows in opposite order, anything after them unchanged |
| `PixelRows.FlipIsOwnInverse` | camera/CameraPipeline.cpp:704-715 | flipping twice gives the buffer back |
| `PixelArithmetic.LaneIsScalar` | camera/isp/ColorConvNEON.cpp:67-167 | narrowing and saturation never change a value: the lane is the scalar formula |
| `PixelArithmetic.StudioRange` | camera/isp/ColorConvNEON.cpp:40-169 | luma in [16, 235], chroma in [16, 240], grey has chroma 128 |
| `PixelArithmetic.LumaIsNear` | camera/isp/ColorConvNEON.cpp:40-96 | the luma of a pixel is within 1 of its BT.601 studio value |
| `PixelArithmetic.ChromaIsNear` | camera/isp/ColorConvNEON.cpp:99-169 | each chroma byte is within 1 of its BT.601 studio value, blue first |
| `PixelArithmetic.GainLaneIsScalar` | camera/isp/ColorConvNEON.cpp:221-275 | for every pixel value and gain below 65536 lane and tail agree |
| `PixelArithmetic.GainPathsAgreeExactly` | camera/isp/ColorConvNEON.cpp:221-275 | they agree on all pixel values if and only if the gain is below 65536 or its low half is at least 65152 |
| `PixelArithmetic.UnitGain` | camera/isp/ColorConvNEON.cpp:221-275 | a gain of 256 changes nothing |
| `VectorRows.MixedIsRow` | camera/isp/ColorConvNEON.cpp:63-96 | where lane and scalar agree the split does not show |
| `VectorRows.StoreVectors` | camera/isp/ColorConvNEON.cpp:67-88 | whole vectors are stored while they fit |
| `VectorRows.StoreTail` | camera/isp/ColorConvNEON.cpp:91-95 | the tail is stored pixel by pixel |
| `VectorRows.StoreRow` | camera/isp/ColorConvNEON.cpp:63-96 | the row is written in full, each byte by one of the two, and nothing else |
| `KernelRows.LumaVectorDelivers` | camera/isp/ColorConvNEON.cpp:67-88 | load by channel, convert and store is eight luma lanes in pixel order |
| `KernelRows.LumaLaneIsScalar` | camera/isp/ColorConvNEON.cpp:67-95 | luma lanes are the luma formula |
| `KernelRows.ChromaVectorDelivers` | camera/isp/ColorConvNEON.cpp:99-157 | load by channel, unzip the even pixels, convert and store interleaved is sixteen chroma lanes in byte order |
| `KernelRows.ChromaLaneIsScalar` | camera/isp/ColorConvNEON.cpp:99-168 | a chroma lane is the chroma formula of its even pixel |
| `KernelRows.RgbaVectorDelivers` | camera/isp/ColorConvNEON.cpp:171-190 | load by channel and store interleaved with alpha is thirty-two bytes of the converted row |
| `KernelRows.BalancedVectorDelivers` | camera/isp/ColorConvNEON.cpp:220-262 | load by channel, gain, table lookup and interleaved store is thirty-two bytes of the balanced row |
| `KernelRows.BalancedRowIsScalar` | camera/isp/ColorConvNEON.cpp:214-276 | with gains the lanes hold, a fused row is the scalar row |
| `KernelRows.UnitRow` | camera/isp/ColorConvNEON.cpp:201-277 | with unit gains it is table lookup and conversion |
| `ColorKernels.LumaRowInto` | camera/isp/ColorConvNEON.cpp:63-96 | one luma row |
| `ColorKernels.ChromaRowInto` | camera/isp/ColorConvNEON.cpp:99-168 | one chroma row; an odd last column is left alone |
| `ColorKernels.LumaPlane` | camera/isp/ColorConvNEON.cpp:63-96 | all luma rows, and no byte after them |
| `ColorKernels.ChromaPlane` | camera/isp/ColorConvNEON.cpp:99-168 | all chroma rows, and no byte after them |
| `ColorKernels.RgbToNv12` | camera/isp/ColorConvNEON.cpp:40-169 | every luma and chroma byte is the scalar formula of its pixel for every size, and no other byte is touched |
| `ColorKernels.LumaByte` | camera/isp/ColorConvNEON.cpp:40-96 | the luma byte of pixel (x, y), in range |
| `ColorKernels.ChromaByte` | camera/isp/ColorConvNEON.cpp:99-168 | the chroma byte j of row r, in range, or as before in an odd last column |
| `ColorKernels.LumaOfPixel` | camera/isp/ColorConvNEON.cpp:40-96 | byte y*w+x of the luma plane is within 1 of the BT.601 luma of the red, green and blue at 3*(y*w+x) |
| `ColorKernels.ChromaOfPixel` | camera/isp/ColorConvNEON.cpp:99-168 | each byte pair of the chroma plane is within 1 of the BT.601 chroma, blue difference first, of the even pixel of the even row it stands for |
| `ColorKernels.RgbToRgba` | camera/isp/ColorConvNEON.cpp:171-199 | each pixel with alpha 255, for every size |
| `ColorKernels.BalancedRowInto` | camera/isp/ColorConvNEON.cpp:214-276 | one balanced row |
| `ColorKernels.BalancedRowOf` | camera/isp/ColorConvNEON.cpp:214-276 | the row of the output that comes from a source row, also when flipped |
| `ColorKernels.RgbToRgbaWbGamma` | camera/isp/ColorConvNEON.cpp:201-277 | each output row is the balanced row of its source row, and no byte after them changes |
| `ColorKernels.FusedIsSeparate` | camera/isp/ColorConvNEON.cpp:201-277 | with unit gains the fused pass equals table lookup, conversion and optional flip |
| `Sobel.EightSteps` | camera/CameraPipeline.cpp:1032-1043 | eight unrolled gradients are eight steps of the sum |
| `Sobel.SobelRow` | camera/CameraPipeline.cpp:1010-1013 | the plain row sum |
| `Sobel.SobelRowUnrolled` | camera/CameraPipeline.cpp:1031-1047 | the unrolled row gives the same sum for every width |
| `Sobel.SobelEnergy` | camera/CameraPipeline.cpp:1004-1016 | the sum over all inner pixels, 0 for images below 3 by 3 |
| `Sobel.SobelEnergyNw` | camera/CameraPipeline.cpp:1023-1050 | the same function for every image and width |
| `Sobel.EnergyIsOfGreen` | camera/CameraPipeline.cpp:1004-1016 | the energy depends on the green channel only |
| `Sobel.EdgeCountsTwice` | camera/CameraPipeline.cpp:1004-1016 | one vertical edge adds its jump once for each of the two inner pixels beside it |

## Left out

- Environment: clocks, ioctl results, sensor readings, captured energies, frame timestamps and hardware pointer motion are parameters or arbitrary choices; memory exhaustion and logging are not modelled.
- Multi-HAL: activate, batch and flush only forward to one sub-HAL by the handle table, and the start-up of modules and the merge of sensor lists only copy; none of them touches the queues.
- PcmPlayback.Pcm.Transfer: the playback direction only, over frames instead of bytes per frame; capture transfer is the mirror image, and errors of the pointer ioctl are not modelled.
- PcmMmap.ComputeBoundary: buffer sizes of 0 (the loop would not end) and above INT_MAX are excluded.
- PcmPlayback.Pcm.SyncPtr: between two looks at it the hardware pointer moves by less than what is left of one boundary; longer motion makes the formula wrong, and `PlaybackAvailExact` says exactly when.
- AudioRoute: masks are sets of bit numbers; the 32-bit width plays no part. A reroute is one atomic step, while the code reads `current_devices` before it takes the lock (configmgr/audio_config.c:607-608), so two reroutes of one stream at once are not modelled.
- InFlight: adding and removing one frame are plain map updates and have no row of their own; what they do for a request is in `TrackerEmptyWhenLockFree`.
- AudioConfigParser: attribute values and the bodies of the element handlers are outcomes chosen freely.
- CondVar: time-outs are a free choice of waking, and the mutex around the wait is not modelled.
- CameraRequest: metadata contents, fences, the autofocus handling inside a request and calls made after close has deleted the device are not modelled; frame numbers are natural numbers.
- ExposureRuns.PassMovesTowardsTarget: for an exposure on its grid; off it the direction is false (`OffGridMayDarken`) and the bound is that of `WantedOffGrid`.
- AutoExposure: exact real arithmetic in place of single precision for luma and ratio; the luma sampling loop is a parameter, and reading exposure and gain back from the driver is not modelled.
- AutoFocus.Focuser.StartAfScan: the position is the last one sent to the lens driver, so a refused focus command is not told apart; the sharpness metric is a parameter.
- CameraParameterClasses: null arguments, integer values in other bases, float values, size lists and the vendor-specific branch of `set` that is not compiled here are left out; strings are sequences of characters without a terminator.
- SortedParameters: the keyed vector itself belongs to Android's libutils, which is not part of the repository; it is modelled by what the class relies on, sorted single keys found by halving.
- VendorTags: the parcel is a sequence of typed items, not of bytes; the null checks are left out.
- PixelArithmetic.GainPathsAgreeExactly: negative gains and products beyond 32 bits are outside the model.
- Sobel: sums are unbounded integers; the sharpness metric with clipping is left out.
- DemosaicNEON, JPEG encoding, V4L2 set-up, gatekeeper, keymaster, binder proxies, the audio HAL proper and the mixer: foreign calls or thin layers.
