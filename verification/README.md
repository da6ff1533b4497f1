# A verified model of the raspicam capture library and its media components

The repository holds a camera library and part of a media framework. This project models the
parts with the most state, arithmetic and interleaving and proves what they promise over whole
runs:

- the media clock component: ring-buffer moving averages with a cached sum, per-stream timing,
  the selection of two streams, the rate-limited control loop, and the pool of event slots that
  feeds it;
- reference-counted buffer headers, the cascade a release sets off, and the zero-copy component
  that pairs input with output buffers, alone and together with what clients do with their headers;
- the container writer, which merges several ports by time-stamp without splitting frames;
- the frame grab handshake, the removal of padding from camera frames, and the layout the
  artificial camera gives its frames;
- still capture, and two audio renderers: byte streams whose result must not depend on how they
  are cut up;
- the copy component.

## How the model is built

Each component has a value-level description - a datatype for its state and a function for each
of its operations - and, where the sources update objects in place, a class whose methods do the
same step by step and are proved to compute that function. Lemmas about the functions then state
what holds over whole runs. The modules named `...Laws`, `StreamHistory` and `ClockSteady` say what
the components are for without their step functions: where the clock starts and what it follows,
which numbers a stream measures, that frames are finished and buffers copied and given back. Where
threads interleave (event slots, frame grabbing, the Android
renderer) the description is a state machine whose steps are the single accesses to shared data,
and the theorems range over every reachable state.

Queues and lists are sequences: put at the back, put back at the front, get from the front.
Buffers given back to clients, events sent and headers returned to pools appear as logs. Answers
of code that is not modelled (whether a write or an event succeeded, which releases a callback
delays) are parameters. Operations of the sources that need a precondition have it as `requires`:
filters hold 1 to 180 samples, the clock's attack period is positive (the component's defaults
leave it 0, and the first control update after a restart would then divide by zero), and a header
is released only by a client that holds it; buffers of 32-bit samples hold whole samples, as the
renderer asserts.

C arithmetic is explicit in `CInt.dfy`: wrap-around, division that truncates, shifts that floor.
The filters and the stream differences wrap like 64-bit integers; the guarantees that need sums
not to overflow ask for time-stamps within 2^53 microseconds of zero.

Several properties that one would expect of the code do not hold, and the model says exactly when
they do:

- `CInt.SaturateAddIsClamp`: the saturating addition fails for one pair of values.
- `MovingAverage.RingRefinesFifo`: the cached sum is right throughout exactly when no total
  overflows; `ClockStream.SaturationBreaksTheSum` is a run of reports that makes a deviation negative.
- `ClockControl.StallsExactlyWhen`, `ClockControl.RestsExactlyWhen`: small upward corrections of the
  clock are lost for good, downward ones never.
- `Passthrough.PairsInSendOrder`, `Passthrough.OutOfOrderExactlyWhen`: order is lost exactly when a
  replication fails that cannot be reported, and pairs come out wrong exactly when one succeeds
  after that.
- `BufferRefs.ReplicateClosesExactlyWhen`: a replication keeps the references acyclic exactly when
  the source does not itself lead back to the replicate.
- `FrameGrab.LeavesExactlyWhen`: a frame releases a waiter exactly if no new grab begins before the
  waiter gets the mutex.
- `FrameLayout.AlignedCopyIsImage`: with an aligned width and an unaligned height a YUV frame is
  copied with the padding rows between its planes.
- `StillCapture.CompletionReported`: completion is reported for a buffer that ends the image exactly
  if everything before it fitted, so a capture that overflows earlier is never reported.
- `SdlAudio.CallbackEndsExactlyWhen`, `SdlAudio.AcceptedUnhandled`: the callback never ends for some
  formats the port accepts, once a buffer holds data.
- `AafAudio.BytesConserved`, `AafAudio.ZeroingKeepsExactlyWhen`: the byte counter is right exactly
  when nothing was outstanding at the moment the latest flush zeroed it.
- `CopyComponent.LosesExactlyWhen`: an output too small for the input it meets costs both buffers.

## Model

| member | source | states |
|---|---|---|
| CInt.SaturateAddIsClamp | dependencies/mmal/components/clock.c:182-190 | the saturating 64-bit addition is the clamped sum for every pair of values except two copies of the most negative one, for which it gives 0; it is exact precisely when the sum fits |
| MovingAverage.LastDetermined | dependencies/mmal/components/clock.c:194-228 | in every filter state the newest slot is (first + count + length - 1) modulo length |
| MovingAverage.DropExact | dependencies/mmal/components/clock.c:208-216 | dropping a sample keeps the cached sum equal to the window's total if and only if that total fits in 64 bits |
| MovingAverage.InsertExact | dependencies/mmal/components/clock.c:219-228 | inserting a sample, with the oldest dropped when full, keeps the cached sum exact if and only if the new total fits |
| MovingAverage.AverageBetween | dependencies/mmal/components/clock.c:312-315 | the truncated average lies between the smallest and the largest sample in the window |
| MovingAverage.RingRefinesFifo | dependencies/mmal/components/clock.c:194-228 | over any sequence of resets, drops and insertions the ring buffer holds what a list that keeps only the newest samples would hold; the cached sum is their total throughout if and only if every total on the way fits in 64 bits |
| MovingAverage.Filter.Init | dependencies/mmal/components/clock.c:194-199 | the filter is empty, with both cursors at their start |
| MovingAverage.Filter.DropSample | dependencies/mmal/components/clock.c:208-216 | the array-based removal is removal of the oldest sample of the abstract window |
| MovingAverage.Filter.InsertSample | dependencies/mmal/components/clock.c:219-228 | the array-based insertion is insertion into the abstract window, dropping the oldest sample when full |
| ClockStream.Lockstep | dependencies/mmal/components/clock.c:232-330 | over every sequence of updates, expiries and resets the two filters of a stream have the same cursors and count, so each average divides by a positive count; with plausible time-stamps the deviation is never negative and no sum saturates |
| ClockStream.SaturationBreaksTheSum | dependencies/mmal/components/clock.c:276-330 | a run of six reports, none of them a discontinuity, saturates the cached sum of the deviations and then makes the average deviation negative |
| StreamHistory.StreamMeasures | dependencies/mmal/components/clock.c:259-330 | over every sequence of plausible reports, expiries and rebasings the filters of a stream hold exactly the offsets - time-stamp less arrival time of each report that a later one completes - and deviations told by the reports as plain lists, and its averages are their means; reports without time-stamp and jumps are not taken, the first only starts the stream |
| StreamHistory.EventTells | dependencies/mmal/components/clock.c:276-330 | the component is told of a complete frame, a jump or a start exactly when the reports say so |
| StreamHistory.SteadyReports | dependencies/mmal/components/clock.c:302-326 | without silence and jumps the offsets are those of the newest frames followed by one with another time-stamp |
| StreamHistory.OnlyDifferencesMatter | dependencies/mmal/components/clock.c:276-330 | adding the same time to every time-stamp and wall time changes neither filter nor average |
| StreamHistory.RebasedIsNew | dependencies/mmal/components/clock.c:259-273 | after a rebasing the stream is as new |
| ClockStream.Stream.Update | dependencies/mmal/components/clock.c:276-330 | a time-stamp report changes the stream, and yields the event, as the stream specification says in each of its five cases |
| ClockStream.Stream.Reset | dependencies/mmal/components/clock.c:259-273 | everything but the stream's identity and filter length returns to its initial value |
| ClockStream.Stream.AgeBy | dependencies/mmal/components/clock.c:432-454 | old samples expire from both filters together and both averages are refreshed when the first filter holds any sample |
| ClockControl.ModulateShrinks | dependencies/mmal/components/clock.c:543-545 | scaling by confidence and filter fill never enlarges the adjustment or changes its sign, and leaves it alone at full confidence |
| ClockControl.NoOvershoot | dependencies/mmal/components/clock.c:513-545 | an update leaves the clock offset between its old value and the target, moves it by at most the cap, and never increases the distance to the target |
| ClockControl.StallsExactlyWhen | dependencies/mmal/components/clock.c:543-545 | an update leaves the clock unmoved exactly when the gap or the confidence is zero or a positive adjustment is lost to rounding; negative adjustments are never lost |
| ClockControl.LocksOnSchedule | dependencies/mmal/components/clock.c:513-545 | with no spread and full filters the distance to a fixed target after any number of updates is the initial distance less the sum of the caps, or zero |
| ClockControl.Settles | dependencies/mmal/components/clock.c:513-545 | at any fixed confidence and filter fill, after as many updates as the distance, the clock is at a fixed target if it came from above, and at it or in the band of gaps lost to rounding if it came from below |
| ClockControl.RestsExactlyWhen | dependencies/mmal/components/clock.c:513-545 | an update with a given cap leaves the clock where it is exactly at the target and, below it, in that band |
| ClockControl.ScanSelects | dependencies/mmal/components/clock.c:412-474 | only streams with samples are selected; the minimum is at or below every such stream's average plus its bias, symmetrically for the maximum; something is selected as soon as one stream is in range |
| ClockControl.ConfidenceInUnit | dependencies/mmal/components/clock.c:538-539 | the confidence factor stays in 0 to 2^20; it is full, and zero, exactly at the stated spreads |
| ClockControl.StepBounded | dependencies/mmal/components/clock.c:479-547 | an update without discontinuity aims at the largest offset that leaves one stream its latency and the other a frame, ends between old offset and target, and respects the rate limit |
| ClockLaws.BiasIsMissingShare | dependencies/mmal/components/clock.c:457 | the bias of a stream is the share of its average that its missing samples are, rounded down |
| ClockLaws.ConfidenceIs | dependencies/mmal/components/clock.c:538-539 | the confidence falls from 2^20 by a quarter of spread times rounded frame rate, rounded down, to 0 |
| ClockLaws.CapIs | dependencies/mmal/components/clock.c:520-521 | the cap is the elapsed wall time times attack rate over attack period, rounded down, and 0 if no time passed |
| ClockLaws.ModulateIs | dependencies/mmal/components/clock.c:543-545 | the adjustment is the capped one times confidence and filter fill, less than two microseconds below and less than one above |
| ClockLaws.StartsBehindEarliest | dependencies/mmal/components/clock.c:412-506 | the first update after a discontinuity that finds an active stream sets media time, offset and target so that the earliest stream, none being more than its bias earlier, is presented the target latency after it arrives, and ends the discontinuity; without an active stream nothing changes |
| ClockLaws.FollowsExtremes | dependencies/mmal/components/clock.c:412-552 | any other update aims at the offset that leaves the latest stream its latency and the earliest a frame, and moves by the capped gap times the confidence in the earliest stream and its filter fill |
| ClockLaws.SilenceForgets | dependencies/mmal/components/clock.c:432-448 | a stream silent for more than twice the target latency is forgotten, one silent for more than six frames loses its oldest sample with every update, and no other changes |
| ClockLaws.FullStreamsInOrder | dependencies/mmal/components/clock.c:412-474 | of streams with full filters the first with the least average is the minimum and the first with the greatest the maximum |
| ClockLaws.JumpStartsOver | dependencies/mmal/components/clock.c:297-303 | a jump beyond the threshold, and no other report, makes every stream as new and the clock start over, and changes nothing else |
| ClockLaws.LatencyStartsOver | dependencies/mmal/components/clock.c:670-675 | so does a new latency setting, which holds from then on |
| ClockLaws.ScaleChanges | dependencies/mmal/components/clock.c:611-637 | pausing takes effect at once, resuming at normal speed starts over and waits for the next update, other speeds are ignored |
| ClockLaws.RationalEqualIs | dependencies/mmal/util/mmal_util_rational.c:153-158 | two rates are equal if their cross products are and neither or both are 0 |
| ClockSteady.SteadyStreamIsFollowed | dependencies/mmal/components/clock.c:412-608 | once the clock has started over, a single stream whose time-stamps run ahead of their arrival by d sets the media time to arrival + d - latency with its second report and keeps it there with every later one |
| ClockComponent.EventBounded | dependencies/mmal/components/clock.c:556-608 | the same for one event of the whole component, through stream update, expiry and selection |
| ClockComponent.SlewRateBound | dependencies/mmal/components/clock.c:494-547 | over any run without discontinuity and with non-decreasing wall time, however noisy the streams, the total movement of the clock offset is at most attack_rate / attack_period times the wall time between updates, and each step moves towards its target without passing it |
| ClockComponent.Clock.GetMtOffAvg | dependencies/mmal/components/clock.c:412-474 | one pass over all streams ages each exactly once and returns the streams the selection specification picks |
| ClockComponent.Clock.AdjustClocks | dependencies/mmal/components/clock.c:479-552 | the in-place control update computes the specified one, leaving everything unchanged but the aged streams when no stream is active |
| ClockComponent.Clock.ControlUpdate | dependencies/mmal/components/clock.c:486-547 | the field-by-field update of the control state computes the restart or the adjustment step |
| ClockComponent.Clock.ResetClocks | dependencies/mmal/components/clock.c:374-383 | every stream is reset and a discontinuity is noted |
| ClockComponent.Clock.ProcessInput | dependencies/mmal/components/clock.c:585-608 | the handling of a report, creating the stream on first data, is the event specification |
| ClockComponent.Clock.ProcessEvent | dependencies/mmal/components/clock.c:723-756 | and so is the handling of scale, latency and threshold events |
| FrameRateLog.NextPow2Rounds | dependencies/mmal/components/clock.c:158-167 | for every power of two w and every x above w/2 and up to w the bit-smearing gives w |
| FrameRateLog.LogRoundsUp | dependencies/mmal/components/clock.c:158-179 | the composition of the two bit tricks is the base-two logarithm rounded up on 1 to 2^31 |
| EventSlots.SlotsConserved | dependencies/mmal/components/clock.c:678-712 | under any interleaving of producers and the consumer every slot is in exactly one place and none is lost; events come out in the order queued, unmodified; queueing fails exactly when all sixteen slots are in use |
| EventSlots.EventPool.QueueEvent | dependencies/mmal/components/clock.c:678-692 | an event is appended unless sixteen are pending, and then the call fails and changes nothing |
| EventSlots.EventPool.DequeueEvent | dependencies/mmal/components/clock.c:695-712 | the oldest pending event is handed out, its slot becomes free, and the buffer attached to it, if any, is given back |
| BufferRefs.ReleaseEffect | dependencies/mmal/core/mmal_buffer.c:57-82 | a release recycles exactly the headers along the reference chain that were at their last reference and are not delayed, each once, a source before its replicate, emptied but with its payload, and takes one reference from the header where the chain ends |
| BufferRefs.DyingIsChain | dependencies/mmal/core/mmal_buffer.c:57-82 | those headers follow each other by reference, in falling rank, without repetition, and the survivor is the next one on the chain |
| BufferRefs.ReleaseOpEffect | dependencies/mmal/core/mmal_buffer.c:57-72 | a client's release has just that effect, delayed as its callbacks ask, and takes one of the client's references |
| BufferRefs.ContinueOpEffect | dependencies/mmal/core/mmal_buffer.c:75-82 | finishing a delayed release recycles that header after what its source sets off |
| BufferRefs.ReplicateOpEffect | dependencies/mmal/core/mmal_buffer.c:85-109 | a replication makes the header a second view of the source, with one more reference to it, or changes nothing if it already is one |
| BufferRefs.PooledAreClean | dependencies/mmal/core/mmal_buffer.c:47-82 | in every run a header in the pool has no length, offset, flags or times, or is still as the pool was created with |
| BufferRefs.ReplicateCloses | dependencies/mmal/core/mmal_buffer.c:85-109 | a replication that does not close a cycle leaves an acyclic reference graph |
| BufferRefs.ReplicateClosesExactlyWhen | dependencies/mmal/core/mmal_buffer.c:85-109 | after a replication the references can be ranked without a cycle if and only if the source did not lead to the replicate before |
| BufferRefs.ApplyKeeps | dependencies/mmal/core/mmal_buffer.c:38-109 | every legal operation - taking from the pool, acquiring, releasing, finishing a delayed release, replicating - keeps the counting invariant |
| BufferRefs.CountsAreReferences | dependencies/mmal/core/mmal_buffer.c:38-109 | in every reachable state a header's count is its client references plus the headers replicated from it plus one in the pool; no header is in the pool while a client holds it or a replicate of it is unreleased |
| BufferRefs.NothingLeaks | dependencies/mmal/core/mmal_buffer.c:57-82 | once no client holds a header and no release is delayed, every header is back in the pool |
| BufferHeaders.BufferHeader.Reset | dependencies/mmal/core/mmal_buffer.c:47-54 | length, offset, flags and both time-stamps return to their defaults, nothing else changes |
| BufferHeaders.BufferHeader.ReplicateFrom | dependencies/mmal/core/mmal_buffer.c:85-109 | fails without effect if the header already refers to another; else it refers to the source, shows all its fields, and the source - even if it is the header itself - has one more reference |
| BufferHeaders.HeaderPool.constructor | dependencies/mmal/core/mmal_pool.c:103-115 | a new pool queues all its headers, each with one reference and no source: the state every run starts from |
| BufferHeaders.HeaderPool.Take | dependencies/mmal/core/mmal_queue.c:100-125 | getting a header from the pool is the take step of a run |
| BufferHeaders.HeaderPool.Acquire | dependencies/mmal/core/mmal_buffer.c:38-44 | acquiring is the acquire step, and keeps the counting invariant |
| BufferHeaders.HeaderPool.ClientRelease | dependencies/mmal/core/mmal_buffer.c:57-72 | a client's release is the release step, and keeps the counting invariant |
| BufferHeaders.HeaderPool.FinishRelease | dependencies/mmal/core/mmal_buffer.c:75-82 | finishing a delayed release is the continue step, and keeps the counting invariant |
| BufferHeaders.HeaderPool.ClientReplicate | dependencies/mmal/core/mmal_buffer.c:85-109 | a client's replication is the replicate step, and keeps the counting invariant |
| BufferHeaders.HeaderPool.Release | dependencies/mmal/core/mmal_buffer.c:57-72 | the in-place recursive release computes the specified one |
| BufferHeaders.HeaderPool.ReleaseContinue | dependencies/mmal/core/mmal_buffer.c:75-82 | and so does its tail, which may be called later by whoever delayed the release |
| BufferHeaders.HeaderPool.Recycle | dependencies/mmal/core/mmal_pool.c:269-280 | the header forgets its source, counts one reference for its pool and is queued there |
| BufferHeaders.HeaderPool.Replicate | dependencies/mmal/core/mmal_buffer.c:85-109 | the in-place replication has the specified effect on every header, also when it closes a cycle; if it does not, it is the specified one on the whole reference graph |
| Passthrough.PairsInSendOrder | dependencies/mmal/components/passthrough.c:104-167 | in a run of sends everything is in order after every step - the k-th pair is the k-th input with the k-th output and, unless an error was reported, one queue is empty and the other holds the unmatched rest in order - if and only if no replication both fails and cannot be reported |
| Passthrough.OutOfOrderExactlyWhen | dependencies/mmal/components/passthrough.c:104-167 | for distinct buffers some pair is out of order if and only if a replication succeeded after one had failed unreported; until then both queues are non-empty and only wait |
| Passthrough.NoFailureNoError | dependencies/mmal/components/passthrough.c:104-155 | without failed replications no error is set and everything is in order |
| Passthrough.UnreportedFailureReorders | dependencies/mmal/components/passthrough.c:157-167 | the smallest run whose pairs come out of order |
| Passthrough.BuffersConserved | dependencies/mmal/components/passthrough.c:80-167 | in every run, with failures and flushes, each buffer sent is still queued or was returned on its own port, exactly once |
| Passthrough.SendDecides | dependencies/mmal/components/passthrough.c:104-167 | what a send does in each case: queue the buffer, return the input and then the output of the pair it completes, or queue both again and note the error |
| Passthrough.FlushEmpties | dependencies/mmal/components/passthrough.c:80-94 | a flush returns everything its port holds, in order, and touches nothing else |
| Passthrough.Component.SendBuffer | dependencies/mmal/components/passthrough.c:104-167 | the in-place send computes the specified one; an emitted output refers to its input and carries all its fields, the input keeps everything but its length, and no other header changes |
| Passthrough.Component.FlushPort | dependencies/mmal/components/passthrough.c:80-94 | everything queued on the port is returned in order |
| ZeroCopy.InputPinned | dependencies/mmal/components/passthrough.c:104-155 | in every run of sends, flushes and client operations on headers, from the moment an input is paired with an output, which then shows all its fields, until that output has been recycled, the input keeps a reference beyond its clients' and is not recycled |
| ZeroCopy.PortsRun | dependencies/mmal/components/passthrough.c:80-167 | whatever clients do meanwhile, the component's part of such a run is a run of the component, so its pairing and conservation results hold there |
| ContainerWriter.ScanFindsEarliest | dependencies/mmal/components/container_reader.c:492-518 | from any starting port the scan visits every port once and picks the enabled port with the earliest head, the one visited last among equals, or none exactly when no enabled port has data |
| ContainerWriter.FramesNeverInterleave | dependencies/mmal/components/container_reader.c:520-561 | in every run, after a packet of a framed port that does not end its frame, every packet written before the frame's end comes from that port, as long as the port is not disabled |
| ContainerWriter.StepConserves | dependencies/mmal/components/container_reader.c:476-586 | a step moves at most one packet of one port, from the front of its queue to the end of what was written |
| ContainerWriter.MergeDrains | dependencies/mmal/components/container_reader.c:476-586 | with sorted queues of unframed packets and complete frames of any number of packets, all ports enabled and no write failing, as many steps as there are packets empty all queues, each port's packets in its own order, frames in one piece, and nothing written after the start of a frame earlier than that |
| ContainerWriter.MergeSorts | dependencies/mmal/components/container_reader.c:476-586 | unframed packets and whole frames come out in time-stamp order |
| WriterLaws.StepWrites | dependencies/mmal/components/container_reader.c:476-586 | a step writes the next packet of the port whose frame is unfinished, else the earliest head, and nothing only if that leaves nothing; an error is noted exactly when a failed write could be reported |
| WriterLaws.FrameIsFinished | dependencies/mmal/components/container_reader.c:520-549 | in every run, while the last packet written left its frame unfinished and its port is enabled, each call writes that port's next packet as soon as there is one, and until then nothing |
| WriterLaws.EarliestIsWritten | dependencies/mmal/components/container_reader.c:492-534 | in every run, with no unfinished frame, each call writes the earliest head, and nothing only if there is none |
| WriterLaws.NothingAfterError | dependencies/mmal/components/container_reader.c:488-490 | after an error nothing is ever written again |
| WriterLaws.TakeTurns | dependencies/mmal/components/container_reader.c:492-518 | ports with equally early packets take turns: as many successive calls as there are ports write one packet of each |
| WriterLaws.TimeOfPacket | dependencies/mmal/components/container_reader.c:507-509 | a packet's time is its decoding time if known, else its presentation time, and one with neither is earliest |
| WriterLaws.MergeSortsByDecodingTime | dependencies/mmal/components/container_reader.c:492-518 | where all packets have a decoding time the merge is sorted by it |
| ContainerWriter.Writer.SelectPort | dependencies/mmal/components/container_reader.c:492-518 | taking each head out and putting it back leaves every queue as it was and finds the port the specification picks |
| ContainerWriter.Writer.DoProcessing | dependencies/mmal/components/container_reader.c:476-586 | the in-place step computes the specified one; the packet's buffer goes back with length 0, a failed write leads to an error event, and a written end of stream to an event for its port |
| ContainerWriter.Writer.FlushPort | dependencies/mmal/components/container_reader.c:670-686 | everything queued on the port goes back in order with length 0 |
| ContainerWriter.Writer.DisablePort | dependencies/mmal/components/container_reader.c:689-709 | disabling flushes the port |
| FrameGrab.NoLostWakeup | src/private/private_impl.h:63-71 | in every reachable state, for any number of threads, while some thread waits and nothing is ready the next non-empty frame is still wanted, and that frame frees every waiting thread to return |
| FrameGrab.LeavesExactlyWhen | src/private/threadcondition.cpp:56-69 | in every reachable state a woken thread leaves when it gets the mutex if and only if a non-empty frame has arrived and no grab has begun since; otherwise it waits again and the next frame is wanted |
| FrameGrab.ReadyUntilNextGrab | src/private/private_impl.cpp:529-624 | until a new grab begins a ready frame stays ready, every woken thread returns when it runs, and without a user callback no later frame changes the image |
| FrameGrab.GrabReturnsFreshFrame | src/private/private_impl.cpp:535-592 | a returning grab shows a frame that arrived after it began; without a user callback exactly the first one after the latest grab began, which is the thread's own if it is the only one |
| FrameGrab.NewGrabTakesBackWakeup | src/private/threadcondition.cpp:56-69 | the smallest run in which a second grab sends a woken thread back to waiting, and the frame after it releases both |
| FrameGrab.PortUserdata.VideoBuffer | src/private/private_impl.cpp:529-624 | the callback's effect on the shared flags and image is the frame step |
| FrameGrab.PortUserdata.BeginWait | src/private/private_impl.h:63-71 | and the first part of waiting is the grab step |
| FrameGrab.PortUserdata.KeepWaiting | src/private/threadcondition.cpp:56-59 | a thread that takes the mutex again keeps waiting exactly when the resume step leaves it waiting |
| FrameLayout.ImageFits | src/private/private_impl.cpp:207-222 | the bytes written for an image never exceed the size the library reports, for odd dimensions too, and equal it for even ones and for packed or grey images |
| FrameLayout.SpareBytes | src/private/private_impl.cpp:207-222 | the reported size exceeds the image by nothing, but for a YUV image of odd height by twice a quarter of its width |
| FrameLayout.StoreFrame | src/private/private_impl.cpp:535-587 | with an unaligned width the stored bytes begin with the crop of the padded frame; with an aligned width they are the whole buffer; either way a whole padded frame leaves at least as many bytes as the library reports |
| FrameLayout.AlignedImageInFrame | src/private/private_impl.cpp:207-222 | with an aligned width the padded frame is at least as large as the size the library reports |
| FrameLayout.Retrieve | src/private/private_impl.cpp:184-191 | the caller gets the first bytes of the stored image, as many as the library reports, and no other byte changes |
| FrameLayout.CropAt | src/private/private_impl.cpp:564-566 | every byte of the crop's luma or packed plane is the byte at its place in the padded frame |
| FrameLayout.CropAtChroma | src/private/private_impl.cpp:568-585 | and so is every byte of its two chroma planes |
| FrameLayout.PixelAt | src/private/private_impl.cpp:559-566 | a pixel of packed colour is three consecutive bytes, of the other formats one, each where the camera put it |
| FrameLayout.AlignedCopyIsImage | src/private/private_impl.cpp:551-557 | copying the whole frame puts the image's bytes first for every content exactly unless the format is YUV, the height is unaligned and at least 2, and the width positive |
| FrameLayout.CameraPort.FormatCommit | dependencies/mmal/components/artificial_camera.c:161-204 | for each supported encoding the planes follow each other without gap or overlap and fill the frame, and the buffer sizes are the frame's; the I420 chroma planes start where the video callback reads them |
| StillCapture.ChunksDoNotMatter | src/private_still/private_still_impl.cpp:71-93 | however the encoded stream is cut into buffers the caller's space holds the stream, without its 54-byte header in RGB mode, truncated to the space; nothing else is written; the capture is abandoned exactly when a byte finds no space |
| StillCapture.StoredAt | src/private_still/private_still_impl.cpp:71-93 | each byte of the caller's space is the stream's byte at its place, 54 later in RGB mode, or untouched |
| StillCapture.OverflowIsFinal | src/private_still/private_still_impl.cpp:73-82 | after an overflow no later buffer has any effect |
| StillCapture.CompletionReported | src/private_still/private_still_impl.cpp:71-107 | for any buffers, completion is reported once for each that ends the image and before which the stream still fitted, and at no other time |
| StillCapture.CompletionDependsOnChunks | src/private_still/private_still_impl.cpp:71-107 | the same bytes complete in one buffer and never complete in two |
| StillCapture.Userdata.BufferCallback | src/private_still/private_still_impl.cpp:71-114 | the byte loop over the caller's array computes the specified storing of a buffer; a user callback is called exactly on completion, with the starting offset and the rest of the space |
| StillCapture.Userdata.constructor | src/private_still/private_still_impl.cpp:358-373 | the capture starts fresh at the given offset with the given limit |
| AudioQueue.CallbackDelivers | dependencies/mmal/components/sdl_audio_render.c:65-138 | a callback delivers the next min(requested, pending) bytes; buffers are returned in order as they are drained, with an event for each that ends the stream |
| AudioQueue.RoundShrinks | dependencies/mmal/components/sdl_audio_render.c:73-137 | each round uses up the request or shortens the queue, so the loop ends |
| AudioQueue.PlayQueue.Fill | dependencies/mmal/components/sdl_audio_render.c:73-137 | the drain loop over the device's array writes exactly the delivered bytes and leaves the rest of the array alone on underrun |
| Narrowing.CallbacksAgree | dependencies/mmal/components/sdl_audio_render.c:93-122 | a callback for 32-bit samples is one for twice as many bytes of 16-bit samples, converted afterwards, wherever buffers and requests are cut |
| Narrowing.NarrowAt | dependencies/mmal/components/sdl_audio_render.c:99-119 | the k-th sample of the output is the conversion of the k-th sample of the input |
| Narrowing.NarrowCallbackDelivers | dependencies/mmal/components/sdl_audio_render.c:93-122 | it delivers the next min(requested, pending / 2) bytes of the converted samples |
| SdlAudio.PlaybackIsPartitionIndependent | dependencies/mmal/components/sdl_audio_render.c:65-227 | for 16-bit and for 32-bit samples and any requests interleaved with any sends the output is a prefix of the payloads, or of their conversion, in send order, the rest is still queued, and each buffer was returned once, in order, or is still queued |
| SdlAudio.EveryBufferComesBack | dependencies/mmal/components/sdl_audio_render.c:65-227 | in every run of sends, callbacks and disablings the buffers returned, then those queued, are the buffers sent, in order and each once; a disabling leaves none queued; the end of the stream is announced exactly for drained buffers that end it |
| SdlAudio.DisableForgets | dependencies/mmal/components/sdl_audio_render.c:194-205 | what is played after a disabling depends only on what is sent after it |
| SdlAudio.UpperHalfIsShift | dependencies/mmal/components/sdl_audio_render.c:113-119 | the conversion of a 32-bit integer sample is the arithmetic shift by sixteen bits |
| SdlAudio.Handled | dependencies/mmal/components/sdl_audio_render.c:82-122 | which formats are played as they are, which converted and how, and which not |
| SdlAudio.StopsInTime | dependencies/mmal/components/sdl_audio_render.c:73-137 | for a format some branch handles the loop stops within as many rounds as bytes requested and buffers queued, where the specification says |
| SdlAudio.CallbackEndsExactlyWhen | dependencies/mmal/components/sdl_audio_render.c:73-137 | the whole callback ends if and only if a branch handles the format, or nothing was asked for, or no queued buffer holds data |
| SdlAudio.AcceptedUnhandled | dependencies/mmal/components/sdl_audio_render.c:82-160 | which formats the port accepts although no branch handles them, and which it consumes without playing them |
| SdlAudio.Renderer.FillStream | dependencies/mmal/components/sdl_audio_render.c:65-138 | the callback for 16-bit samples writes exactly the next pending bytes |
| SdlAudio.Renderer.FillStreamWide | dependencies/mmal/components/sdl_audio_render.c:93-122 | the callback for 32-bit samples writes exactly the conversion of the next pending samples |
| SdlAudio.Renderer.Disable | dependencies/mmal/components/sdl_audio_render.c:194-205 | disabling gives back, in order, every buffer still queued |
| AafAudio.StepChangesOutstanding | dependencies/mmal/components/aaf_audio_render.cpp:164-206 | of all steps only counting a buffer, finishing a callback and flushing a buffer change the bytes outstanding, by the buffer's length and by the bytes played |
| AafAudio.BytesConserved | dependencies/mmal/components/aaf_audio_render.cpp:331-421 | in every interleaving of senders, callback and flushes the counter is the bytes queued, in flight, in hand, played but not subtracted or just flushed, less what was outstanding when the latest flush zeroed it, modulo 2^32; it is right if and only if that was nothing |
| AafAudio.RightCounter | dependencies/mmal/components/aaf_audio_render.cpp:164-206 | a right counter that fits in 32 bits is not underflowed by the subtraction, and at rest is what is queued |
| AafAudio.BuffersConserved | dependencies/mmal/components/aaf_audio_render.cpp:164-343 | in every interleaving each buffer sent is, exactly once, queued, in flight, in hand or returned, so after a drain or flush with nobody holding one all have been returned |
| AafAudio.ZeroingKeepsExactlyWhen | dependencies/mmal/components/aaf_audio_render.cpp:340-342 | zeroing leaves the counter right if and only if no byte is outstanding at that step: none in the queue, in flight, in hand or played and not subtracted |
| AafAudio.UndisturbedFlush | dependencies/mmal/components/aaf_audio_render.cpp:331-343 | a flush that no other thread interrupts leaves the counter right if and only if nothing but the queue held bytes when it began |
| AafAudio.FlushBesideCallback | dependencies/mmal/components/aaf_audio_render.cpp:164-206 | a run in which a flush between copying and subtracting makes the counter wrap |
| AafAudio.SendBesideFlush | dependencies/mmal/components/aaf_audio_render.cpp:409-421 | a run in which a buffer sent between draining and zeroing is queued but not counted, with no byte in anyone's hands before or after |
| AafAudio.Renderer.TrackCallback | dependencies/mmal/components/aaf_audio_render.cpp:164-206 | the callback plays the next min(space, queued) bytes in order, returns the buffers it drains, and lowers the counter by just those bytes |
| AafAudio.Renderer.FlushPort | dependencies/mmal/components/aaf_audio_render.cpp:331-343 | everything queued is returned in order and the counter is zero |
| CopyComponent.PumpsInOrder | dependencies/mmal/components/copy.c:50-136 | in every run inputs and outputs are accounted for in the order sent, each once; a copy puts the input's bytes and metadata in an output that is large enough; nothing crosses while the output port waits for its format |
| CopyComponent.NothingCrosses | dependencies/mmal/components/copy.c:205-264 | between the format event that makes the output port wait and the commit that answers it no buffer is copied, dropped or taken |
| CopyComponent.LosesExactlyWhen | dependencies/mmal/components/copy.c:50-136 | in every run without flushes the k-th data input meets the k-th output; both are lost if and only if that output is too small, else the output gets the input's bytes; so nothing is lost if and only if every output met is large enough |
| CopyLaws.StepCopies | dependencies/mmal/components/copy.c:97-129 | whenever it can copy, a call does: the first input's bytes and metadata go to the first output, and both back |
| CopyLaws.StepIdles | dependencies/mmal/components/copy.c:50-102 | a call does nothing exactly if the output port waits, there is no input, or the first input is data without an output or after an error |
| CopyLaws.StepTakesEvent | dependencies/mmal/components/copy.c:64-88 | an event is taken and answered; only a change of format changes anything, and leaves an error exactly if it could not be carried out |
| CopyLaws.LoopProgresses | dependencies/mmal/components/copy.c:133-136 | the loop stops only for one of these reasons or after a loss |
| CopyLaws.LoopCopies | dependencies/mmal/components/copy.c:50-136 | with n data inputs and m outputs that can hold them the loop copies the k-th input to the k-th output for the first min(n, m), leaving one queue empty |
| CopyLaws.OutputFollows | dependencies/mmal/components/copy.c:205-249 | when the output port must follow the input format and size: at once while disabled, else by an event after which it waits, and otherwise the commit fails and changes nothing |
| CopyLaws.OutputCommits | dependencies/mmal/components/copy.c:252-264 | a commit on the output port ends the waiting exactly if it is for the input's format |
| CopyLaws.EveryBufferComesBack | dependencies/mmal/components/copy.c:50-196 | in every run each buffer sent to a port is still queued there, was given back on that port, or was lost, exactly once |
| CopyComponent.Component.DoProcessing | dependencies/mmal/components/copy.c:50-130 | the in-place step computes the specified one, gives back the headers it is done with - inputs with length 0 - and sends an error event exactly when it sets the error status |
| CopyComponent.Component.ProcessingLoop | dependencies/mmal/components/copy.c:133-136 | the loop ends, and computes the iterated step |
| CopyComponent.Component.CommitInputFormat | dependencies/mmal/components/copy.c:205-249 | the output format follows at once, or by an event with the input's format and buffer size that makes the port wait, or not at all |
| CopyComponent.Component.FlushPort | dependencies/mmal/components/copy.c:173-187 | everything queued on the port goes back in order |

## Left out

- ClockComponent.Clock.ControlUpdate: does not model 64-bit wrap-around of the products inside the control loop; they are mathematical integers, as overflow there is undefined in C.
- ClockComponent.Clock.ProcessInput: the filter length of a new stream is a field; its computation from the client's frame rate is not modelled.
- ClockComponent.Clock.ProcessEvent: update and request thresholds only go to the clock ports and appear as one event without effect; passing settings on to the ports, and stopping and starting them, is not part of this model.
- FrameRateLog.LogRoundsUp: stated on 32-bit words; the control loop takes the logarithm as any number, so nothing else depends on it.
- Passthrough.Component.SendBuffer: sends are serialised; two threads sending on both ports at once are not modelled.
- BufferHeaders.HeaderPool.Recycle: the optional client callback of a pool is taken to be absent.
- BufferRefs.ApplyKeeps: runs in which a client closes a cycle of references by replicating are excluded; such headers would never be recycled.
- ZeroCopy.InputPinned: clients do not give up their only reference to a buffer while the component has it, and do not close a cycle of references by what they send.
- FrameGrab.PortUserdata.KeepWaiting: the wait loop is cut at the point where the thread blocks; which thread runs next is left open, so nothing is said about fairness.
- FrameLayout.CameraPort.FormatCommit: sizes are unbounded; 32-bit wrap-around for huge frames is not modelled.
- Narrowing.NarrowCallbackDelivers: the conversion of one floating-point sample is a parameter; integers are stored low byte first.
- SdlAudio.Renderer.SendBuffer: event buffers, which are discarded, and sends to a component in error are not modelled.
- AafAudio.Renderer.SendBuffer: the clock update that a send makes is not modelled.
- CopyComponent.Component.CommitInputFormat: formats are compared as a whole, and copying one to a disabled output port is taken to succeed; the buffer counts in the event are left out.
- User callbacks that call back into the library, and closing the camera while a grab waits.
- Component, port and connection creation, parameter commits, and I/O.
- The decoders, the video renderer, the scheduler, the splitter and the container reading side.
- Enum conversions, getters, clamping setters and the OpenCV wrappers: each is settled by reading one branch.
