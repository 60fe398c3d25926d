# Verified model of the camera, CAN and web gateway

The repository is a C program for an embedded board: it captures camera frames, runs an object
detector on them, streams and records H.264 video, and bridges CAN frames to TCP and HTTP clients.
This project models the parts of it whose correctness depends on state shared between threads, on
byte layouts, or on loops over arrays, and proves what those parts are for.

**The frame ring and its pipeline** (`Common`, `FrameRing`, `FrameOps`, `FrameRingClass`,
`AiPoolClass`, `VideoRecClass`, and the `Pipeline` files). A ring of 32 slots hands frame buffers from a
capture thread to an AI feeder, any number of inference workers, a render composer and a recorder,
by moving pointers. `FrameRingModel` and `FrameRingOps` give every operation as a function on a ring
value; the classes perform the same operations on arrays and fields. `Pipeline` is the transition system:
a state holds what each thread owns between two critical sections, a step is one critical
section, and the outcomes of allocation, decoding, inference, encoding and driver calls are arguments.
`PipelineInvariant` to `PipelineSafety` prove the invariant and the ownership books for every step, and
`PipelineTheorems` reads the results off: one owner per buffer, stable claims and exactly-once driver
buffers. `PipelineFlow` proves what becomes of each frame, and `PipelineOutcomes` reads that off: when it can be claimed,
who it is dropped for, when its data is given back, where its pictures end up, and that they fit their buffers. A run covers one lifetime of the
inference pool, any number of camera restarts, and every interleaving of the critical sections; `PipelineReload`
says exactly when the next lifetime is as good.

**H.264 framing and MP4** (`Bytes`, `AnnexB`, `Avcc`, `Boxes`, `Moov`, `BoxWriter`, `Recording`,
`RecMp4Class`, `Demux`, `ParameterSets`, `Playback`, `Fragments`). The writers are methods that emit bytes with sizes declared
in advance; they are proved equal to nested boxes, and an independent reader that trusts only declared sizes and
tables is proved to recover the units, times, key frame numbers, parameter sets, headers and fragment fields that went in.

**The live stream** (`StreamRing`, `StreamRuns`, `StreamClass`, `LiveStream`). A ring of 256 frames is broadcast to clients;
each client's run is interleaved with the producer's in every possible way.

**The self-contained cores.** `CanQueue` follows the CAN queue instruction by instruction, with torn
reads as a possible outcome; `TcpTx` covers the rotating transmit queue; `Yolo` and `Nms` the detector's
post-processing; `HttpConn` the connection output buffer; `Dbc` the signal extraction; `Config` the
saved configuration. The files ending in `Class` hold the same operations as classes that change their fields in place.

Nine properties the code does not have on all inputs are stated with the exact condition under which it does, each
with an input or a run on which it fails:

- buffers survive a reload of the inference pool: `PipelineReload.ReloadConservesIff`; a run that loses a picture
  is `PipelineReload.ReloadLosesPicture` (`PipelineTheorems.WriteBackLosesIff` is the single step);
- a frame survives storing and converting back: `Avcc.FrameRoundTrip`; a picture of 256 bytes does not, `Avcc.MistakenFrame`;
- the media data size is exact: `Recording.MdatSizeExactIff`; one byte of a failed write spoils it, `Recording.OneByteLeft`;
- the key table is exact: `Recording.KeysExactIff`; a key frame without any start code spoils it, with no disk
  error involved, `Recording.KeyWithoutUnits`;
- a client of an ended live session stops: `StreamRuns.OldClientReadsOnIff`; a run in which it reads on is
  `StreamRuns.OldClientReadsOn`;
- a TCP client receives only bytes addressed to it: `TcpTx.OwnBytesOnlyIff`; a run in which it does not is `TcpTx.StalePacketSent`;
- the fast class scan equals the plain one: `Yolo.FastScanAgreesIff`, with `Yolo.LeftoverClass` for a threshold of -2. The
  program itself never gets there: the pool start replaces a threshold that is not positive (source/ai/rknn_yolo.c:664);
- an unsigned signal decodes to its value: `Dbc.DecodedValueIff`; the top bit of a 64-bit signal does not, `Dbc.TopBitSet`;
- a saved configuration loads back: `Config.SaveLoadIff`; two entries of one name do not, `Config.TwoBitrates`.

Where the code and its comments differ, the model follows the code. The comment at
source/ai/rknn_yolo.c:377-378 says the slot of a job always still carries its frame: that holds in every run
modelled here (`PipelineTheorems.WriteBackAlwaysHits`), and it says nothing about a picture already in the
slot, which is what a pool reload can leave there (`PipelineReload.UnsafeReloadReached`). The cap at
source/video/rec_mp4.c:409-411 is checked on the byte-stream length although the stored form is longer;
`Recording.BoundedFits` shows the 32-bit offsets are safe all the same.

## Model

| member | source | states |
|---|---|---|
| FrameRingModel.FirstFit | source/video/frame_ring.c:70-80 | The pool search stops at the first buffer that is large enough: every entry before it is too small, and it reports the end only when all are. |
| FrameRingModel.TakeShelved | source/video/frame_ring.c:70-88 | A buffer taken has the capacity asked for and is the one thing that left the pool or came new from the heap; none is returned only when allocation failed. |
| FrameRingModel.PutShelved | source/video/frame_ring.c:90-100 | A returned buffer is shelved exactly once, in its pool or, without memory for a list node, on the heap; all other buffers stay as they were. |
| FrameRingModel.MaintainEffect | source/video/frame_ring.c:125-153 | The release pass loses and copies nothing: every buffer it detaches is in a pool, freed, or back with the driver, and the ring it leaves has nothing more to release. |
| FrameRingModel.MaintainIdempotent | source/video/frame_ring.c:125-153 | Running the release pass twice equals running it once, pools and books included. |
| FrameRingModel.FixedPointUnchanged | source/video/frame_ring.c:125-153 | On a ring at rest the pass changes nothing. |
| FrameRingOps.CaptureAtRest | source/video/video_stream.c:328-383 | The capture step on a ring at rest publishes the frame in a fresh slot exactly if that slot is empty and unclaimed; otherwise it only counts a drop. |
| FrameRingOps.EncodePick | source/video/frame_ring.c:237-247 | The slot picked for recording is displayed, still owns its NV12 picture, is newer than the cursor, and is the newest such slot; none is picked only if there is none. |
| FrameRingOps.SlotStepBooks | source/video/frame_ring.c:200-233 | Exchanging the contents of one slot moves exactly the difference in the books, and the release pass that follows moves nothing further. |
| FrameRingOps.ClearUpToBooks | source/video/frame_ring.c:361-373 | Emptying the slots for a camera restart loses no stage buffer and allocates none. |
| FrameRingOps.ClearUpToRaws | source/video/frame_ring.c:361-373 | It frees every heap copy of raw data in the slots, and gives no driver buffer back. |
| FrameRingImpl.FrameRing.constructor | source/video/frame_ring.c:18-23 | A new ring has 32 empty slots, empty pools, zero cursors and counters, and both modes off. |
| FrameRingImpl.FrameRing.BufTake | source/video/frame_ring.c:70-88 | In place: first fit unlinked from the pool or a fresh block, with the slots and control block untouched. |
| FrameRingImpl.FrameRing.BufPut | source/video/frame_ring.c:90-100 | In place: the buffer heads its pool, or is freed when no list node can be had. |
| FrameRingImpl.FrameRing.MaintainSlot | source/video/frame_ring.c:125-153 | Testing and releasing the four stages one after another on the changing slot gives what testing all of them up front would. |
| FrameRingImpl.FrameRing.Maintain | source/video/frame_ring.c:125-153 | The loop over the slots ends in the release pass of the ring value. |
| FrameRingImpl.FrameRing.ProduceSlot | source/video/frame_ring.c:157-168 | Reserves slot (produce_seq + 1) mod 32 after a release pass, and refuses it if any stage or claim remains. |
| FrameRingImpl.FrameRing.ProduceCommit | source/video/frame_ring.c:170-176 | In place: `FrameRingOps.ProduceCommit`, the raw of the frame before becoming releasable. |
| FrameRingImpl.FrameRing.Capture | source/video/video_stream.c:328-383 | In place: `FrameRingOps.Capture`. |
| FrameRingImpl.FrameRing.InferClaim | source/video/frame_ring.c:190-198 | A claim succeeds exactly on a published frame still in its slot with raw data while no restart is under way; only then a count rises, by one. |
| FrameRingImpl.FrameRing.InferUnclaim | source/video/frame_ring.c:200-209 | In place: `FrameRingOps.InferUnclaim`. |
| FrameRingImpl.FrameRing.DisplayCommit | source/video/frame_ring.c:225-233 | In place: `FrameRingOps.DisplayCommit`. |
| FrameRingImpl.FrameRing.EncodePick | source/video/frame_ring.c:237-247 | The scan over the array returns the newest eligible slot. |
| FrameRingImpl.FrameRing.EncodeAdvance | source/video/frame_ring.c:251-263 | Marks every slot up to the frame consumed and gives its NV12 picture back, unless it is on display; later slots keep their marks. |
| FrameRingImpl.FrameRing.EncodeSkip | source/video/frame_ring.c:265-269 | In place: `FrameRingOps.EncodeSkip`. |
| FrameRingImpl.FrameRing.SetAiActive | source/video/frame_ring.c:281-289 | In place: `FrameRingOps.SetAiActive`, which sets that mode and no other. |
| FrameRingImpl.FrameRing.SetRecActive | source/video/frame_ring.c:291-299 | In place: `FrameRingOps.SetRecActive`, which sets that mode and no other. |
| FrameRingImpl.FrameRing.TryQuiesce | source/video/frame_ring.c:375-393 | Clears the ring and lifts the claim ban exactly when no slot is claimed, leaving every slot empty, and leaves it alone otherwise. |
| Pipeline.NextClaim | source/ai/rknn_yolo.c:890-905 | The feeder claims the first claimable frame after its cursor; every frame it passed over could not be claimed. |
| PipelineInvariant.HeldSlot | source/video/frame_ring.c:190-209 | Claim stability: while a feeder, queue entry or worker holds the claim on a frame, the slot still carries that frame and its raw data, counts exactly that one claim, and has no picture yet. |
| PipelineSafety.RingInvStep | source/video/frame_ring.c:125-400 | Every critical section of every thread keeps the pipeline invariant: slot states, one claim per holder, the job queue, the cursors, the picture being drawn, and the ring at rest. |
| PipelineSafety.BooksStep | source/ai/rknn_yolo.c:166-214 | Every critical section keeps the count: each buffer ever allocated is in the books exactly once. |
| PipelineSafety.DriverStep | source/video/video_stream.c:328-409 | Every critical section keeps each driver buffer in exactly one place while the camera streams. |
| PipelineSafety.RunInv | source/video/frame_ring.c:1-421 | All three invariants hold in every state of every run from start-up. |
| PipelineTheorems.ExactlyOneOwner | source/video/frame_ring.c:70-153 | In every reachable state every RGB, NV12 or JPEG buffer ever allocated is in exactly one slot stage, pool entry, job, worker, composer or recorder, or freed once; no place holds anything else. |
| PipelineTheorems.QueueEntriesAreLive | source/ai/rknn_yolo.c:181-214 | Until a stopped pool is drained, with each queue operation and each drained entry one step, the array entries with a buffer are exactly the queued jobs, so draining by scanning the array gives up each exactly once. |
| PipelineTheorems.AlwaysAtRest | source/video/frame_ring.c:125-153 | After every critical section a further release pass would change nothing. |
| PipelineTheorems.SlotsInWindow | source/video/frame_ring.c:157-176 | An occupied slot i holds a frame congruent to i mod 32 among the last 32, and its claim count is the number of its holders. |
| PipelineTheorems.WriteBackAlwaysHits | source/ai/rknn_yolo.c:379-392 | A worker that finishes finds its frame in the slot, with its claim and no picture: the defensive branch is never taken. |
| PipelineTheorems.WriteBackLosesIff | source/ai/rknn_yolo.c:379-392 | A write-back keeps every buffer accounted for if and only if the slot has moved on, is unclaimed, or holds no picture yet. |
| PipelineTheorems.CaptureRefusedIff | source/video/frame_ring.c:157-168 | Capture drops a frame if and only if the frame 32 back is claimed, has unconsumed raw, has a picture newer than the display, is the displayed frame with an output left, or has NV12 a running recording has not consumed. |
| PipelineTheorems.NewestReadable | source/video/frame_ring.c:271-277 | The newest frame is readable until it is superseded or the restart clears the ring. |
| PipelineTheorems.PixelsStable | source/ai/rknn_yolo.c:454-523 | While the composer draws outside the lock, and unless the ring is cleared meanwhile, the slot keeps its frame and the very buffer drawn into. |
| PipelineTheorems.OutputsOrdered | source/video/frame_ring.c:225-269 | Displayed frames and frames stolen for recording strictly increase, and commits plus skipped frames equal the display cursor. |
| PipelineTheorems.DriverBufferOnce | source/video/video_stream.c:328-383 | While streaming or quiescing each driver buffer is queued in the driver, in the capture thread's hand, or in exactly one slot, so it is never queued twice for one dequeue. |
| PipelineTheorems.UnmapSafe | source/video/video_stream.c:386-409 | When the restart unmaps the driver's buffers no slot refers to one and no claim is held. |
| PipelineFlow.RunFlow | source/video/frame_ring.c:1-421 | In every state of every run the claim ban, the marks of feeder and recorder, the sizes known to each thread and the room in its buffers are as the frames require. |
| PipelineOutcomes.BannedOnlyInRestart | source/video/frame_ring.c:348-393 | Claims are banned only from the camera's stop until the ring has been cleared. |
| PipelineOutcomes.ClaimableIff | source/video/frame_ring.c:190-198 | While the camera streams, also after restarts, a captured frame can be claimed exactly as long as its raw data is there. |
| PipelineOutcomes.FeederTakesFirst | source/ai/rknn_yolo.c:890-905 | While the camera streams, the idle feeder's turn claims a frame exactly when one beyond its cursor has raw data, and then the first such frame. |
| PipelineOutcomes.ClaimsDrain | source/video/frame_ring.c:348-393 | While a restart waits no step adds a holder of any frame, so the claims only drain. |
| PipelineOutcomes.OutputsGivenBack | source/video/frame_ring.c:125-153 | In every reachable state a frame that is not on display has an NV12 picture only if a recording has not come to it, and no JPEG picture. |
| PipelineOutcomes.RawGivenBack | source/video/frame_ring.c:125-153 | Outside a restart, raw data that is neither the newest nor held by a thread belongs to a frame the feeder has not come to or, with detection off, a recording has not come to. |
| PipelineOutcomes.KeptWhileNeeded | source/video/frame_ring.c:125-153 | Nothing is given back early: in every run a slot that keeps its frame loses raw data only when it is not the newest, unclaimed, and reached by the feeder or else the recording; its RGB picture only when displayed; an NV12 picture only to the recorder, or off display and not waited for; a JPEG only off display. |
| PipelineOutcomes.DroppedIff | source/video/frame_ring.c:157-168 | In every reachable streaming state a frame is dropped exactly if the frame 32 before it is held by a thread, not reached by the feeder or recorder that needs it, newer than the display with its picture, or on display with an output. |
| PipelineOutcomes.PicturesFit | source/ai/rknn_yolo.c:890-936 | In every reachable state a slot's RGB picture has room for three bytes and its NV12 picture for one and a half bytes a pixel, as have the buffers of feeder, workers and composer, which all know the frame's size. |
| PipelineOutcomes.OutputsTaken | source/ai/rknn_yolo.c:454-523 | The composer gets an NV12 buffer large enough for the picture, and a JPEG buffer of at least 64 KiB exactly if somebody watches. |
| PipelineOutcomes.PictureWritten | source/ai/rknn_yolo.c:379-392 | A worker's picture arrives in the slot of its frame, unless that frame is already passed on display; the claim ends and no other slot changes. |
| PipelineOutcomes.FrameShown | source/video/frame_ring.c:225-233 | A commit makes the frame the displayed one; its slot then holds exactly the two outputs if drawing succeeded, else none, and the picture drawn into is given back. |
| PipelineOutcomes.RecorderTakesNewest | source/video/video_rec.c:81-105 | The recorder takes the newest picture it has not come to out of its slot, counts it as skipped when the size changed, and does nothing without one. |
| PipelineOutcomes.QueueIsFifo | source/ai/rknn_yolo.c:181-214 | The job queue hands the jobs out in the order they were put in. |
| PipelineOutcomes.NewestIsChosen | source/ai/rknn_yolo.c:439-445 | An idle composer that drains the queued results ends up with the newest. |
| PipelineOutcomes.EveryFrameCounted | source/video/frame_ring.c:170-209 | In every run each frame offered was published or counted as dropped, and each driver gap and undecodable frame was counted. |
| PipelineReload.ReloadConservesIff | source/ai/rknn_yolo.c:608-653 | From the moment a drained pool is started again, every buffer stays in exactly one place in all runs that follow if and only if no slot then has both its raw data and a picture. |
| PipelineReload.SafeReload | source/ai/rknn_yolo.c:608-653 | Such a reload re-establishes every pipeline invariant, so all results about one pool lifetime hold for the next one. |
| PipelineReload.UnsafeReloadReached | source/ai/rknn_yolo.c:608-653 | A run from program start reaches the other case: one frame is captured, claimed, decoded and written back, and the pool is stopped while the newest raw data is still kept. |
| PipelineReload.ReloadLosesPicture | source/ai/rknn_yolo.c:379-392 | After that run and the reload, further steps lead to a state in which a buffer is no longer in exactly one place. |
| PipelineReload.ReloadReclaims | source/ai/rknn_yolo.c:649-649 | After a reload resets the cursor, the oldest frame with raw data is claimed again even if its slot owns a picture, and the write-back then loses that picture. |
| AiPoolImpl.AiPool.QueuePush | source/ai/rknn_yolo.c:181-196 | Appends a job unless the pool was stopped, in which case the queue is unchanged and the caller keeps the job. |
| AiPoolImpl.AiPool.QueuePop | source/ai/rknn_yolo.c:198-214 | Takes the oldest job and disowns its array entry. |
| AiPoolImpl.AiPool.ResultPush | source/ai/rknn_yolo.c:218-233 | Appends a result unless the pool was stopped. |
| AiPoolImpl.AiPool.ResultTryPop | source/ai/rknn_yolo.c:236-249 | Takes the oldest result, or reports that there is none. |
| AiPoolImpl.AiPool.NewestResult | source/ai/rknn_yolo.c:439-445 | The drain loop empties the result queue and returns the result pushed last. |
| AiPoolImpl.AiPool.ClaimNext | source/ai/rknn_yolo.c:890-905 | The claim loop claims the first claimable frame after the cursor and leaves the cursor just before it. |
| AiPoolImpl.AiPool.Abandon | source/ai/rknn_yolo.c:166-177 | In place: `Pipeline.Abandon`. |
| AiPoolImpl.AiPool.WriteBack | source/ai/rknn_yolo.c:379-392 | In place: `Pipeline.WriteBack`, both branches. |
| AiPoolImpl.AiPool.Drain | source/ai/rknn_yolo.c:632-639 | Stopping the pool abandons each array entry that owns a buffer once and leaves the queues empty. |
| AiPoolImpl.DrainIsScan | source/ai/rknn_yolo.c:608-639 | Scanning the job array in one loop is the pipeline's shutdown steps one after the other. |
| AiPoolImpl.AiPool.RenderPick | source/ai/rknn_yolo.c:441-471 | A result is drawn only if it is newer than the last one drawn and its slot still has the picture; then output buffers of the right size are taken. |
| AiPoolImpl.AiPool.RenderCommit | source/ai/rknn_yolo.c:505-522 | In place: `Pipeline.RenderCommit`, all three branches. |
| VideoRecImpl.VideoRec.TakeAiFrame | source/video/video_rec.c:81-104 | Steals the NV12 buffer of the newest unconsumed frame and moves the cursor strictly forward; a frame of another size is consumed without being taken. |
| AnnexB.NalFind | source/video/h264_stream.c:192-206 | Finds the next start code of three or four bytes and the offset behind it. |
| AnnexB.FindIsFirst | source/video/h264_stream.c:192-206 | No start code begins before the one found. |
| AnnexB.WalkJoin | source/video/h264_stream.c:210-226 | Walking units without embedded start codes and trailing zeros, joined by 3- or 4-byte start codes in any mix, reports exactly those units (sections 7.4.1 and B.1.1 of ITU-T H.264). |
| AnnexB.WalkTiles | source/video/rec_mp4.c:120-136 | Conversely, any stream that begins with a start code is tiled without gap by the start codes and units the walk reports. |
| AnnexB.UnitsPrefixed | source/video/h264_encoder.c:183-225 | Reading 4-byte lengths recovers the units of a length-prefixed sample. |
| AnnexB.VclMeaning | source/video/h264_stream.c:246-258 | What a fragment keeps of a frame are exactly its slices of types 1 and 5 (table 7-1 of ITU-T H.264). |
| Avcc.AvccSize | source/video/h264_stream.c:246-258 | The size pass counts exactly the bytes of the sample. |
| Avcc.AvccWrite | source/video/h264_stream.c:260-279 | The write pass puts the sample at its offset, as many bytes as the size pass counted, and touches nothing else. |
| Avcc.AvccToAnnexB | source/video/h264_encoder.c:183-225 | The converter's two index loops agree on the length and produce the byte stream; it returns nothing exactly for empty input, lack of memory, or no complete unit. |
| Avcc.SniffedIff | source/video/h264_encoder.c:183-190 | A sample is mistaken for a byte stream exactly when its first unit is a single byte below 128 or 256 to 383 bytes long. |
| Avcc.SampleRoundTrip | source/video/h264_encoder.c:183-225 | Storing, converting and walking a list of clean units gives it back if and only if it is not mistaken for a byte stream or all units are single bytes. |
| Avcc.FrameRoundTrip | source/video/h264_encoder.c:183-225 | The whole journey of a frame returns its picture units if and only if there are none, all are single bytes, or the first one does not have a length that reads as a start code. |
| Avcc.MistakenFrame | source/video/h264_encoder.c:183-225 | A frame whose one unit is a picture of 256 bytes does not come back. |
| Boxes.FindHit | source/video/rec_mp4.c:77-81 | A reader that walks boxes by declared size stops at a box of the type it looks for, with exactly its contents (section 4.2 of ISO/IEC 14496-12). |
| Boxes.FindSkip | source/video/rec_mp4.c:77-81 | It passes over a box of another type to precisely the next one. |
| BoxWriting.TrakHeadIs | source/video/rec_mp4.c:174-280 | The sizes precomputed for the nested boxes of a track are the sizes of what they contain. |
| BoxWriting.BoxWriter.PutAvcConfig | source/video/h264_stream.c:418-430 | The decoder configuration is a box of the announced size around both parameter sets. |
| BoxWriting.BoxWriter.PutMoov | source/video/rec_mp4.c:151-321 | For all parameter sets, sample and key counts, every size declared in the movie header equals the bytes written under it. |
| BoxWriting.BoxWriter.BuildInit | source/video/h264_stream.c:284-455 | The same for the initialisation segment. |
| BoxWriting.BoxWriter.BuildFragment | source/video/h264_stream.c:469-521 | A fragment is built exactly when the frame has picture data and memory suffices; its declared sizes are the real ones. |
| Recording.RunLaid | source/video/rec_mp4.c:405-448 | After any calls that leave nothing behind in the file, the accepted frames tile the media data from offset 36 with no gap, each where its table entry says. |
| Recording.RunLength | source/video/rec_mp4.c:405-448 | In any run, failed calls included, the file is 36 bytes, the accepted frames and what failed writes left behind; the running length counts the accepted frames alone. |
| Recording.MdatSizeExactIff | source/video/rec_mp4.c:450-472 | The patched media data size ends where the movie header begins if and only if no failed write left bytes behind. |
| Recording.StoredBound | source/video/rec_mp4.c:324-333 | The stored form of any byte stream is at most a third longer than it. |
| Recording.BoundedFits | source/video/rec_mp4.c:409-411 | With frames of at most 2 MiB no offset or size reaches 2^32, although the cap is checked on the unexpanded length. |
| Recording.KeyNumbersMeaning | source/video/rec_mp4.c:422-430 | The key table of the accepted frames lists exactly the key frames, strictly increasing within 1..N (section 8.6.2 of ISO/IEC 14496-12). |
| Recording.RunKeys | source/video/rec_mp4.c:422-438 | In any run the key table has one entry for each accepted key frame and each key frame within the limits whose write fails or which has no unit. |
| Recording.KeysExactIff | source/video/rec_mp4.c:422-438 | The table lists exactly the accepted key frames if and only if no key frame within the limits met a failing write or had no unit to store; both can be told from the call and the limits. |
| Recording.LostFails | source/video/rec_mp4.c:422-438 | Those guards single out exactly the calls that leave a key entry behind and return an error. |
| Recording.NoUnitsIff | source/video/rec_mp4.c:120-136 | A frame has no unit exactly if it contains no start code. |
| Recording.KeyWithoutUnits | source/video/rec_mp4.c:422-438 | An empty key frame leaves an entry for sample 1 in a table of no samples, without any error of disk or memory. |
| Recording.OneByteLeft | source/video/rec_mp4.c:450-472 | After a failed write that got one byte out, the patched size ends one byte before the movie header. |
| Recording.RunSets | source/video/rec_mp4.c:383-403 | In any run the session keeps, of all units of frames within the limits, the first one of 4 to 64 bytes for each of the two kinds. |
| Recording.AcceptedIff | source/video/rec_mp4.c:405-448 | A call succeeds exactly within 200000 samples and 3500 MiB, with memory for its table entries, an intact disk, and a start code in the frame. |
| Recording.RunTimes | source/video/rec_mp4.c:433-445 | In any run the session remembers the time stamps of the first and the last accepted frame. |
| Recording.SpanMeaning | source/video/rec_mp4.c:460-466 | The recorded time is the time between those two. |
| Recording.PlayingTime | source/video/rec_mp4.c:460-472 | The sample duration is the average interval: played in units of 1/90000 s the recording falls behind the clock by less than a millisecond a frame; without an interval of at least a millisecond it is 1/30 s. |
| Recording.SetsFit | source/video/rec_mp4.c:383-403 | In any run the saved parameter sets are absent or 4 to 64 bytes long, as the header's fields need. |
| Demux.UnprefixPrefixed | source/video/rec_mp4.c:324-333 | Removing length prefixes returns the units, empty ones included. |
| Demux.FinalLayout | source/video/rec_mp4.c:450-485 | A finished file is the file type box, one media data box around all samples, and the movie header. |
| Demux.DemuxRecording | source/video/rec_mp4.c:405-485 | Muxing then demuxing is the identity: a reader that maps each sample through the chunk table to its chunk offset and the sizes before it recovers the units of every accepted frame in order, each sample lasting the average interval, and the key table (sections 8.6.1.2, 8.6.2, 8.7.3, 8.7.4 and 8.7.5 of ISO/IEC 14496-12). |
| Demux.DemuxBounded | source/video/rec_mp4.c:405-485 | For frames of at most 2 MiB and no call that failed midway this holds with no further condition, and the keys are exactly those of the frames. |
| ParameterSets.RecordingSets | source/video/rec_mp4.c:255-286 | A reader finds in a finished recording the picture size, the profile bytes, the 4-byte length prefix and the parameter sets of the session, for a movie header below 2^32 bytes. |
| ParameterSets.RecordingSetsBounded | source/video/rec_mp4.c:255-286 | For frames of at most 2 MiB and no call that failed midway, it finds the size given at the start, the first usable set of each kind among all units offered, and the profile of the first; width and height below 65536. |
| ParameterSets.InitSegmentSets | source/video/h264_stream.c:284-455 | A reader finds the same description of the session in the initialisation segment. |
| Playback.RecordingHeaders | source/video/rec_mp4.c:151-254 | The headers of a finished recording announce one enabled video track of the given size in units of 1/90000 s, whose duration is the sum of its sample durations, in a movie as long as the recorded time in milliseconds (sections 8.2.2, 8.3.2, 8.4.2 and 8.4.3 of ISO/IEC 14496-12). |
| Playback.RecordingPlays | source/video/rec_mp4.c:151-485 | All readers together, for frames of at most 2 MiB without midway failure: headers, description and samples of a finished recording are those of the accepted frames. |
| Playback.InitSegmentHeaders | source/video/h264_stream.c:284-455 | A live client is announced an endless video track of the given size in units of 1/90000 s, and the track its fragments belong to. |
| Fragments.Layout | source/video/h264_stream.c:469-521 | Number, decode time and run lie where the nested sizes lead, and the first sample byte is at offset 108 (section 8.8.8 of ISO/IEC 14496-12). |
| Fragments.FragmentRoundTrip | source/video/h264_stream.c:469-521 | A reader that goes by the flags of the boxes gets back track, number, key flag, 64-bit time, duration and the sample, by way of the data offset in the run (sections 8.8.7, 8.8.8 and 8.8.12 of ISO/IEC 14496-12). |
| RecMp4Impl.NalWalk | source/video/rec_mp4.c:120-136 | The walking loop reports the units of the byte stream in order. |
| RecMp4Impl.ToTicks | source/video/rec_mp4.c:463-472 | An average interval becomes 90 ticks per millisecond in 32 bits, never zero; no interval gives the 30 fps default. |
| RecMp4Impl.RecMp4.constructor | source/video/rec_mp4.c:337-380 | A new session has the file type box and the header of an empty media data box, 36 bytes. |
| RecMp4Impl.RecMp4.SaveSets | source/video/rec_mp4.c:383-403 | The first usable parameter set of each kind is kept, later ones are ignored. |
| RecMp4Impl.RecMp4.StoreUnits | source/video/rec_mp4.c:324-333 | Every unit is appended behind its length, and the 32-bit count is the number of bytes modulo 2^32. |
| RecMp4Impl.RecMp4.WriteFrame | source/video/rec_mp4.c:405-448 | The call on the session object is the step of the recording model in all outcomes: refused, no memory at either table, failed write, accepted. |
| RecMp4Impl.RecMp4.Finalize | source/video/rec_mp4.c:450-485 | Succeeds exactly when there are samples and both parameter sets, and then patches the size and appends the header; otherwise the file is untouched. |
| StreamRing.EvictedOk | source/video/h264_stream.c:568-575 | Eviction makes room and leaves the ring a window of everything ever queued. |
| StreamRing.PushFrameOk | source/video/h264_stream.c:555-590 | After a rejected, a failed and an accepted push alike, the ring holds consecutive newest frames in circular order. |
| StreamRing.PushCounts | source/video/h264_stream.c:555-590 | Each non-empty frame of at most 2 MiB in a session is counted once, as queued or as dropped for lack of memory. |
| StreamRuns.ConfigStarts | source/video/h264_stream.c:525-553 | A session starts with the next session number, an empty ring, and each given parameter set of at most 64 bytes. |
| StreamRing.NewestKey | source/video/h264_stream.c:690-709 | The frame joined on is a key frame and no later one in the ring is. |
| StreamRing.LookIsLog | source/video/h264_stream.c:751-775 | A frame a client gets is the one queued under the number it asked for; it gets one exactly when the ring still or already has that number, and is turned away exactly when stopped, in another session, or asking for a frame that was pushed out. |
| StreamRuns.NextOk | source/video/h264_stream.c:525-820 | Every step of producer and client keeps the invariant between ring, log and client, and the log only grows. |
| StreamRuns.RunBounds | source/video/h264_stream.c:555-590 | In every run the queued frames are non-empty and at most 2 MiB with 32-bit time stamps, and the fallback duration is at most one second. |
| StreamRuns.ClientSeesConsecutive | source/video/h264_stream.c:690-818 | In every interleaving a client consumes frames with consecutive numbers from the key frame it joined on, each once and unaltered, and sends their fragments numbered from 1 without a gap. |
| StreamRuns.JoinsNewestKey | source/video/h264_stream.c:690-709 | A client looking for a key frame is turned away exactly when stopped or out of session, else joins at the newest key frame held, and waits exactly when none is. |
| StreamRuns.ClosedIff | source/video/h264_stream.c:741-820 | A connection is closed exactly when the client leaves, the stream stops, its session is over, it has fallen behind the ring, memory for a fragment is missing, or a write fails. |
| StreamRuns.AvailableIsTaken | source/video/h264_stream.c:751-818 | A frame that is there is taken: with picture data it is on its way to the client, without it is passed over; otherwise the client waits. |
| StreamRuns.StopIsFinal | source/video/h264_stream.c:690-760 | After a stop every client that looks again is closed, in every run. |
| StreamRuns.RingHoldsNewest | source/video/h264_stream.c:525-605 | In every state the ring holds exactly numbers next_seq - count to next_seq - 1, each at its circular place. |
| StreamRuns.OldClientReadsOnIff | source/video/h264_stream.c:525-605 | After an end, a start and any number of new frames, a client of the old session reads on if and only if its session number was 1, it had read everything, and 1 to 256 frames were pushed: equal session numbers do not mean the same session. |
| StreamRuns.OldClientReadsOn | source/video/h264_stream.c:525-605 | A run from the start in which a client joins one session and its second frame belongs to the next. |
| LiveStream.FragmentReads | source/video/h264_stream.c:469-521 | One fragment reads back as its number, key flag, the picture units of its frame, and a decode time of 90 ticks for each millisecond since the frame joined at. |
| LiveStream.ShownMeaning | source/video/h264_stream.c:741-818 | The frames shown are exactly the consumed ones with picture data, in order. |
| LiveStream.PlayerSeesPictures | source/video/h264_stream.c:741-818 | End to end, in every interleaving, the j-th fragment a client was sent reads as number j + 1, the picture units of the j-th frame shown, decode time 90 ticks a millisecond since the frame joined at (0 for that frame itself), and as duration 90 ticks for each millisecond since the frame before if those are 1 to 499, else the fallback. |
| H264StreamImpl.H264Stream.PushConfig | source/video/h264_stream.c:525-553 | Starts a session in place: next session number, empty ring, and no change to what was queued before. |
| H264StreamImpl.H264Stream.PushFrame | source/video/h264_stream.c:555-590 | Queues a copy under the next number; a full ring loses its oldest frame even when the copy then fails. |
| H264StreamImpl.H264Stream.PushEnd | source/video/h264_stream.c:592-605 | Resets the session number to 0 and empties the ring. |
| H264StreamImpl.H264Stream.CollectSets | source/video/h264_stream.c:230-242 | Each kind of parameter set is filled from the first unit of its kind that fits. |
| H264StreamImpl.H264Stream.FindKey | source/video/h264_stream.c:690-709 | The backward scan returns the newest key frame in the ring. |
| H264StreamImpl.H264Stream.Peek | source/video/h264_stream.c:751-775 | Computes the array position of the frame after the cursor; the entry found there is the one queued under that number. |
| H264StreamImpl.StreamClient.TakeNext | source/video/h264_stream.c:751-806 | One turn of the client loop: the fragment in the buffer is that of the next frame, numbered one up, and none is built for a frame without picture data. |
| CanQueue.NextKeeps | source/can/can_queue.c:45-103 | Every single instruction of every producer and of the consumer keeps the invariant over lock, semaphores, indices, slots and deliveries. |
| CanQueue.ReadersSlot | source/can/can_queue.c:45-103 | While the consumer reads a slot, a producer in the middle of a push writes a different one. |
| CanQueue.FifoInEveryRun | source/can/can_queue.c:45-103 | In every interleaving pops deliver what was queued, whole, in order, each once; at most 64 frames are held; and the semaphores plus operations in flight sum to 64. |
| CanQueue.RefinesFifo | source/can/can_queue.c:45-103 | Step by step the queue refines a bounded FIFO; the consumer's wait fails exactly on an empty queue, a producer's exactly when queued frames and a pop in flight fill all 64 slots. |
| CanQueueImpl.Queue.Push | source/can/can_queue.c:45-77 | Appends the frame, or reports the held lock or the full queue and changes nothing. |
| CanQueueImpl.Queue.Pop | source/can/can_queue.c:80-103 | Removes and returns the oldest frame, or reports an empty queue. |
| CanQueueImpl.Queue.Count | source/can/can_queue.c:106-112 | The number of frames held. |
| TcpTx.PassHeadKeeps | source/tcp/tcp_server.c:172-208 | Examining one queued packet keeps every client's byte order, whether it is handed over, sent back or dropped. |
| TcpTx.FlushKeeps | source/tcp/tcp_server.c:150-211 | Through any partial sends, stalls, errors and rotations the flush keeps the byte order of every client, and a packet it leaves belongs to a connected client with unsent bytes. |
| TcpTx.EveryClientServed | source/tcp/tcp_server.c:98-211 | In every run of pushes, flushes, connects and disconnects, bytes sent, buffered and queued for a client without send error are, in order, what was queued for its table entry when it connected and then the packets addressed to it. |
| TcpTx.ConnectionHistory | source/tcp/tcp_server.c:314-341 | While a connection lasts, what is recorded as addressed to it is exactly the data of the packets accepted for its entry since it connected. |
| TcpTx.OwnBytesOnlyIff | source/tcp/tcp_server.c:314-341 | At any later moment of a connection without send error, the bytes sent, buffered and queued for it are exactly the packets accepted since it connected if and only if none was queued for its table entry when it connected. |
| TcpTx.StalePacketSent | source/tcp/tcp_server.c:314-341 | A run of connect, push, disconnect, connect and flush in which the second client is sent the first one's packet. |
| TcpTx.FlushDelivers | source/tcp/tcp_server.c:150-211 | With sockets that take what they are offered one flush empties the queue and delivers to every healthy client all it inherited and all that was addressed to it. |
| TcpTx.AddMeaning | source/tcp/tcp_server.c:314-329 | A connection is refused exactly when all allowed entries are taken, and otherwise gets the first free one with an empty buffer. |
| TcpTx.WithinLimit | source/tcp/tcp_server.c:314-341 | In every run all connected clients are within the allowed part of the table. |
| TcpImpl.TcpQueue.Push | source/tcp/tcp_queue.c:14-25 | Appends a packet exactly if its length is within limits and the queue is not full. |
| TcpImpl.TcpQueue.Peek | source/tcp/tcp_queue.c:28-34 | Shows the oldest packet without removing it. |
| TcpImpl.TcpQueue.Pop | source/tcp/tcp_queue.c:37-45 | Removes and returns the oldest packet. |
| TcpImpl.TcpServer.FlushTx | source/tcp/tcp_server.c:150-211 | The two loops over client table and queue perform the flush, and no packet is left for a client that could have taken it. |
| TcpImpl.TcpServer.PushPacket | source/tcp/tcp_server.c:98-127 | One addressed packet is queued or refused as a whole. |
| TcpImpl.TcpServer.ClientAdd | source/tcp/tcp_server.c:314-329 | Takes the first free table entry below the limit with an empty buffer, or refuses the connection. |
| TcpImpl.TcpServer.ClientDel | source/tcp/tcp_server.c:331-341 | Frees the entry; its unsent bytes are never sent, as a new client of the entry starts with an empty buffer. A wrong index changes nothing. |
| Yolo.BestIsMaximum | source/ai/yolo_postprocess.c:148-174 | The running comparison ends with the maximum and, among equals, the lowest class. |
| Yolo.DecodedIff | source/ai/yolo_postprocess.c:148-174 | A decoded box, mapped forward through the letterbox, has the edges of the model's box on all four sides; without a scale it is that box. |
| Yolo.CandidatesMeaning | source/ai/yolo_postprocess.c:148-174 | Every candidate is the decoded box of its anchor with the best class and score, not oversized and not below the threshold; every anchor with such a box is listed, in order, until the list of 32 is full. |
| Yolo.ScanAnchors | source/ai/yolo_postprocess.c:148-174 | The anchor-major loop lists the decoded candidates in anchor order, the first 32 of them. |
| Yolo.ScanRow | source/ai/yolo_postprocess.c:175-200 | One class row updates every anchor's best score and class as if classes had been compared per anchor. |
| Yolo.ScanClasses | source/ai/yolo_postprocess.c:175-200 | The class-major loops over reused buffers list the candidates, with the class left over from an earlier call where no score exceeded -1. |
| Yolo.FastScanAgreesIff | source/ai/yolo_postprocess.c:148-200 | The fast scan lists the same candidates as the anchor-major one if and only if no listed anchor shows a left-over class, which needs a threshold of -1 or less. |
| Yolo.LeftoverClass | source/ai/yolo_postprocess.c:175-200 | With a threshold of -2 an anchor whose only score is -1.5 is listed with the class left over from an earlier call. |
| Yolo.FastScanAgrees | source/ai/yolo_postprocess.c:148-200 | For every threshold above -1 both scans agree, ties and the 32-candidate cut-off included. |
| Yolo.LayoutIndependent | source/ai/yolo_postprocess.c:203-228 | The anchor-first layout yields the candidates of the transposed tensor. |
| Nms.InsertInPlace | source/ai/yolo_postprocess.c:63-73 | One round of the shifting loop puts an element behind all of equal or higher score and leaves the rest of the array alone. |
| Nms.SortInPlace | source/ai/yolo_postprocess.c:63-73 | The in-place insertion sort sorts the first n candidates and leaves the rest alone. |
| Nms.SortedIsStablePermutation | source/ai/yolo_postprocess.c:63-73 | The result is a permutation in descending score that keeps the order of equal scores. |
| Nms.Overlaps | source/ai/yolo_postprocess.c:79-97 | The pairwise test with its early exits decides same class and overlap beyond the threshold. |
| Nms.MarkFrom | source/ai/yolo_postprocess.c:79-97 | The inner loop marks exactly the later candidates that a kept one suppresses. |
| Nms.Finish | source/ai/yolo_postprocess.c:59-102 | Sorting, marking and copying return the greedy survivors, best first, up to the limit. |
| Nms.KeptApart | source/ai/yolo_postprocess.c:75-101 | No two boxes returned for one class overlap beyond the threshold. |
| Nms.DroppedCovered | source/ai/yolo_postprocess.c:75-101 | If the limit was not reached, every dropped candidate overlaps a kept one of its class and of at least its score. |
| Nms.DroppedCoveredWithRoom | source/ai/yolo_postprocess.c:75-101 | The same whenever the limit is at least the number of candidates. |
| Nms.Select | source/ai/yolo_postprocess.c:75-101 | The selection loop over the sorted candidates keeps, up to the limit, each one that no kept one suppresses. |
| Nms.SurvivorsMeaning | source/ai/yolo_postprocess.c:59-102 | The detections are candidates in descending score, no two of one class overlapping beyond the threshold; unless the limit cut them off, every other candidate overlaps a detection of its class with at least its score. |
| Nms.SuppressesIff | source/ai/yolo_postprocess.c:79-97 | One box suppresses another exactly if they are of one class and the part of the plane in both has an inside and more than the given fraction of the area covered by either. |
| Nms.DetectionsComeFromAnchors | source/ai/yolo_postprocess.c:104-229 | Every detection is the decoded box of some anchor that passes the threshold. |
| Nms.Postprocess | source/ai/yolo_postprocess.c:142-229 | Whichever scan the layout and size select, over buffers with any left-over contents, the detections are the survivors of the anchor-major candidates for every threshold above -1. |
| Nms.SameDetections | source/ai/yolo_postprocess.c:104-229 | All three scans lead to the same detections. |
| HttpConn.DrainConserves | source/http/http.c:250-281 | Whatever the socket and the file do, a drain loses and invents no byte, and a connection it leaves open has unsent bytes to come back for. |
| HttpConn.WrittenIsPrefix | source/http/http.c:208-281 | For every pattern of partial writes, stalls, failures and wake-ups the bytes written are a prefix of the response; a connection that finished has written all of it, in the announced length. |
| HttpConn.DrainMoves | source/http/http.c:250-281 | A wake-up whose first write succeeds increases the bytes written. |
| HttpConn.EnoughWakeUpsClose | source/http/http.c:250-281 | As many such wake-ups as there are bytes left close the connection. |
| HttpConn.ClosedMeansDelivered | source/http/http.c:208-281 | As long as memory, disk and socket do not fail and the buffer limit is kept, a connection is closed only when its whole response has been written. |
| HttpConn.BufferHolds | source/http/http.c:208-246 | In every run what is buffered fits the buffer. |
| HttpConn.WriteLoopBudget | source/http/http.c:250-281 | One turn of the write loop stops within a megabyte and one write. |
| HttpConnImpl.HttpConnection.Append | source/http/http.c:208-226 | Appends to the buffer, or closes the connection when the buffer limit or memory is exceeded. |
| HttpConnImpl.HttpConnection.ServeStream | source/http/http.c:363-384 | Appends the header and hands the file over to the connection. |
| HttpConnImpl.HttpConnection.SrcFill | source/http/http.c:229-246 | Reads the source into the free part of the buffer; a short file closes the connection. |
| HttpConnImpl.HttpConnection.WriteOut | source/http/http.c:250-281 | The write loop within its budget performs the writes of the model one by one. |
| HttpConnImpl.HttpConnection.Drain | source/http/http.c:250-281 | Writing and refilling alternate until the socket is full or the response ends; terminates because the source shrinks. |
| Dbc.BitIsLe | source/can/dbc_parser.c:23-32 | Bit n of the frame, counted as the code counts it, is bit n of the little-endian integer of its bytes. |
| Dbc.ExtractIntel | source/can/dbc_parser.c:23-32 | The bit loop computes floor(little-endian integer / 2^start) mod 2^len and reads only bytes of the frame. |
| Dbc.ExtractMotorola | source/can/dbc_parser.c:34-43 | The descending bit loop is the ascending one on the frame with the bits of every byte reversed, ending at the same position. |
| Dbc.ReversedBit | source/can/dbc_parser.c:34-43 | Bit 7 - k of a byte is bit k of the reversed byte. |
| Dbc.SignExtension | source/can/dbc_parser.c:171-175 | Setting all higher bits yields the 64-bit pattern of the field's two's-complement value. |
| Dbc.DecodeRaw | source/can/dbc_parser.c:150-180 | A signal is decoded exactly if its length is 1 to 64 and all its bits lie within the frame; the value is its field, sign-extended where due. |
| Dbc.DecodedValueIff | source/can/dbc_parser.c:150-190 | The raw value read as a signed number, as the physical value is computed, is the number the signal stands for, except exactly for an unsigned 64-bit signal with its top bit set. |
| Dbc.TopBitSet | source/can/dbc_parser.c:150-190 | An unsigned signal over eight bytes of which only the top bit is set decodes to -2^63. |
| Config.LoadOfSave | source/core/config.c:60-232 | Loading a saved configuration with named interfaces restores every setting in range, and for interfaces what their lines, folded in order into the first entry of their name, amount to. |
| Config.SaveLoadIff | source/core/config.c:60-232 | It rebuilds the same configuration if and only if every interface has a name and no two share one, apart from repetitions that carry no settings. Words are atomic here: a database path with a blank, or any value with a `#`, does not survive the real reader. |
| Config.TwoBitrates | source/core/config.c:60-232 | A configuration in range with two entries of one name, each with a bitrate, does not come back. |
| Config.SaveLoad | source/core/config.c:60-232 | Every configuration in range whose interfaces have distinct, non-empty names survives saving and loading, filters in order and optional fields included. |
| Config.InRangeNumber | source/core/config.c:60-160 | A number survives exactly if it is within its clamp, and for the thread count also a multiple of 3. |
| Config.LoadAlwaysInRange | source/core/config.c:60-160 | Whatever the file says, after loading every number is in its range, the thread count a multiple of three, and there are at most 8 named interfaces with at most 16 filters each. |
| Config.ClampedNearest | source/core/config.c:118-141 | A number out of range becomes the nearest one in range. |
| Config.LastNumberCounts | source/core/config.c:60-150 | Of several lines for one number the last counts. |
| ConfigImpl.AppConfig.LoadLine | source/core/config.c:60-150 | One line changes the field or the first interface it names and nothing else. |
| ConfigImpl.AppConfig.LoadFile | source/core/config.c:60-160 | The reading loop and the final defaults build the loaded configuration. |
| ConfigImpl.AppConfig.SaveFile | source/core/config.c:162-232 | The printing loops emit the lines in the order of the file. |
| ConfigImpl.AppConfig.PrintIfaces | source/core/config.c:162-232 | Each interface's settings follow one another, with its filters in order. |

## Left out

- Camera, NPU, codec, netlink, socket, epoll and file calls are replaced by arbitrary outcomes; re-queueing a driver buffer is taken to succeed.
- Sleeps, pacing, wall clocks and condition-variable timeouts: a wait is a step that is enabled when its condition holds.
- frame_ring_quiesce_force_clear, claims dropped after it, and the order of unmapping after a quiesce timeout: claims are not protected there.
- Drawing that overlaps a restart's clear: the picture under the composer's hands is promised only while no clear happens between pick and commit.
- frame_ring_display_pick_locked and frame_ring_wait_render, which the composer's path does not use, and frame_ring_destroy.
- PipelineTheorems.ExactlyOneOwner: one pool lifetime at a time; PipelineReload.ReloadConservesIff says exactly when the next lifetime keeps it.
- PipelineReload.ReloadConservesIff: for a feeder that is between two frames and no camera restart under way while the pool is reloaded.
- PipelineTheorems.QueueEntriesAreLive: stopping the pool clears the running flag and scans the job array without the queue lock, and the feeder is not joined, so a push already past its check can land behind the scan and lose its buffer; here a push and the test before it are one step.
- Pixel contents, the `len` fields of buffers, image conversion, drawing, smoothing and the detections carried with a result.
- Sequence numbers are unbounded; the 64-bit cursor that starts one before the key frame is an integer that may be -1.
- That the composer shows the newest frame available: it draws the result popped last, which need not be the newest.
- Growing a byte buffer is an append that succeeds or fails; the reallocation itself is not modelled.
- Demux.DemuxRecording: for files whose stored data and movie header stay below 2^32 bytes, which is what 32-bit offsets can express; Demux.DemuxBounded discharges the condition.
- Demux.DemuxBounded: for runs without a call that failed after it had made a key entry or written bytes; Recording.KeysExactIff and Recording.MdatSizeExactIff say what such calls do.
- LiveStream.PlayerSeesPictures: for connections of fewer than 2^32 frames, as the fragment number has 32 bits.
- Fragments.FragmentRoundTrip: for values that fit their 32- and 64-bit fields.
- File names and directories of recordings.
- Playback.RecordingPlays, ParameterSets.RecordingSetsBounded: for width and height below 65536, which is what their fields hold; Described in ParameterSets.RecordingSets takes them modulo 65536.
- Profile bytes of a parameter set shorter than 4 bytes, which the initialisation segment takes from stale memory, are read as zero.
- Trimming of parameter sets while scanning encoder output (`h264_scan`), and the codec string.
- Semaphore errors of the CAN queue other than "would block", its timed use by the sender, and the order of CAN transmission, which a full bus changes.
- TcpTx.EveryClientServed: the write buffer is a sequence; moving its rest to the front in memory is not modelled, and a broadcast is one push per client.
- Reading the tensor's shape in `post_single_head`, and floating-point rounding: scores and boxes are real numbers.
- Requests, routing, authentication, idle timeouts and uploads of the HTTP server, and appending after a file was handed over.
- Dbc.DecodeRaw: for start positions of at least 0 with Intel order; negative ones make the code read in front of the frame.
- Dbc.ExtractMotorola: states the bit mapping of the code, which is not the bit order of the DBC format.
- Parsing of DBC text, and scaling to physical values.
- Config.SaveLoad: at the level of words on a line; printing and scanning of characters, values or lines longer than the reader's buffers, and rounding of thresholds to percents are not modelled.
- Logging, JSON, CPU binding, the watchdog, the front end and the scripts.
