# The dataflow core of the AI Streams SDK, modelled and proved in Dafny

The SDK is a C++ client for a streaming service. Beneath its gRPC and GStreamer wrappers lies a small
concurrent dataflow system, and some byte-level transformations. This project models both:

- **The bounded queue.** `BoundedFifo` is what an atomic queue would answer. `QueueMonitor` is the
  mutex-and-two-condition-variables algorithm as a step relation for any number of threads, with
  timeouts and spurious wakeups. `ProducerConsumerQueues` is the queue as a class whose operations,
  with all their waits, are proved to be runs of that relation.
- **The receiving pipeline.** `PacketReceivers` is the receiver with its four modes; `ReceiverPipeline`
  is the background worker that moves its packets into a queue, and the callback loop;
  `QueuedPipeline` is the same on the real queue.
- **The video exporter.** `VideoExporter` is the source, saver and uploader with their channels, the
  disk and the bucket; `LocalVideoSaver` and `GcsUploader` are the two work loops; `VideoChunks` says
  how frames are cut into files; `ExporterOutcomes` is what a finished saver has saved and how it can
  fail to; `ExporterUploads` is which files get into the bucket; `ExporterHistory` is what the steps
  of a run have dropped, ended and removed; `ExporterWorks` is that everything can be exported;
  `Completion` is the completion protocol of the exporter's `Run`; `ExporterRun` puts the data plane
  and that protocol together, and `ExporterFlags` is what the completion flags then mean.
- **The decoded receiver.** `DecodedReceiver`, `DecodedHistory` (what the packets and images of a run
  have become) and `RawImageYielders`.
- **Transformations.** `ImagePadding` (RGB row padding), `Ppm` (image files), `FilePath` (path
  joining), `RawImages` (image sizes and packets), with the arithmetic they need in `Arithmetic`.
- **Two small machines.** `StatusOrDatas` (a union with hand-managed lifetimes) and `Backoff`.

Concurrent parts are step relations whose labels name the thread that moves and every outcome that the
program does not control; theorems about them hold after every finite sequence of enabled labels.
Objects that the source updates in place are classes, and its loops are methods with loops.

## What the code does, where its comments say something else

- `receivers.h` promises that what arrives is ordered and gapless, and is data or EOS. A stream that the
  server ends with an OK status makes `Receive` succeed without a packet, and the worker then queues
  default-constructed packets. `ReceiverPipeline.BlankDeliveredIff` gives the exact condition; ordering
  and gaplessness hold in any case.
- `decoded_receivers.cc` says that a decoded image recovers the header of its own frame head. The
  first packet is fed without queueing its header, so the first image never does
  (`DecodedReceiver.FirstHeaderIsLost`). Whether images are given the headers of other frames
  depends on how fast the decoder is: `DecodedReceiver.NoForeignHeaderIff` gives the exact condition.
- The EOS that the yielder reports is a NotFound status, while `PushImagePacket` looks for
  ResourceExhausted: it answers with an error, and nothing is queued either way
  (`DecodedReceiver.PushImagePacket`).
- `Feed` retries the push of a header until it fits and does not look at the consumer meanwhile. With a
  full header queue and a decoder that wants more input before its next image, `Work` waits for good
  (`DecodedReceiver.FeedGetsOnIff`, `SomeFeedNeedsAnImage`).
- A completion signal is complete before its worker starts, and the saver looks only at that flag after
  a pop that timed out; it also stops, in success, when its destination looks completed. By either
  guard it can leave frames in its channel, and `Run` can still return OK
  (`ExporterRun.RunOkWithFrameLost`, `RunOkWithFrameLostAtDestination`). All accepted frames are saved
  if and only if no image is left (`ExporterOutcomes.AllSavedIffNoImageLeft`, `CompleteStreamSavedIff`);
  `AllSavedIffNoneAtStop` says it of the moment at which the saver stops.
- An uploading exporter can return OK although a file is not in the bucket: a failed upload only starts a
  new connection, and a path is not forwarded when its channel is full
  (`ExporterRun.RunOkWithUploadFailed`). `ExporterUploads.UploadedIff` says which files are there.
- A file loop that meets the end of its input before any frame still forwards a path, the empty one:
  exactly when the saver stops after a multiple of the maximal number of frames
  (`ExporterOutcomes.EmptyPathIff`; `NO_PATH` is the empty path).
- A source that queues an error other than NotFound makes the saver abort the process
  (`ExporterOutcomes.SomeRunAbortsIff`).
- The background threads push their last EOS with a blocking operation. If the consumer lets go of a
  queue that is full, or that will be, they block forever: `ReceiverPipeline.AbandonedWorkerBlocksIff`
  and `DecodedReceiver.AbandonedWorkFinishesIff` say exactly when.
- `FromPpmFile` does not look at the version or the maximal color value, and takes the whole file for
  pixels when the header ends the file (`Ppm.HeaderTakenForPixels`).

## Model

| member | source | states |
|---|---|---|
| BoundedFifo.ReplayIsFifo | aistreams/util/producer_consumer_queue.h:80-86 | any history an atomic queue accepts is first-in first-out (pushes are pops followed by what is left) and stays within a limited capacity |
| QueueMonitor.NoLostWakeupInAnyRun | aistreams/util/producer_consumer_queue.h:139-232 | in every run of any number of blocking and timed operations no wakeup is lost; sleeping producers and consumers are never stuck together, consumers sleep for good only on an empty queue and producers only on a full one |
| QueueMonitor.RunsRefineFifo | aistreams/util/producer_consumer_queue.h:139-232 | every interleaving is linearizable in lock order: its outcomes are those of an atomic bounded queue with the current contents, pushes are pops followed by the contents, and a limited queue is never overfull |
| QueueMonitor.AcceptedHistoryHappens | aistreams/util/producer_consumer_queue.h:64-93 | the converse: every history that an atomic bounded queue accepts is the history of a run, with any operations that may give its answers |
| QueueMonitor.ReturnMovesOneElement | aistreams/util/producer_consumer_queue.h:64-93 | an operation that answers true has moved exactly one element; one that answers false leaves contents, other threads and every TryPush pointer alone, and was right to |
| QueueMonitor.WakeupsSentDrainQueue | aistreams/util/producer_consumer_queue.h:189-232 | if a consumer sleeps, running only consumers that were already woken delivers every queued item in order |
| QueueMonitor.PopByWokenConsumer | aistreams/util/producer_consumer_queue.h:196-232 | one woken consumer can take the oldest item, and consumers still sleep afterwards and none has been woken in addition |
| QueueMonitor.WakeupsSentFillQueue | aistreams/util/producer_consumer_queue.h:139-232 | if a producer sleeps, running only producers that were already woken fills every free slot and pops nothing |
| QueueMonitor.PushByWokenProducer | aistreams/util/producer_consumer_queue.h:139-194 | one woken producer can push its own element, and producers still sleep afterwards and none has been woken in addition |
| QueueMonitor.OneAnswerPerCall | aistreams/util/producer_consumer_queue.h:139-225 | through any number of sleeps and wakeups in its wait loop, and whatever others do, an operation returns with exactly one answer of its own kind (the blocking ones never refuse), or is still under way with none |
| QueueMonitor.StepKeepsInv | aistreams/util/producer_consumer_queue.h:139-232 | every step keeps: wakeups not lost, threads asleep on their own side, pending pointers owned, history explained by an atomic queue |
| QueueMonitor.RunKeepsInv | aistreams/util/producer_consumer_queue.h:139-232 | the same after any run |
| QueueMonitor.ProducerKeepsWakeups | aistreams/util/producer_consumer_queue.h:139-194 | a producer's pass through the lock, with its Signal, loses no wakeup |
| QueueMonitor.ConsumerKeepsWakeups | aistreams/util/producer_consumer_queue.h:196-232 | a consumer's pass through the lock, with its Signal, loses no wakeup |
| QueueMonitor.WakeKeepsWakeups | aistreams/util/producer_consumer_queue.h:176-218 | a timeout or spurious return of a Wait loses no wakeup |
| QueueMonitor.SectionEvent | aistreams/util/producer_consumer_queue.h:139-232 | a step that returns adds one event, and it is the one that the atomic queue would give |
| QueueMonitor.SectionWaitsIff | aistreams/util/producer_consumer_queue.h:139-225 | a pass ends in a Wait exactly if it is an Emplace, or a TryPush with time left, on a full queue, or a Pop, or a TryPop with time left, on an empty one; with no time left a timed operation always returns |
| QueueMonitor.SleeperTimesOut | aistreams/util/producer_consumer_queue.h:176-218 | a timeout or spurious return wakes its sleeper and changes nothing else, and a timed operation whose time has run out then returns |
| ProducerConsumerQueues.ProducerConsumerQueue.constructor | aistreams/util/producer_consumer_queue.h:112-118 | a new queue is the initial state of the step relation |
| ProducerConsumerQueues.ProducerConsumerQueue.Count | aistreams/util/producer_consumer_queue.h:123-127 | the count, which is within a limited capacity |
| ProducerConsumerQueues.ProducerConsumerQueue.Emplace | aistreams/util/producer_consumer_queue.h:139-149 | the whole call, whatever the others do during its waits, is a run of the monitor into the state that they determine; it pushes its element once, or is asleep on the not-full side with no answer yet |
| ProducerConsumerQueues.ProducerConsumerQueue.TryEmplace | aistreams/util/producer_consumer_queue.h:151-162 | one pass is the monitor's step; false without side effects exactly on a full queue, never asleep |
| ProducerConsumerQueues.ProducerConsumerQueue.TryPush | aistreams/util/producer_consumer_queue.h:164-187 | the whole call is a run of the monitor; it answers true once having pushed, false only on a full queue at a test that found no time left, and sleeps only on a full queue if every test found time left; the pointer is emptied exactly on success |
| ProducerConsumerQueues.ProducerConsumerQueue.Pop | aistreams/util/producer_consumer_queue.h:196-203 | the whole call is a run of the monitor; it takes the element that was then the oldest, once, or is asleep on the not-empty side |
| ProducerConsumerQueues.ProducerConsumerQueue.TryPop | aistreams/util/producer_consumer_queue.h:205-232 | the whole call is a run of the monitor; it takes the oldest element once, answers false only on an empty queue at a test that found no time left, and sleeps only on an empty queue if every test found time left |
| ProducerConsumerQueues.WaitTurn | aistreams/util/producer_consumer_queue.h:145-145 | one Wait, with everything that others do meanwhile, is a run that leaves the operation under way and without an answer |
| ProducerConsumerQueues.LastPass | aistreams/util/producer_consumer_queue.h:189-232 | the pass that does not wait returns with the one answer that the contents call for |
| PacketReceivers.RepliesComeFromOneStream | aistreams/base/packet_receiver.cc:208-294 | in every mode, over any number of calls, the replies come in order: from the one stream chosen by mode and first answer, or from one RPC each in unary mode; a streaming receiver settles on its stream at the first call, keeps its reader and disposes of the other at most once |
| PacketReceivers.UnaryReplies | aistreams/base/packet_receiver.cc:227-241 | in unary mode the i-th Receive succeeds if and only if the i-th RPC answers with a packet, which it delivers; a failed RPC gives its own code and an invalid response NotFound |
| PacketReceivers.StreamingReplies | aistreams/base/packet_receiver.cc:244-271 | in the streaming modes the i-th Receive gives the i-th packet of the stream and, after the last, the status that the stream ended with; auto mode uses the replay stream if and only if the live one is empty and out of range |
| PacketReceivers.ReceiveStep | aistreams/base/packet_receiver.cc:244-294 | the n-th Receive of a streaming mode answers with the n-th reply of the chosen stream and keeps that state |
| PacketReceivers.FallBackStep | aistreams/base/packet_receiver.cc:248-258 | a first Receive in auto mode that finds the live stream empty and ended by OUT_OF_RANGE answers from the replay stream |
| PacketReceivers.OffsetIsSentIff | aistreams/base/packet_receiver.cc:221-234 | the n-th unary request carries the offset if and only if the option to reset it is set and every RPC before it failed |
| PacketReceivers.AfterIsUsable | aistreams/base/packet_receiver.cc:281-294 | whenever a call may dispose of a reader both contexts are there; at most one disposal ever happens |
| PacketReceivers.ReceiveFrom | aistreams/base/packet_receiver.cc:244-271 | a Receive ends after at most one retry, because the first-call flag is consumed, and leaves a usable receiver |
| PacketReceivers.SuccessWithoutPacket | aistreams/base/packet_receiver.cc:208-261 | a Receive reports success without a packet if and only if it comes after the packets of a stream that ends with OK; never in unary mode |
| PacketReceivers.PacketReceiver.constructor | aistreams/base/packet_receiver.cc:74-111 | Initialize in any mode, where all RPCs open, sets up the state after zero calls |
| PacketReceivers.PacketReceiver.DisposeUnusedClientReader | aistreams/base/packet_receiver.cc:281-294 | drops the reader and the context of the mode not in use and touches nothing else |
| PacketReceivers.PacketReceiver.StreamingReceiveImpl | aistreams/base/packet_receiver.cc:244-271 | the method is the transition function, including its retry |
| PacketReceivers.PacketReceiver.UnaryReceiveImpl | aistreams/base/packet_receiver.cc:208-242 | OK and the packet if and only if the RPC answers with one, its code if it fails, NotFound if its response is not valid; the request carries the offset if and only if the option is set and every RPC before it failed |
| PacketReceivers.PacketReceiver.Receive | aistreams/base/packet_receiver.cc:273-279 | the n-th call gives the n-th reply of the mode, said without the receiver's state |
| PacketReceivers.PacketReceiver.Subscribe | aistreams/base/packet_receiver.cc:185-206 | the callback sees consecutive packets until its first kCancelled or the first failing Receive, whose status is returned; other answers do not stop it |
| ReceiverPipeline.OrderedAndGapless | aistreams/base/wrappers/receivers.h:57-67 | in every interleaving, for any sequence of replies: popped, then queued, then held is exactly what the successful Receives yielded; at most one synthetic EOS, last, after a failed Receive |
| ReceiverPipeline.DeliveredIsPrefix | aistreams/base/wrappers/receivers.h:62-67 | if the n-th Receive is the first to fail, the pops are a prefix of the items before it and the EOS, and all of them once the EOS has been delivered and the queue drained |
| ReceiverPipeline.DeliveredIsPrefixOfStream | aistreams/base/wrappers/receivers.h:62-67 | in a streaming mode, for a stream that ends with an error, these items are the packets of the stream |
| ReceiverPipeline.DeliveredIsPrefixOfAnswers | aistreams/base/wrappers/receivers.h:62-67 | in unary mode, if the first n RPCs answer with packets and the next one does not, the pops are a prefix of those packets and the EOS, and all of them once the EOS has been delivered and the queue drained |
| ReceiverPipeline.StepKeepsInv | aistreams/base/wrappers/receivers.cc:73-98 | every step of worker and consumer keeps received = popped + queued + held (+ EOS) |
| ReceiverPipeline.RoundDelivers | aistreams/base/wrappers/receivers.cc:78-96 | from an idle worker, one round delivers exactly the next item |
| ReceiverPipeline.SomeRunDelivers | aistreams/base/wrappers/receivers.cc:78-96 | whatever Receives yield before the first failure some run delivers: the safety claims are not vacuous |
| ReceiverPipeline.BlankDeliveredIff | aistreams/base/wrappers/receivers.cc:80-91 | a consumer can be handed a packet that the server never sent if and only if some Receive succeeds without a packet before any fails |
| ReceiverPipeline.BlankDeliveredIffStreamEndsOk | aistreams/base/wrappers/receivers.cc:80-91 | on a packet receiver: if and only if the mode is a streaming one and the server ends the stream with OK |
| ReceiverPipeline.AbandonedWorkerBlocksIff | aistreams/base/wrappers/receivers.cc:78-97 | once the consumer has let go, the worker never exits if and only if the queue is full and it is pushing its EOS or its Receive under way will fail; it makes at most three more steps in any case |
| ReceiverPipeline.SomeWorkerBlocksForever | aistreams/base/wrappers/receivers.cc:78-97 | a run that ends with such a worker, in a state in which nothing can happen any more |
| ReceiverPipeline.Worker | aistreams/base/wrappers/receivers.cc:73-98 | the loop over a receiver object is the worker of the step relation: whatever the consumer does between any two things it does, its variables and the queue are those of the pipeline after these turns; pushed and held are in order the items of its successful Receives, then its EOS, and it exits only after that or when the consumer has let go |
| ReceiverPipeline.ScriptedIsRun | aistreams/base/wrappers/receivers.cc:73-98 | any such turns of worker and consumer are a run of the pipeline, so that all its theorems are about this loop |
| ReceiverPipeline.EveryRunIsScripted | aistreams/base/wrappers/receivers.cc:73-98 | and every run of the pipeline consists of such turns, with the consumer's steps after the last |
| ReceiverPipeline.PushEos | aistreams/base/wrappers/receivers.cc:83-90 | the blocking push of the EOS ends at its first attempt that finds room |
| ReceiverPipeline.ReceivePackets | aistreams/base/wrappers/receivers.cc:103-140 | the callback gets every popped packet once and in order, an EOS for each timeout, and nothing after its first kCancelled |
| QueuedPipeline.RunSimulates | aistreams/base/wrappers/receivers.cc:73-98 | every run of the pipeline on the real queue, with the worker and any number of consumers as threads of the monitor, has the effect of a run on an atomic queue |
| QueuedPipeline.AtomicRunHappens | aistreams/base/wrappers/receivers.cc:73-98 | the converse: every run of the pipeline with an atomic queue is what some run on the real queue does, with any consumer thread and either kind of pop |
| QueuedPipeline.SameDeliveries | aistreams/base/wrappers/receivers.cc:73-98 | what consumers can be delivered on the real queue is exactly what they can be delivered on an atomic one |
| QueuedPipeline.StepSimulates | aistreams/base/wrappers/receivers.cc:73-98 | every step on the real queue is one step of the pipeline with an atomic queue, or none |
| QueuedPipeline.OrderedAndGapless | aistreams/base/wrappers/receivers.h:57-67 | ordered and gapless delivery on the real queue, under every schedule of passes, sleeps, wakeups and timeouts |
| QueuedPipeline.StuckIffInAnyRun | aistreams/base/wrappers/receivers.cc:73-98 | after any run, nobody can move without a timeout or a new call if and only if the worker waits on a full queue with no consumer inside an operation, or it has exited and any consumers wait on an empty queue |
| QueuedPipeline.AbandonedInEmplace | aistreams/base/wrappers/receivers.cc:83-90 | a consumer may let go while the worker waits to push its EOS into a full queue; whatever is then woken or times out, the worker never exits |
| VideoChunks.ChunksCut | aistreams/gstreamer/gstreamer_video_exporter.cc:561-616 | the greedy cut loses no frame, has files of 1 to max frames, all but the last full, ceil(n / max) of them |
| VideoChunks.ChunksOfFull | aistreams/gstreamer/gstreamer_video_exporter.cc:561-616 | full files followed by the cut of the rest are the cut of the whole |
| VideoExporter.FilesAreChunksOfFrames | aistreams/gstreamer/gstreamer_video_exporter.cc:557-657 | in every interleaving the flushed files are the greedy cut of a prefix of the popped frames, and of all of them, in ceil(n / max) files, once the saver has finished without error |
| VideoExporter.NoVideoLost | aistreams/gstreamer/gstreamer_video_exporter.cc:618-645 | every flushed file is on disk or in the bucket with its frames, on disk if local files are kept; the attempted paths are a prefix of the forwarded ones, no path is forwarded twice, and the empty one only as the last |
| VideoExporter.DeletionHasAReason | aistreams/gstreamer/gstreamer_video_exporter.cc:803-809 | a file leaves the disk exactly by a successful removal, either of the file whose own writing failed or of one that has just been uploaded, without keep_local |
| VideoExporter.UploadsWereAttempted | aistreams/gstreamer/gstreamer_video_exporter.cc:783-801 | whatever is in the bucket was attempted by the uploader |
| ExporterOutcomes.AllSavedIffNoImageLeft | aistreams/gstreamer/gstreamer_video_exporter.cc:557-657 | a saver that finishes without error has saved every accepted frame if and only if it has left no image in the channel |
| ExporterOutcomes.CompleteStreamSavedIff | aistreams/gstreamer/gstreamer_video_exporter.cc:566-579 | if the accepted images end in their only EOS, all are saved if and only if that EOS was popped or is all that is left |
| ExporterOutcomes.AllSavedIffNoneAtStop | aistreams/gstreamer/gstreamer_video_exporter.cc:568-644 | a saver that ends in success has saved every accepted frame if and only if, when it stopped, no image was in the channel, and none is accepted afterwards |
| ExporterOutcomes.FramesLostOnlyByLeavingEarly | aistreams/gstreamer/gstreamer_video_exporter.cc:568-644 | frames stay behind only if the saver left by one of two guards: a timed-out pop with the source completed, or a completed destination |
| ExporterOutcomes.FramesLeftBehindByTimeOut | aistreams/gstreamer/gstreamer_video_exporter.cc:568-575 | a run in which the first guard ends the saver in success with a frame still queued |
| ExporterOutcomes.FramesLeftBehindByDestination | aistreams/gstreamer/gstreamer_video_exporter.cc:631-644 | a run without any timeout in which the second guard does |
| ExporterOutcomes.EmptyPathIff | aistreams/gstreamer/gstreamer_video_exporter.cc:561-640 | the path about to be forwarded is empty if and only if the saver has stopped after a multiple of max frames |
| ExporterOutcomes.EmptyPathOnceAndLast | aistreams/gstreamer/gstreamer_video_exporter.cc:628-640 | the empty path is forwarded at most once, last, and only after a multiple of max frames |
| ExporterOutcomes.EmptyPathForwarded | aistreams/gstreamer/gstreamer_video_exporter.cc:561-640 | a run that forwards the empty path and nothing else |
| ExporterOutcomes.SomeRunAbortsIff | aistreams/gstreamer/gstreamer_video_exporter.cc:576-583 | a source that offers given items, of which only the last may be an EOS, can make the process abort if and only if one of them is an error |
| ExporterUploads.UploadedIff | aistreams/gstreamer/gstreamer_video_exporter.cc:628-640 | in every interleaving with forwarding, a flushed file is in the bucket, with its frames, if and only if its path was taken by the uploader and its upload did not fail; and if and only if its path was not omitted, has not failed and is not under way |
| ExporterUploads.StepKeepsWhereabouts | aistreams/gstreamer/gstreamer_video_exporter.cc:628-801 | every step keeps: a flushed file's path is about to be forwarded, forwarded or omitted, and an attempted one is uploaded or failed, never two of these |
| ExporterHistory.ItemDroppedIff | aistreams/gstreamer/gstreamer_video_exporter.cc:318-325 | after any run both channels are within their capacity, and an offered item is dropped if and only if the items accepted and not popped are as many as the channel can hold |
| ExporterHistory.SaverStopsIff | aistreams/gstreamer/gstreamer_video_exporter.cc:564-644 | in any run the saver has an error if and only if a write has failed, and starts no other file if and only if it has popped an EOS, or a completion flag was found set, or it has got past a failed write; the path it then removes is empty if and only if the first image of a file was not converted |
| ExporterHistory.NothingLeftAtTimeOut | aistreams/gstreamer/gstreamer_video_exporter.cc:566-575 | a pop times out only when every item accepted has been popped, so a saver that then stops leaves behind only what is accepted afterwards |
| ExporterHistory.NothingOmittedWithRoom | aistreams/gstreamer/gstreamer_video_exporter.cc:628-655 | in any run the EOS is in the path channel only behind all paths, when the saver is done; with room for all, a path is omitted only if the destination was found completed, and a done saver has delivered its EOS unless the uploader has stopped |
| ExporterHistory.UploaderDuties | aistreams/gstreamer/gstreamer_video_exporter.cc:749-813 | in any run the uploader connects once and once more after each failed upload, tries to remove each uploaded file without keep_local and none with it, ends with an error if and only if a connection could not be made, and in success if and only if it gave up or took the EOS |
| ExporterWorks.SomeRunExports | aistreams/gstreamer/gstreamer_video_exporter.cc:557-813 | whatever frames the source offers, some run saves them all, cut into files, omits nothing, uploads every file (and removes it without keep_local), and ends in success, with no failed upload but that of the empty path |
| ExporterWorks.SaverTakesNext | aistreams/gstreamer/gstreamer_video_exporter.cc:564-645 | wherever the saver has got to without an error or a reason to stop, it can go on by itself to pop the oldest item of its channel |
| ExporterRun.RunOkMeansExported | aistreams/gstreamer/gstreamer_video_exporter.cc:941-994 | end to end, with the flags that the workers look at being the signals of the others: if Run returns OK, all popped frames are in files, no file is lost or forwarded twice, all accepted frames are in files if and only if no image is left in the channel, all forwarded paths were attempted if and only if none is left, and an uploading exporter has a file in the bucket if and only if its path was not omitted, is not left in the channel, and its upload did not fail |
| ExporterRun.RunOkWithFrameLost | aistreams/gstreamer/gstreamer_video_exporter.cc:941-994 | a run in which Run returns OK although the only frame is in no file: the saver gave up on a source that had not been started |
| ExporterRun.RunOkWithFrameLostAtDestination | aistreams/gstreamer/gstreamer_video_exporter.cc:631-644 | a run in which Run returns OK with a frame left behind at the other guard: the uploader gave up on a saver that had not been started, and the saver stopped after its first file |
| ExporterRun.RunOkWithUploadFailed | aistreams/gstreamer/gstreamer_video_exporter.cc:783-795 | a run in which Run returns OK with both channels empty and the only file not in the bucket: its upload failed |
| ExporterRun.NextKeepsInv | aistreams/gstreamer/gstreamer_video_exporter.cc:217-226 | every step of the data plane and of the completion protocol keeps: a worker whose WorkImpl has returned ended its loop with what it returned |
| ExporterFlags.SetFlagIsFinal | aistreams/gstreamer/gstreamer_video_exporter.cc:130-141 | in any run a completion flag is found set only of a worker that was not started or has ended, the uploader's only if it has ended; and one that has ended adds nothing to its channel and takes nothing from one any more |
| ExporterFlags.UnsetFlagMeansRunning | aistreams/gstreamer/gstreamer_video_exporter.cc:130-141 | a completion flag is found unset only of a worker that was started and has not ended |
| ExporterFlags.SavedAfterFlagIff | aistreams/gstreamer/gstreamer_video_exporter.cc:566-575 | a saver that stops because a started source looks completed, and ends in success, has saved every frame ever accepted if and only if no image was in its channel at that moment |
| VideoExporter.StepKeepsInv | aistreams/gstreamer/gstreamer_video_exporter.cc:557-813 | every step of source, saver and uploader keeps the channel, naming, safety and chunking invariants |
| VideoExporter.SaverKeepsFiles | aistreams/gstreamer/gstreamer_video_exporter.cc:593-645 | no saver step loses a flushed file or forwards a file twice |
| VideoExporter.UploaderKeepsFiles | aistreams/gstreamer/gstreamer_video_exporter.cc:783-809 | no uploader step loses a flushed file or mixes up two files |
| VideoExporter.SaverKeepsChunks | aistreams/gstreamer/gstreamer_video_exporter.cc:561-646 | every saver step keeps the files and the open one in line with the frames popped |
| LocalVideoSaver.NextItem | aistreams/gstreamer/gstreamer_video_exporter.cc:566-575 | the pop loop skips only timeouts of a running source, and yields the next item or, once the source is complete, a NotFound |
| LocalVideoSaver.FillFile | aistreams/gstreamer/gstreamer_video_exporter.cc:562-616 | one file holds the frames popped meanwhile but for one that could not be written; it has a path from the first converted image on; it is full unless the input ended, a write failed, or an error item came, and each of these ends it at once |
| LocalVideoSaver.TakeImage | aistreams/gstreamer/gstreamer_video_exporter.cc:566-615 | one image more, the end of the input, a failed write, or an abort, as the poll that was not a timeout of a running source says |
| LocalVideoSaver.WriteImage | aistreams/gstreamer/gstreamer_video_exporter.cc:583-615 | an image is written unless it cannot be converted, its file cannot be created (which is tried for the first image only), or it cannot be put |
| LocalVideoSaver.WorkImpl | aistreams/gstreamer/gstreamer_video_exporter.cc:557-657 | the loop over files goes on past every poll but the last one used; success is the end of the input or the first completed destination, and the files are then the greedy cut of all frames popped; failure is a failed write, whose file is removed (the empty path exactly if its first image was not converted), and the files hold all frames but those of that file; paths are sent in order, all of them but one found completed; then the EOS; an error item aborts; a non-positive maximum is refused |
| GcsUploader.WorkImpl | aistreams/gstreamer/gstreamer_video_exporter.cc:749-813 | each popped path is attempted once and in order; the files in the bucket are exactly the popped ones that were on disk and that the bucket accepted, with their frames; the files gone from disk are exactly those of them whose removal succeeded, without keep_local; it connects once and once more for each failed attempt, fails exactly if a connection cannot be made, and succeeds exactly with an EOS or a completed source |
| GcsUploader.UseConnection | aistreams/gstreamer/gstreamer_video_exporter.cc:764-811 | the loop over paths lasts until its first failed attempt, the EOS, or a completed source |
| GcsUploader.TakePoll | aistreams/gstreamer/gstreamer_video_exporter.cc:764-809 | one popped path: it stops the uploader or is attempted, and a new connection is needed exactly if the upload failed |
| GcsUploader.UploadAndRemove | aistreams/gstreamer/gstreamer_video_exporter.cc:783-809 | a file is removed only after its own upload succeeded and only without keep_local |
| Completion.CompletionSignal.constructor | aistreams/util/completion_signal.h:87-91 | a signal starts out completed with status OK |
| Completion.BackgroundWorker.Work | aistreams/gstreamer/gstreamer_video_exporter.cc:216-226 | starting a worker is its step in the protocol |
| Completion.BackgroundWorker.Conclude | aistreams/gstreamer/gstreamer_video_exporter.cc:219-224 | what the thread does with the result of WorkImpl is three steps of the protocol, in this order: in between, the status is published and the signal still incomplete |
| Completion.BackgroundWorker.Join | aistreams/gstreamer/gstreamer_video_exporter.cc:228-254 | for a started worker the test succeeds exactly when the thread has ended and then yields what WorkImpl returned; for one that was not started it succeeds with OK |
| Completion.RunOkIffAllWorkersOk | aistreams/gstreamer/gstreamer_video_exporter.cc:941-994 | in every interleaving Run returns OK if and only if source, saver and uploader all ended before their joins gave up and all returned OK, and an unknown error otherwise |
| Completion.JoinGivesUpIff | aistreams/gstreamer/gstreamer_video_exporter.cc:951-977 | Run goes on joining the source until it has ended; of the saver and the uploader it takes the status if they have ended and otherwise gives up on them |
| Completion.JoinTellsTheTruth | aistreams/gstreamer/gstreamer_video_exporter.cc:217-254 | a worker that was started and looks completed has ended, and its published status is the one WorkImpl returned |
| Completion.SourceLooksCompletedBeforeItStarts | aistreams/util/completion_signal.h:89-89 | a run in which the saver works while its source, not yet started, already looks completed |
| Completion.RunKeepsInv | aistreams/gstreamer/gstreamer_video_exporter.cc:941-994 | after any run each worker's signal is honest and Run has a verdict exactly about the workers it has joined or given up on |
| DecodedReceiver.ImagesThenOneEos | aistreams/cc/decoded_receivers.cc:126-242 | in every interleaving the consumer gets a subsequence of the decoded images in order and then exactly one EOS; headers are attached in the order they were queued, none skipped |
| DecodedReceiver.FirstHeaderIsLost | aistreams/cc/decoded_receivers.cc:94-100 | whatever the decoder does, no image is ever given the header of the first packet, so the first image never recovers its own |
| DecodedReceiver.NoForeignHeaderIff | aistreams/cc/decoded_receivers.cc:178-203 | with one image per frame and frames of any number of packets: no image is given another frame's header if and only if the first image comes before the second frame's header is queued; then all other images recover their own, and otherwise already the first image takes the second frame's |
| DecodedReceiver.FullQueueBlocksForever | aistreams/cc/decoded_receivers.cc:166-176 | in any state: once the consumer has let go of a full destination queue, Work never finishes |
| DecodedReceiver.AbandonedWorkFinishesIff | aistreams/cc/decoded_receivers.cc:166-242 | wherever an abandoned Work has got to, some run finishes it if and only if the destination queue has room for the EOS behind the image in the decoder's callback, if any, and one more if Work is pushing a header into a full header queue |
| DecodedReceiver.AbandonedRunFinishesIff | aistreams/cc/decoded_receivers.cc:166-242 | the same for every state that a run of the program leaves Work in |
| DecodedReceiver.FeedGetsOnIff | aistreams/cc/decoded_receivers.cc:187-197 | while the decoder makes no image, a Feed that is pushing its header gets on if and only if the header queue is not full, whatever the consumer does |
| DecodedReceiver.SomeFeedNeedsAnImage | aistreams/cc/decoded_receivers.cc:187-197 | a run into a state in which the consumer has let go and nothing but an image, which the decoder may not make without more input, can move Work |
| DecodedReceiver.PushImagePacket | aistreams/cc/decoded_receivers.cc:126-163 | a status queues nothing and takes no header, and only ResourceExhausted is answered with OK, so the NotFound at the end is not; an image takes the oldest header if there is one and is queued unless the queue is full, as the two decoder steps do |
| DecodedReceiver.SomeRunBlocksForever | aistreams/cc/decoded_receivers.cc:205-242 | a run that ends with Work blocked, in a state in which nothing can happen any more |
| DecodedReceiver.FirstImageTakesSecondHeader | aistreams/cc/decoded_receivers.cc:94-100 | a run in which the image of the first frame is given the second frame's header |
| DecodedReceiver.StepKeepsInv | aistreams/cc/decoded_receivers.cc:126-242 | every step of feeder, decoder and consumer keeps the order of images and of headers |
| DecodedReceiver.StepKeepsFed | aistreams/cc/decoded_receivers.cc:187-203 | for one image per frame, every step keeps the relation between headers queued and images decoded |
| DecodedReceiver.Feed | aistreams/cc/decoded_receivers.cc:187-203 | the header of a frame head is queued even when the decoder then refuses the packet |
| DecodedReceiver.Work | aistreams/cc/decoded_receivers.cc:209-242 | every turn but the last feeds an accepted packet that is not the source's EOS; the loop ends exactly if the consumer has let go, or nothing came in time, or the EOS did, or the packet was not accepted; exactly the headers of the frame heads fed are queued, the decoder is told EOS once, and then one EOS is pushed |
| DecodedHistory.HeadersAreThoseOfFrameHeads | aistreams/cc/decoded_receivers.cc:187-197 | in any run the headers queued are those of the frame heads pulled, in order, without the source's EOS, the last perhaps still being pushed |
| DecodedHistory.WorkEndsForAReason | aistreams/cc/decoded_receivers.cc:212-235 | in any run Work has left its loop if a pull timed out or gave the source's EOS or a packet was not accepted, and only then or when the consumer has let go |
| DecodedHistory.ImageDroppedIff | aistreams/cc/decoded_receivers.cc:158-162 | after any run the destination queue is within its capacity and the image in a callback is dropped if and only if the items queued and not popped are as many as it can hold |
| DecodedHistory.SomeRunDelivers | aistreams/cc/decoded_receivers.cc:126-242 | any images, with the EOS behind them, can reach a consumer |
| RawImageYielders.RawImageYielder.Feed | aistreams/gstreamer/gstreamer_raw_image_yielder.cc:80-85 | feeding fails after EOS and otherwise reaches a runner that exists |
| RawImageYielders.RawImageYielder.SignalEos | aistreams/gstreamer/gstreamer_raw_image_yielder.cc:87-99 | every signal destroys the runner and reports EOS once |
| RawImageYielders.RawImageYielder.Destroy | aistreams/gstreamer/gstreamer_raw_image_yielder.cc:38-42 | over its life the yielder reports EOS at least once and once per signal |
| ImagePadding.RoundUp4IsLeast | aistreams/gstreamer/type_utils.cc:33-33 | the bit trick computes the least multiple of four that is not below the number |
| ImagePadding.RgbRawImageToGstreamerBuffer | aistreams/gstreamer/type_utils.cc:173-205 | fast path and row loop both give the image with every row padded by zeros to the rounded stride |
| ImagePadding.PadRows | aistreams/gstreamer/type_utils.cc:194-203 | the row-copy loop stays in bounds and computes the padded buffer |
| ImagePadding.PaddedAt | aistreams/gstreamer/type_utils.cc:198-202 | byte j of row i of the image is at stride * i + j of the buffer |
| ImagePadding.ToRgbRawImage | aistreams/gstreamer/type_utils.cc:118-146 | fast path and pixel loop both give the pixels of the buffer packed row by row; the fatal constructor check is reached exactly when the image has more bytes than an int can count |
| ImagePadding.ReadsInBoundsIff | aistreams/gstreamer/type_utils.cc:134-144 | every read of the pixel loop is within the buffer if and only if the buffer covers the last component of the last pixel, or there is no pixel |
| ImagePadding.UnpaddedAt | aistreams/gstreamer/type_utils.cc:134-144 | component k of pixel j of row i of the image is at rstride * i + pstride * j + k of the buffer, for any strides |
| ImagePadding.UnpadRows | aistreams/gstreamer/type_utils.cc:132-145 | the triple loop stays in bounds and packs all pixels |
| ImagePadding.PaddedWithoutPadding | aistreams/gstreamer/type_utils.cc:184-192 | under its guard the padding fast path equals the slow path |
| ImagePadding.UnpaddedWithoutPadding | aistreams/gstreamer/type_utils.cc:120-130 | under its guard the unpadding fast path equals the slow path |
| ImagePadding.UnpadAfterPad | aistreams/gstreamer/type_utils.cc:118-205 | unpadding a padded image gives back its bytes, for every stride that holds a row |
| ImagePadding.PadThenUnpad | aistreams/gstreamer/type_utils.cc:118-205 | the round trip of the two conversions is the identity on SRGB images |
| Ppm.RoundTripIff | aistreams/base/util/raw_image_utils.cc:29-68 | writing a valid image and reading it back gives it back if and only if it is SRGB, whatever its bytes look like; another non-empty image aborts the reader |
| Ppm.HeaderReadsBack | aistreams/base/util/raw_image_utils.cc:30-31 | whatever bytes follow it, the written header is read back exactly |
| Ppm.DecimalOfPrinted | aistreams/base/util/raw_image_utils.cc:30-31 | the value of a printed number is that number, wherever it stands in a file |
| Ppm.ReadsPrinted | aistreams/base/util/raw_image_utils.cc:50-51 | a printed number between spaces is read back and nothing more is consumed |
| Ppm.WordTaken | aistreams/base/util/raw_image_utils.cc:50-51 | extraction of a string skips any of the six white space characters and takes what comes up to the next one, and fails if there is nothing or on a stream that is not good |
| Ppm.NumberTaken | aistreams/base/util/raw_image_utils.cc:50-51 | extraction of an int skips white space, takes one sign and all digits that follow, and fails exactly without a digit, with a number that is not an int, or on a stream that is not good |
| Ppm.ToPpmFile | aistreams/base/util/raw_image_utils.cc:29-36 | the file is the header followed by the bytes |
| Ppm.FromPpmFile | aistreams/base/util/raw_image_utils.cc:38-68 | header error, abort or image exactly as the meaning of the file says, on every input; no substring position is ever out of range |
| Ppm.IStringStream.ReadWord | aistreams/base/util/raw_image_utils.cc:51-51 | extraction of a string: position, failure and end-of-file bits, and the word |
| Ppm.IStringStream.ReadInt | aistreams/base/util/raw_image_utils.cc:51-51 | extraction of an int: sign, digits, failure on none or overflow, end-of-file bit |
| Ppm.HeaderTakenForPixels | aistreams/base/util/raw_image_utils.cc:58-66 | a file without pixels that is read as an image, its own header being the pixels |
| Ppm.PixelsFollowHeaderIff | aistreams/base/util/raw_image_utils.cc:58-59 | the pixels of an image that is read are exactly what follows the header and one byte, if and only if anything follows the header |
| FilePath.JoinPathIsMonoid | aistreams/util/file_path.cc:24-34 | joining two paths is associative and the empty path is its unit |
| FilePath.JoinPathNormalForm | aistreams/util/file_path.cc:24-34 | non-empty paths are joined with exactly one of the slashes at the seam |
| FilePath.JoinPathImpl | aistreams/util/file_path.cc:40-73 | the buffer builder computes the left fold of the two-argument join over all paths, or from the last absolute path on, and never writes past the size computed up front |
| FilePath.AppendPath | aistreams/util/file_path.cc:54-69 | one loop body is one two-argument join, in place |
| FilePath.WorstCaseSize | aistreams/util/file_path.cc:45-49 | the size allowed for: all paths and a separator for each but the first |
| FilePath.FindLastSlash | aistreams/util/file_path.cc:101-105 | the position of a slash after which there is none; none exactly if the path has no slash |
| FilePath.BasenameOfJoin | aistreams/util/file_path.cc:91-113 | the base name of a join is the slash-free name joined last |
| FilePath.DirnameOfJoin | aistreams/util/file_path.cc:87-113 | the directory of a join is the one that was joined, without a trailing slash that is not all of it |
| FilePath.SplitAtLastSlash | aistreams/util/file_path.cc:98-113 | the last slash parts a path into directory and slash-free base name; a leading slash is its own directory |
| FilePath.SplitThenJoinIff | aistreams/util/file_path.cc:91-113 | joining the directory and base name of a path gives it back if and only if the path is empty, is a slash, or has a base name that follows no doubled slash |
| RawImages.GetBufferSizeIff | aistreams/base/types/raw_image_helpers.cc:49-80 | the size is computed exactly when the dimensions are not negative and the byte count fits in an int, and then is that count |
| RawImages.RawImage.constructor | aistreams/base/types/raw_image.cc:26-49 | an image that passes the fatal checks has a zeroed buffer of the right size |
| RawImages.RawImage.FromBytes | aistreams/base/types/raw_image.cc:51-72 | an image that passes the fatal checks holds exactly the given bytes |
| RawImages.DescriptorIff | aistreams/base/types/packet_types/raw_image_packet_type.cc:31-60 | validation accepts exactly the packets whose payload is as long as their descriptor says |
| RawImages.Pack | aistreams/base/types/packet_types/packet_types.h:57-79 | a packed image has the type, descriptor and bytes of the image |
| RawImages.UnpackCopy | aistreams/base/types/packet_types/raw_image_packet_type.cc:81-97 | unpacking by copy succeeds exactly on well-formed packets, gives the packed image, and never reaches a fatal check |
| RawImages.UnpackMove | aistreams/base/types/packet_types/raw_image_packet_type.cc:99-113 | the same for unpacking by move, so the overloads agree |
| RawImages.PackThenUnpack | aistreams/base/types/packet_types/raw_image_packet_type.cc:64-113 | unpacking after packing is the identity with both overloads |
| RawImages.UnpackedIffPacked | aistreams/base/types/packet_types/raw_image_packet_type.cc:31-112 | a packet unpacks to an image if and only if it is the packing of that valid image |
| StatusOrDatas.LifetimesInAnyRun | aistreams/util/status/statusor_internals.h:48-211 | any run of constructions, copies, moves, assignments and destructions: undefined behaviour happens if and only if a value is assigned to the object that holds it; otherwise values are alive exactly under OK statuses, objects mean what plain sums would, and constructions equal destructions at the end |
| StatusOrDatas.StepRefines | aistreams/util/status/statusor_internals.h:56-163 | every operation keeps the lifetime invariant and does to the meanings what the lifetime-free reference does, with nothing else changed |
| StatusOrDatas.StepFaultsIff | aistreams/util/status/statusor.h:62-65 | the documented restriction on assignment is exactly what an operation needs |
| StatusOrDatas.RunRefines | aistreams/util/status/statusor_internals.h:48-211 | the same for runs from any consistent memory |
| StatusOrDatas.AssignValueEffect | aistreams/util/status/statusor_internals.h:132-150 | assigning a value leaves that value alive under an OK status, whatever was there before |
| StatusOrDatas.AssignStatusEffect | aistreams/util/status/statusor_internals.h:152-162 | assigning a status leaves no value alive and a status that is not OK, even if an OK one was given |
| StatusOrDatas.ConstructValueEffect | aistreams/util/status/statusor_internals.h:56-95 | construction from a value or from an OK object |
| StatusOrDatas.ConstructStatusEffect | aistreams/util/status/statusor_internals.h:97-103 | construction from a status |
| StatusOrDatas.DestructEffect | aistreams/util/status/statusor_internals.h:123-130 | destruction leaves nothing alive in the storage and touches no other object |
| StatusOrDatas.Failed | aistreams/util/status/statusor.cc:25-30 | an OK status is replaced by the internal error with its fixed message; any other status is kept |
| StatusOrDatas.StatusOrData.AssignValue | aistreams/util/status/statusor_internals.h:132-150 | the method is the step; no construction lands on a live value |
| StatusOrDatas.StatusOrData.AssignStatus | aistreams/util/status/statusor_internals.h:152-162 | the method is the step; no dead value is destroyed |
| StatusOrDatas.StatusOrData.CopyAssign | aistreams/util/status/statusor_internals.h:105-112 | the method is the step, also when an object is assigned to itself |
| StatusOrDatas.StatusOrData.MoveAssign | aistreams/util/status/statusor_internals.h:114-121 | the method is the step; the object moved from keeps its status and a live value |
| StatusOrDatas.StatusOrData.Copy | aistreams/util/status/statusor_internals.h:56-63 | the copy constructor is the step |
| StatusOrDatas.StatusOrData.Move | aistreams/util/status/statusor_internals.h:65-72 | the move constructor is the step; the object moved from keeps its status and a live value |
| StatusOrDatas.StatusOrData.Destruct | aistreams/util/status/statusor_internals.h:123-130 | after the destructor nothing is alive and as many values were destroyed as were made |
| Backoff.NthWaitClosedForm | aistreams/base/util/exponential_backoff.cc:37-43 | the k-th wait is the wait without a maximum, cut off once at the maximum, although the code cuts at every step |
| Backoff.Uncut | aistreams/base/util/exponential_backoff.cc:40-41 | the k-th wait without a maximum is the initial one times the k-th power of the multiplier |
| Backoff.IteratedIsPower | aistreams/base/util/exponential_backoff.cc:40-41 | multiplying k times is multiplying by the k-th power |
| Backoff.WaitsGrow | aistreams/base/util/exponential_backoff.h:25-31 | waits never get shorter and lie between the initial wait and the maximum |
| Backoff.MaximumIsKept | aistreams/base/util/exponential_backoff.cc:39-42 | once the maximum is reached every later wait is the maximum |
| Backoff.Clamped | aistreams/base/util/exponential_backoff.cc:24-35 | a negative initial wait becomes zero, a maximum below it becomes it, a multiplier below one becomes one, and nothing else changes |
| Backoff.ExponentialBackoff.constructor | aistreams/base/util/exponential_backoff.cc:24-35 | a new backoff has clamped parameters and has waited zero times |
| Backoff.ExponentialBackoff.Wait | aistreams/base/util/exponential_backoff.cc:37-43 | the n-th call sleeps for the n-th wait |
| Backoff.WaitOperation | aistreams/base/management_client.cc:64-97 | whatever the server answers: at most 16 polls, the first one that settles the operation decides, the sleeps are the waits before it and at most 1206 seconds, exactly 1206 on giving up |

## Left out

- Assumption: after its packets a gRPC reader reports its final status, and reports it again if it is asked again.
- Assumption: generated video file names are distinct and non-empty, an upload succeeds only if the file is on disk, and only the exporter writes to its directory.
- Assumption: the decoder makes no callback after its runner is destroyed, and one callback at a time.
- Time: a timeout is a step that may happen at any moment, so nothing is said about real-time bounds.
- VideoExporter.NoVideoLost: the uploader's decision to stop after a timed-out pop is allowed at any time, which only adds runs.
- The channels of VideoExporter and DecodedReceiver are atomic queues; the simulation over the queue monitor is proved for the receiving pipeline only.
- LocalVideoSaver.WorkImpl, GcsUploader.WorkImpl, DecodedReceiver.Work: one thread's loop against a script of what the others do; that these three loops are the threads of the step relations is not proved, as it is for the receiver's worker and the queue operations.
- ExporterOutcomes.SomeRunAbortsIff: items with an EOS before the last are not considered, since both sources queue their EOS last.
- DecodedReceiver.NoForeignHeaderIff: a decoder that drops frames or makes several images of one is not considered.
- ImagePadding.RgbRawImageToGstreamerBuffer, ImagePadding.ToRgbRawImage: sizes for which the C++ int arithmetic overflows, or buffers shorter than their caps say, are excluded by preconditions, as the behaviour of the code is undefined there.
- ImagePadding.ToRgbRawImage: the number of components is 3, which is what the caps of an RGB buffer say.
- Backoff.NthWaitClosedForm: times are real numbers; the rounding of the float multiplier and of durations is not modelled.
- StatusOrDatas.StepFaultsIff: arguments owned by the current value without being it, and throwing constructors, are not modelled.
- The pause between unary RPCs and their deadlines: time.
- ToProtoDuration, ToProtoOffsetConfig: conversions to protobuf messages.
- Initialization failures of channels, stubs and readers, beyond the null readers of PacketReceivers.Initialize: early returns.
- GStreamer pipelines, caps parsing and the appsrc/appsink plumbing; GCS clients and object names; the file system beyond a map from paths to frames or one file's contents: foreign code.
- Protobuf and Any encoding: descriptors are a datatype.
- The fatal checks of constructors (queue capacity, RawImage) are preconditions, or an explicit Fatal outcome where the input decides.
- SplitBasename and Extension: one more split of the same kind.
- Memory ownership: the object that TryPush releases without deleting, and reference counts beyond "does the consumer still hold its share".
- Command line tools, Python bindings, the C API wrappers, packet flags, status macros and canonical errors: plumbing.
