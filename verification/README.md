# Verified model of ngp-encode-server

ngp-encode-server is a stereo video pipeline made of cooperating threads. Socket clients take
tickets, ask remote renderers for frames and push the replies into a bounded queue per eye. A
processing thread per eye draws a text overlay, converts each frame and files it in a bounded map
under its index. A sending thread per eye walks the indices 0, 1, 2, ... and submits each frame to a
scene encoder and a depth encoder, skipping an index whose frame does not arrive in time. Camera
messages change what is rendered and at which resolution.

## Structure

| file | module | what it is |
|---|---|---|
| Frames.dfy, Waiting.dfy, Words.dfy | Frames, Waiting, Words | frame identity, threads blocked on a condition variable, fixed-width arithmetic and quotients |
| FrameQueue.dfy, FrameMap.dfy | FrameQueues, FrameMaps | the two monitors: one function per lock-held region, and the mutable objects that perform them |
| Lane.dfy, LaneRuns.dfy, Doom.dfy | Lanes, LaneRuns, Doom | one eye as a transition system, its invariant, what holds over its runs, and when it can still obtain a frame |
| Pipeline.dfy | Pipeline | the whole server: clients, two lanes, packet receivers, statistics thread, shutdown flag |
| Custody.dfy, Server.dfy, Losses.dfy | Custody, Server, Losses | conservation of tickets, the invariant of the whole server, and the cause of every loss |
| Guarantees.dfy, Echo.dfy, Shutdown.dfy | Guarantees, Echo, Shutdown | the results, stated over every run |
| LaneOrder.dfy, ProgramOrder.dfy | LaneOrder, ProgramOrder | the order of the steps of every thread |
| Driving.dfy, Closing.dfy, Recovery.dfy, JamRun.dfy | Driving, Closing, Recovery, JamRun | pieces of runs of the whole server; the exact condition under which it can still show a frame of an eye, before and after shutdown; faultless runs after which it cannot |
| Framing.dfy, Sockets.dfy | Framing, Sockets | length-prefix framing, and blocking transfers over partial sends and reads |
| TextOverlay.dfy | TextOverlay | text drawn into an RGB frame |
| Cameras.dfy, CodecLocks.dfy | Cameras, CodecLocks | camera messages, encoder resolution, and the locking of one encoder |

The pipeline is a transition system because its interleavings are the point. A step is what one
thread does atomically: one lock-held region, one atomic operation, or one read of the shutdown
flag. The label of a step carries every choice made by the scheduler, by a notification, by a
timeout or by a renderer, so a run is a list of labels and "every run" means every interleaving. A
timed wait is split into the region that goes to sleep and later regions that wake up, notified or
not, before the deadline or after it; every wake-up evaluates the wait predicate again, as the
predicate form of `wait_for` does. A thread whose deadline has passed but which has not yet regained
the mutex still counts as waiting. The queue and map objects perform exactly the functions that the
lanes are built from. Counters and indices are unbounded naturals; the statistics thread's 64-bit
wrap-around is explicit.

## Where the code and its comments differ

- src/base/video/frame_map.cc:19 speaks of waking one getter; the code wakes all of them, and so
  does the model.
- src/server.cpp:204-206 warns that a dropped frame makes the program hang. A drop by itself costs
  one timeout (`Guarantees.SkippingIsBounded`). What does stop an eye for good is a map full of late
  frames (`LaneRuns.JamIsPermanent`), and the server can get there with no fault, no drop and nothing
  but lateness (`JamRun.OneEyeCanDie`).

## Properties that hold only under a condition

- An eye whose threads run can still obtain a frame unless it is spent: its map is full of passed
  keys, or the frames in its queue will fill it with them before another key gets in.
  `Recovery.EyeIsDeadExactlyWhen` is the exact condition, also after shutdown; `JamRun.FateIsSettledEarly` shows that
  "unless its map is full of passed keys" would be wrong.
- One `notify_one` after a purge is not always enough when several inserters wait:
  `FrameMaps.PurgeWakesEnough` gives the exact condition for every map and
  `FrameMaps.TwoInsertersCanBeStranded` an input. Each map of the server has one inserter, so `Guarantees.NobodySleepsThroughWork` holds.
- Byte offsets into a frame are computed in 32 bits: `TextOverlay.IndexingIsExact` shows that they
  are right exactly for frames of at most 2^32 bytes; beyond that they still stay inside the buffer.
- The stored size is the last accepted one rounded down to even exactly when the default size is even
  or some accepted camera departed from it: `Cameras.ResolutionFollowsRequests`.
- A failed reopening leaves an eye inconsistent: `Cameras.FailureDisagrees`. A later successful
  message repairs it exactly when it asks for a size other than the stored one
  (`Cameras.SuccessAgrees`), and over whole sequences an eye is consistent exactly when every failure
  was followed by a successful reopening (`Cameras.EyesFollowMessages`).

## Model

| member | source | states |
|---|---|---|
| Frames.RenderedFrame.ConvertFrame | include/base/video/rendered_frame.h:24-33 | conversion throws exactly when it already happened, and changes nothing but the flag |
| FrameQueues.PushKeepsInv | src/base/video/frame_queue.cc:11-23 | a push region keeps the size bound and loses no wake-up on either side |
| FrameQueues.PopKeepsInv | src/base/video/frame_queue.cc:25-39 | a pop region keeps the size bound and loses no wake-up on either side |
| FrameQueues.PushMeans | src/base/video/frame_queue.cc:15-22 | a push succeeds exactly below 100 frames, gives up exactly on a full queue after its deadline and otherwise sleeps; who sleeps, who is notified and what is queued afterwards |
| FrameQueues.PopMeans | src/base/video/frame_queue.cc:29-38 | the same for a pop: it takes the oldest frame exactly when there is one |
| FrameQueues.QueueRunsAreSafe | src/base/video/frame_queue.cc:11-39 | for any number of pushers and poppers in any order, free slots (queued items) never exceed the notified waiters while someone sleeps unnotified, and the size never exceeds 100 |
| FrameQueues.FrameQueue.Push | src/base/video/frame_queue.cc:11-23 | the mutable queue performs the push region and keeps the invariant |
| FrameQueues.FrameQueue.Pop | src/base/video/frame_queue.cc:25-39 | the mutable queue performs the pop region and keeps the invariant |
| FrameMaps.InsertKeepsInv | src/base/video/frame_map.cc:12-24 | an insert keeps the size bound, leaves no sleeping getter whose key is present, and with one inserter leaves it asleep only on a full map |
| FrameMaps.GetKeepsInv | src/base/video/frame_map.cc:26-53 | the same for a get, including the purge |
| FrameMaps.InsertMeans | src/base/video/frame_map.cc:16-23 | an insert succeeds exactly below 100 keys, never replaces a frame and wakes every getter; it gives up exactly on a full map after its deadline and otherwise sleeps |
| FrameMaps.GetMeans | src/base/video/frame_map.cc:30-52 | a get succeeds exactly when its key is there, gives up exactly on a missing key after its deadline and otherwise sleeps on that key |
| FrameMaps.GetKeepsExactly | src/base/video/frame_map.cc:30-46 | a successful get of a multiple of 1000 keeps exactly the keys above it, any other get exactly the other keys, and no remaining frame changes |
| FrameMaps.PurgeWakesEnough | src/base/video/frame_map.cc:36-48 | after any successful get, the single notification leaves every sleeping inserter spoken for if and only if at most one was asleep or the slots free before plus the purged ones were already claimed by notified inserters |
| FrameMaps.TwoInsertersCanBeStranded | src/base/video/frame_map.cc:36-48 | a concrete map where two blocked inserters and a purge leave one asleep beside a hundred free slots |
| FrameMaps.FrameMap.Insert | src/base/video/frame_map.cc:12-24 | the mutable map performs the insert region, keeping the old frame on a duplicate key |
| FrameMaps.FrameMap.GetDelete | src/base/video/frame_map.cc:26-53 | the mutable map performs the get region: erase, then purge, then notify one inserter |
| Lanes.StepKeepsBounded | src/main.cpp:274-312 | every act of an eye keeps its queue and map within bounds and free of lost wake-ups, with its one popper, one inserter and one getter |
| Lanes.StepKeepsParked | src/base/video/frame_map.cc:26-33 | only the eye's own threads wait on its monitors, each in the matching phase, the sender for its current index |
| Lanes.StepKeepsFifo | src/encode.cpp:51-100 | push history is pop history followed by the queue, frames are handed to the map in push order, and conversion never throws |
| Lanes.StepKeepsTagged | src/encode.cpp:98-100 | frames carry the eye's flag everywhere, are unconverted before and converted after processing, and lie in the map under their own index |
| Lanes.StepKeepsOrdered | src/encode.cpp:130-190 | submitted indices strictly increase and depth submissions equal scene submissions except for the frame in between |
| Lanes.StepKeepsAccounted | src/encode.cpp:127-209 | each index below the sender's position was submitted or skipped exactly once, and the counts add up to the position |
| Lanes.RunKeepsInv | src/encode.cpp:42-212 | all of the above over every run of an eye |
| LaneRuns.PositionCountsDecisions | src/encode.cpp:127-209 | the sender's position grows by exactly the frames taken plus the timeouts, under any interleaving |
| LaneRuns.OnTimeFramesAreDelivered | src/base/video/frame_map.cc:12-53 | a frame stored before its index was decided stays untouched by skips and purges until it is in the sender's hands or submitted |
| LaneRuns.StaleKeysWereLate | src/base/video/frame_map.cc:12-53 | every key the sender has passed was inserted after the sender had decided it |
| LaneRuns.JamIsPermanent | src/base/video/frame_map.cc:16-46 | a map full of passed keys keeps exactly its contents in every continuation, no get succeeds, and at most the frame in hand is still submitted |
| LaneRuns.TimeoutsBeforeFetchAreBounded | src/encode.cpp:203-208 | with key k in the map at or above the position, more than k minus position timeouts cannot pass before a frame is taken, in any interleaving |
| LaneRuns.SenderDelivers | src/encode.cpp:130-209 | from such a state the sender's own steps submit the frame under the least key at or above the position to the encoder, after exactly one timeout per index before it |
| LaneRuns.FullMapDichotomy | src/base/video/frame_map.cc:16-46 | a full map yields no frame in any continuation if and only if all its keys are below the sender's position |
| Doom.FillsMeans | src/base/video/frame_map.cc:12-24 | the pending frames fill the map with passed keys if and only if some first part of them, all passed, brings the number of different keys to 100 |
| Doom.SpentIsFinal | src/base/video/frame_map.cc:12-53 | once the sender has exited, or has passed every key while the processor is gone or the pending frames fill the map, no continuation takes a frame |
| Doom.NotSpentIsFruitful | src/encode.cpp:51-209 | from every other state there is a continuation in which the sender takes a frame |
| Doom.FruitlessIsSpent | src/base/video/frame_map.cc:12-53 | an eye yields no frame in any continuation if and only if it is spent in that sense, whatever its queue, map and threads are doing |
| Doom.JamIsTheIdleCase | src/base/video/frame_map.cc:16-46 | with running threads and nothing on the way to the map, spent means exactly a map full of passed keys |
| Pipeline.RunIsLaneRun | src/main.cpp:259-312 | every run of the server is, seen from one eye, a run of that eye's lane |
| Custody.Forward | src/server.cpp:144-208 | whatever a ticket's place, a step either leaves it there or moves it to the one place, or the one loss cause, that the step names |
| Custody.Backward | src/server.cpp:144-208 | everything held after a step was held before and moved there, except a ticket issued by that step |
| Custody.StepConserves | src/server.cpp:132-209 | a step of any thread keeps every issued ticket in exactly one place and creates no other |
| Losses.LossesAreExplained | src/server.cpp:164-208 | in every run a ticket is recorded as lost for a cause if and only if an event of the run explains it: a failed send or reply, a push that timed out after waiting at a queue of 100, an insert that timed out after waiting at a map of 100, a duplicate key, or a get of a multiple of 1000 above its key |
| Server.StepKeepsBalanced | src/server.cpp:144-152 | the right counter plus right-eye clients between toggle and increment is half the toggles rounded up, the left equivalent rounded down |
| Server.StepKeepsStats | src/encode.cpp:276-290 | readings of the two counters never go down although they are loaded separately and in either order |
| Server.StepKeepsPushers | src/base/video/frame_queue.cc:15-22 | only clients in the middle of a push to an eye wait on that eye's queue |
| Server.EveryRunIsSafe | src/main.cpp:259-317 | the whole invariant in every run from start-up, for any number of clients and arbitrary renderer replies |
| Guarantees.TicketsAreConserved | src/server.cpp:144-208 | the tickets of an eye found anywhere (client, queue, processor, map, sender, submitted, or lost with a cause) are exactly 0 to its counter, each in exactly one place |
| Guarantees.CountersStayClose | src/server.cpp:144-152 | the two counters differ by at most one plus the clients between toggle and increment |
| Guarantees.EncodersSeeOrderedFrames | src/encode.cpp:130-190 | per eye both encoders receive strictly increasing indices of converted frames of that eye, depth lagging by at most one |
| Guarantees.NobodySleepsThroughWork | src/base/video/frame_queue.cc:15-37 | unnotified sleepers face claimed slots, an empty queue, a full map or a missing key |
| Guarantees.BoundedAndInOrder | src/encode.cpp:51-100 | sizes stay at most 100, the queue is first-in first-out, and frames reach the map in push order |
| Guarantees.ConversionHappensOnce | include/base/video/rendered_frame.h:24-33 | no frame is converted twice, so the processing thread never dies of it, and the map holds only converted frames |
| Guarantees.EveryIndexIsDecidedOnce | src/encode.cpp:127-209 | at its loop head the sender has submitted or skipped every earlier index, never both |
| Guarantees.RatesTelescope | src/encode.cpp:276-288 | while the counters fit in 64 bits the logged differences sum to the last logged total and the next one does not wrap |
| Guarantees.OnTimeFramesReachTheEncoder | src/base/video/frame_map.cc:12-53 | the on-time result for the whole server, from any state and any continuation |
| Guarantees.LeftoversCameLate | src/base/video/frame_map.cc:34-46 | leftover keys came from late inserts, for every run from start-up |
| Guarantees.JammedEyeNeverRecovers | src/base/video/frame_map.cc:16-46 | a jammed eye submits at most the frame in hand, whatever the rest of the server does |
| Guarantees.SkippingIsBounded | src/encode.cpp:203-208 | the bound on timeouts before the next frame, for the whole server |
| Recovery.EyeIsDeadExactlyWhen | src/encode.cpp:42-212 | in every reachable state, for any number of clients and any replies, an eye takes no further frame in any continuation of the whole server if and only if it is spent or, after shutdown, its sender is not waiting for the frame that can arrive next |
| Recovery.SpentEyeNeverRecovers | src/base/video/frame_map.cc:16-46 | a spent eye stays spent and takes no further frame whatever the server does, shutdown included |
| Echo.NoDuplicate | src/base/video/frame_map.cc:18 | with echoing renderers the frame being inserted never has an index already in the map |
| Echo.EchoingRunsHaveNoDuplicates | src/base/video/frame_map.cc:18 | with echoing renderers nothing is lost to a duplicate key and each submitted frame answers the ticket with its eye and index |
| Echo.NoIndexInTwoPlaces | src/server.cpp:144-208 | with echoing renderers no index of an eye is ever in two places, where a place is a pushing client, a queue slot, the processor, a map key, the sender or a submission |
| Shutdown.ShutdownIsBounded | src/encode.cpp:51-292 | once set the flag stays set, and no interleaving lets a processing, sending, receiving, client or statistics thread take more than seven own steps, wake-ups in vain aside, before it exits; a client started later gets one |
| Shutdown.AtMostOneMoreFrame | src/encode.cpp:127-131 | after shutdown an eye takes at most one more frame, and none unless its get was under way |
| Closing.NoChanceIsFinal | src/encode.cpp:51-209 | after shutdown, unless the sender is inside a get whose frame is in the map or next to arrive there (with room, and past the clients' own check), no continuation takes a frame |
| Closing.TakeLastFrame | src/encode.cpp:51-209 | and in that case there is a continuation that takes it |
| Shutdown.ThreadsNeverStall | src/encode.cpp:51-265 | a thread that has not exited always has such a step, at worst the end of its timed wait |
| Shutdown.RankZeroIsExited | src/encode.cpp:116-265 | having no such step left means having exited |
| Shutdown.ClientsNeverStall | src/server.cpp:132-209 | a client always has a step; a parked push can always end |
| Shutdown.OnlyCausesStopTheServer | src/encode.cpp:223-258 | the flag is set only by a signal or by an encoder that failed or was flushed |
| Shutdown.FlagIsSetExactlyByStores | src/main.cpp:35-38 | over every run from every state the flag is set at the end if and only if it was set before or the run contains a signal or a receiver's stop request |
| Shutdown.FailureStopsTheServer | src/encode.cpp:236-258 | after a failed or flushed encoder the receiver's next own step, whenever it comes, sets the flag |
| Shutdown.StopRequestsHaveACause | src/encode.cpp:236-258 | while the flag is clear a receiver can set it if and only if its last own event was a failed or flushed encoder |
| Shutdown.RequestsDryUp | src/server.cpp:132-152 | after shutdown, tickets go only to clients that had already passed the check |
| LaneOrder.ProcessorOrder | src/encode.cpp:51-115 | which step of a processing thread can follow which, whatever happens to its lane in between; a wait expires only after going to sleep, and only a missing frame or a full map sends the thread to sleep |
| LaneOrder.SenderOrder | src/encode.cpp:127-209 | the same for a sending thread |
| ProgramOrder.ReceiverOrder | src/encode.cpp:214-265 | which step of a receiver can follow which, whatever happens in between: it polls again after EAGAIN, rechecks the flag after a packet, requests stop after an error or when it sees the flag inside |
| ProgramOrder.StatsOrder | src/encode.cpp:276-291 | the same for the statistics thread |
| ProgramOrder.EveryTenthTickIsLogged | src/encode.cpp:275-288 | after n completed ticks exactly n / 10 differences have been logged |
| ProgramOrder.ClientOrder | src/server.cpp:132-209 | which step of a client can follow which, including that a failed send leads out of the loop and a failed reply or a timed-out push back to its head |
| ProgramOrder.NewClientsCheckFirst | src/server.cpp:132 | a new client starts with the shutdown check |
| ProgramOrder.FailedSendEndsTheClient | src/server.cpp:133-168 | a client whose send failed never takes another ticket, in any continuation |
| ProgramOrder.FailedReplyIsRetried | src/server.cpp:173-208 | a client whose reply failed or whose push timed out can take the next ticket and ask again at once |
| JamRun.OneEyeCanDie | src/server.cpp:203-208 | there is a run from start-up, with echoing renderers, no broken connection, no encoder failure, no shutdown and no frame lost, that ends with the right eye's map full of late frames, and no continuation ever submits another frame of that eye |
| JamRun.FateIsSettledEarly | src/base/video/frame_map.cc:16-46 | there is an equally faultless run that ends with 99 keys in the map and both threads at their loop heads, and still no continuation yields a frame |
| Framing.BytesRoundTrip | src/server.cpp:50 | the eight-byte length prefix decodes to the length it encodes |
| Framing.EncodingIsLiteral | src/server.cpp:50-58 | an encoded message is eight bytes longer than the message: the base-256 digits of its length, low byte first, then its contents |
| Framing.ParseEncoded | src/server.cpp:46-112 | the first message of an encoded stream parses to itself and leaves the rest |
| Framing.ParseTruncated | src/server.cpp:78-82 | a message cut anywhere, prefix included, does not parse |
| Framing.WholeIsExact | src/server.cpp:96-111 | the count of complete messages is maximal for the bytes available |
| Framing.DecodeTruncated | src/server.cpp:62-112 | any prefix of an encoded list decodes to exactly the messages completely in it |
| Framing.DecodeEncoded | src/server.cpp:46-112 | decoding an encoded list yields the list |
| Framing.EncodeDecoded | src/server.cpp:46-112 | any byte stream is the encoding of what it decodes to, followed by a residue that holds no complete message |
| Sockets.SocketSendBlocking | src/server.cpp:23-43 | for every schedule of partial sends, retries and errors, the return code, the bytes on the wire and the rest of the schedule are what `Sends` derives from the schedule alone |
| Sockets.SendFailsExactly | src/server.cpp:29-38 | sending fails if and only if the calls before the first error move fewer bytes than wanted; then exactly those bytes are out, the result is minus that error number and the schedule goes on behind it |
| Sockets.SocketSendBlockingLpf | src/server.cpp:46-60 | the same for a whole message: exact encoding on success, a proper prefix of it decided by the schedule on failure |
| Sockets.SocketReceiveBlocking | src/server.cpp:62-88 | the return code, the bytes consumed and the rest of the schedule are what `Reads` derives from schedule and available bytes; success fills the buffer with the next bytes in order |
| Sockets.ReadFailsExactly | src/server.cpp:66-78 | when the calls before the first error leave the buffer unfilled and bytes unread, exactly their bytes are consumed and that error is returned |
| Sockets.ReadSucceeds | src/server.cpp:66-87 | when the bytes exist and the calls before the first error move enough of them, reading succeeds |
| Sockets.UnbrokenReads | src/server.cpp:79-87 | without errors reading succeeds exactly when enough bytes exist |
| Sockets.SocketReceiveBlockingLpf | src/server.cpp:91-112 | a result is always exactly the first message; result, consumed bytes and rest of the schedule are what `Receives` derives from stream and schedule |
| Sockets.UnbrokenReceives | src/server.cpp:91-112 | without errors there is a result exactly when the first message is complete, and otherwise the stream is drained |
| Sockets.SendAll | src/server.cpp:161-168 | repeated sends emit exactly the part of the encoding of the list that the schedule lets through |
| Sockets.ReceiveAll | src/server.cpp:170-180 | repeated receives return the decoding of the stream and consume all of it, or the beginning of it that the schedule lets through |
| Sockets.Transfer | src/server.cpp:23-112 | end to end, for every list and every schedule on both ends: the two schedules determine the emitted bytes and the received messages; the receiver gets exactly the completely emitted messages up to its own failure, and everything when neither end breaks |
| TextOverlay.PenStartIsExact | src/base/video/render_text.cc:47-77 | the wrapped unsigned start position converts to the intended signed one if and only if that is representable, and it is for every size below 2^31 |
| TextOverlay.StartIsLiteral | src/base/video/render_text.cc:42-77 | the start position for each of the five placements in pixels |
| TextOverlay.EndIsExact | src/base/video/render_text.cc:95-96 | the mixed signed and unsigned loop bounds equal the glyph's true extent |
| TextOverlay.WritesStayInside | src/base/video/render_text.cc:101-103 | every computed offset is inside width*height*3, and it is the intended one in frames of at most 2^32 bytes |
| TextOverlay.IndexingIsExact | src/base/video/render_text.cc:101-103 | all offsets are the intended ones if and only if the frame is at most 2^32 bytes |
| TextOverlay.SetPixel | src/base/video/render_text.cc:101-103 | one pixel's three bytes become 255 and no other byte changes |
| TextOverlay.BlitRow | src/base/video/render_text.cc:98-105 | the clipped inner loop paints exactly the covered pixels of one glyph row |
| TextOverlay.BlitGlyph | src/base/video/render_text.cc:94-106 | the nested loops paint exactly the pixels the glyph covers |
| TextOverlay.InkIsDirect | src/base/video/render_text.cc:100 | bitmaps are indexed row by row, each row from left to right |
| TextOverlay.DrawItem | src/base/video/render_text.cc:81-110 | one character or newline advances pen and picture as the layout says |
| TextOverlay.LayoutIsExact | src/base/video/render_text.cc:81-110 | a character is drawn at the start column, or behind the characters since the last newline, and 20 pixels lower per newline before it |
| TextOverlay.RenderStringToFrame | src/base/video/render_text.cc:35-111 | every pixel of the frame afterwards is white if the bitmap of some character of the string, at its place, is inked there, and is unchanged otherwise |
| TextOverlay.PaintedPixel | src/base/video/render_text.cc:97-106 | the same said for each channel of each pixel by coordinates |
| TextOverlay.PaintingCommutes | src/encode.cpp:76-97 | drawing again changes nothing and the order of two drawings does not matter |
| TextOverlay.OrderOfGlyphsIsIrrelevant | src/base/video/render_text.cc:81-110 | the picture depends on which glyphs are placed where, not on their order |
| Cameras.SuccessAgrees | src/base/camera_manager.cc:33-50 | a message fails exactly when it changes the size and an encoder does not reopen; after a successful one an eye's camera, codec settings and contexts agree if and only if the size changed or they agreed before |
| Cameras.FailureDisagrees | src/base/camera_manager.cc:46-49 | a failed reopening keeps the old camera and always leaves the eye inconsistent, with the exact state of both encoders for each of the two failures |
| Cameras.SuccessRoundsDown | src/base/camera_manager.cc:34-49 | a successful size change stores an even size at most one pixel below the requested width and height, and opens both encoders for it; otherwise only the camera changes |
| Cameras.EyesFollowMessages | src/base/camera_manager.cc:33-69 | after any messages with any outcomes each eye holds the last camera accepted for it, and agrees with itself if and only if every failed reopening was followed by a successful one |
| Cameras.ResolutionFollowsRequests | src/base/camera_manager.cc:33-69 | for any outcomes, the size is the last accepted one rounded down to even if and only if the default is even or some accepted camera departed from it |
| Cameras.LastRequestIsRoundedDown | src/base/camera_manager.cc:33-69 | for any messages and outcomes, after a departure from the default the stored size is even and at most one pixel below the last accepted request, and so are settings and contexts once failures are repaired |
| Cameras.SuccessIsFollowed | src/base/camera_manager.cc:33-69 | when no reopening fails every camera is accepted and there is nothing to repair |
| Cameras.CodecContextManager.ChangeResolution | src/base/video/type_managers.cc:89-94 | settings take the new size; the context is opened for it or closed |
| Cameras.CameraManager.SetCameraLeft | src/base/camera_manager.cc:33-50 | the objects of the left eye follow the message function and the right eye is untouched |
| Cameras.CameraManager.SetCameraRight | src/base/camera_manager.cc:52-69 | the same for the right eye |
| Cameras.ServeMessages | src/base/server/camera_control.cc:14-31 | start-up wiring plus any sequence of messages with any outcomes: the objects hold what the message function says, and each eye agrees if and only if its failures were repaired |
| CodecLocks.CallsSeeMatchingContext | src/base/video/type_managers.cc:89-110 | over every interleaving of resolution changes and encoder calls the context seen under the lock is never one opened for other settings |
| CodecLocks.EncoderCallsAreCoherent | src/base/video/type_managers.cc:47-110 | from start-up, at most one thread is inside, and without failed reopenings every call finds a context open for the current settings |
| CodecLocks.CallsUseTheLastChange | src/base/video/type_managers.cc:89-110 | under every interleaving an encoder call works with the settings of the last change, and with an open context exactly when the last reopening succeeded |

## Left out

- libavcodec, libswscale, FreeType and protobuf: an encoder is a submission log, a glyph an arbitrary bitmap, a message an opaque byte string.
- Encoder return codes of `send_frame`: the code ignores them, so frames are submitted, not accepted.
- Frame dimensions: both eyes' converted frames are sized from the left codecs, so nothing is said about a right frame's size.
- The copy made by `CodecInfoProvider` and unsynchronised camera reads by clients: racy in the code; resolution agreement is stated between completed camera messages.
- WebSocket servers, command line, logging, timers and timestamps: presentation and plumbing.
- Connecting, reconnecting and address parsing: a client may appear at any time and dies after a failed send.
- Real time: a timeout is a step that a waiting thread may take at any moment.
- SocketSendBlocking: schedules of partial sends and EAGAIN are finite, so a socket that is full for ever is not covered.
- SocketReceiveBlocking: schedules of partial reads and EAGAIN are finite, so a read that blocks for ever is not covered; nor is a failed allocation for a huge announced length.
- RenderStringToFrame: string and glyph metrics must not overflow the signed pen arithmetic, which is undefined in the original, and a glyph's rows are taken to be contiguous.
- Pipeline.RunIsLaneRun: ticket counters and indices are unbounded, so nothing is said about a 64-bit counter that wraps.
- The exception of a failed reopening leaves the WebSocket handler; what it does to that server's thread is not modelled, and further messages may follow it.
- The `LockTimeout` handler around packet reception (src/encode.cpp:259-263): nothing it guards can throw that exception.
