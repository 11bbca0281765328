# Verified model of a video conference's transport and server state

This Dafny project models the parts of the conference software whose behaviour depends on
whole runs rather than on single calls, and proves what those runs keep.

**Media over UDP.** A video frame is serialised, split into datagrams of at most 512 bytes,
written, relayed unchanged by the server, and collected per sender by a decoder that hands
frames out under a key-frame and gap discipline (`MediaFrame`, `MediaProtocol`, `Reassembly`,
`VideoDecoder`, `VideoDecoderRuns`, `VideoConsumption`, `VideoCompletion`, `VideoOrder`,
`AudioDecoder`, `AudioLossless`, `ClientMedia`, `ClientDecoders`). The channel may lose, repeat
and reorder datagrams. The central results are
`ClientEndToEnd.ClientEndToEndSafety` (only frames that the named sender sent come out),
`VideoDecoderRuns.OutputDiscipline`, `VideoConsumption.NextExactly` (what each call returns, told
by the frames consumed before), `VideoLossless.LosslessDelivery` and
`VideoConsumption.LossyDelivery` (what does come out), `AudioEndToEnd.AudioOrder` and
`AudioLossless.EveryCompletedComesOut`.

**COR over TCP.** A resumable parser, its big-endian printer, a send queue with a current
item, and the table of pending replies (`CorProtocol`, `CorParser`, `CorReader`,
`CorConnection`, `CorEndpoints`, `CorReplies`). The central results are `CorReader.ChunkIndependence`,
`CorReader.CorRoundTrip` and, for two endpoints talking over two byte streams,
`CorEndpoints.RepliesGenuine`, `CorReplies.RepliesExact` and `CorReplies.EveryReplyArrives`.

**Server state.** Redundant tables of clients, channels, identifiers, memberships, direct
relations and tokens, the requests that change them, the routing table rebuilt from them where
the program does so, and the relay that works by it (`Membership`, `ServerState`, `ServerRuns`,
`ConferenceServer`, `Actions`, `Relay`). The central results are
`Membership.MembershipInvariant`, `ServerState.ReceiversExact`,
`ServerRuns.RoutesOfLastRebuild`, `ServerRuns.CurrentOverRuns`, `ServerRuns.ByteConservation`
and `ServerRuns.GoneFromRoutes`. `Delivery` joins both halves: `Delivery.VideoReachesExactly`
says who gets a datagram, `Delivery.ThroughTheServer` what may come out at the other end, and
`LosslessPath.LosslessThroughTheServer` what does when nothing is lost.

**Standalone algorithms.** The in-place colour conversion (`ImageUtil`) and the TeamSpeak
query text (`ServerQuery`).

Every object that the program updates in place is a class whose methods are proved against a
step function on the abstract state (`Model()`, `Channels()`); the lemmas about whole runs are
about those step functions. Runs are histories, a datatype of the calls made so far, with
preconditions of the program (a part index inside its buffer, a live channel when leaving) as
a predicate on the history; for traffic from honest senders that predicate is proved, not
assumed. Deleting a datagram is recorded in a ghost multiset, so that ownership can be counted.

`dafny verify dfyconfig.toml` checks the project.

Where code and comments differ, the model follows the code:

- the payload of one datagram is 491 bytes for video and 492 for audio
  (`projects/libmediaprotocol/libmediaprotocol/protocol.h:123-125`, `:197-199`), not 493;
- a finished frame's buffer stays in the decoder until it is evicted, although the header says
  it is moved (`projects/libclient/libclient/networkclient/udpvideoframedecoder.h:54-58`);
- the server relays the sender field unchanged, although a comment says it overrides it;
- the parser consumes the flags byte without storing it, because no copy branch has size 1
  (`projects/libcorprotocol/libcorprotocol/parser.c:104-119`), and reports a frame without a
  body only when a further byte arrives.

Four properties fail, each with a run that shows it and its exact condition:

- joining by a missing channel id with an identifier in use creates a second channel under it
  (`projects/videoserver/src/action/channels.cpp:90-108`): `Membership.IdentifiersCanClash`,
  `Membership.JoinRequestKeepsResolution` and, over runs, `Membership.IdentifiersResolve`;
- changing a visibility level does not rebuild the routing table
  (`projects/videoserver/src/action/actionbase.cpp:402-409`), so the relay may go on copying
  video to a client that its sender may no longer see: `ServerRuns.RoutesCanGoStale`,
  `ServerRuns.VisibilityStaysCurrent` and, over runs, `ServerRuns.CurrentOverRuns`;
- the destructor of the audio decoder deletes nothing
  (`projects/libclient/libclient/networkclient/audioudpdecoder.cpp:14-16`), so the datagrams its
  buffers hold then are never deleted: `AudioEndToEnd.PartIsNeverFreed`,
  `AudioEndToEnd.AllFreedAtDestruction`;
- video frames need not come out in strictly increasing order, and one can come out twice,
  because a frame 256 or more behind counts as new
  (`projects/libclient/libclient/networkclient/udpvideoframedecoder.cpp:70`, `:147`):
  `VideoOrder.FrameHandedOutTwice`, `VideoOrder.OrderExact`.

## Model

| member | source | states |
|---|---|---|
| `MediaFrame.SerializeRoundTrip` | projects/libapp/libapp/vp8frame.cpp:8-23 | Reading a frame back from its stream form gives the frame, whatever bytes follow. |
| `MediaFrame.SerializeInjective` | projects/libapp/libapp/vp8frame.cpp:8-14 | Two different frames never have the same stream form. |
| `MediaFrame.StreamLayout` | projects/libapp/libapp/vp8frame.cpp:8-14 | The stream form byte by byte: 64-bit time, 32-bit type, 32-bit length, data, each most significant byte first. |
| `Bytes.BigEndianByteAt` | projects/libclient/libclient/networkclient/mediasocket.cpp:281-283 | A number of n bytes is written most significant byte first: byte i is its i-th digit from the left in base 256. |
| `MediaProtocol.PartCountIsCeiling` | projects/libmediaprotocol/libmediaprotocol/protocol.cpp:154-155 | The part count is the ceiling quotient, between 1 and 65535: one part less would not hold the data. |
| `MediaProtocol.SplitPartition` | projects/libmediaprotocol/libmediaprotocol/protocol.cpp:143-183 | For every length a 16-bit count can express: parts numbered 0 to count-1, all but the last full, none empty, and the payloads in order give the data back. |
| `MediaProtocol.DoubleCountIsExact` | projects/libmediaprotocol/libmediaprotocol/protocol.cpp:154-155 | The ceiling of the quotient computed in double precision, whatever the rounding, is the exact ceiling quotient. |
| `MediaProtocol.Split` | projects/libmediaprotocol/libmediaprotocol/protocol.cpp:274-314 | The loop with its advancing data pointer fills a fresh array with exactly the slices of the specification; -1 and no array for empty data. Stated for video and audio alike. |
| `MediaProtocol.PartFitsDatagram` | projects/libmediaprotocol/libmediaprotocol/protocol.h:122-125 | Every part of a split frame, encoded, is at most 512 bytes. |
| `MediaProtocol.DecodeInvertsEncode` | projects/libclient/libclient/networkclient/mediasocket.cpp:278-292 | Decoding the wire form of any part with a payload gives that part back, field by field. |
| `MediaProtocol.DecodeRestInverts` | projects/libclient/libclient/networkclient/mediasocket.cpp:483-494 | The common fields of a part survive the wire: signed sender, 64-bit frame id, index, count, size, payload. |
| `MediaProtocol.WireLayout` | projects/libclient/libclient/networkclient/mediasocket.cpp:283-292 | The wire form byte by byte: magic 0xAE, type 0x02 or 0xA0, flags for video, then sender, frame id, index, count, size and data. |
| `MediaProtocol.DecodeRejects` | projects/libclient/libclient/networkclient/mediasocket.cpp:459-478 | A datagram that is empty, lacks the magic byte or has no known type is ignored. |
| `MediaProtocol.DecodeDropsEmpty` | projects/libclient/libclient/networkclient/mediasocket.cpp:490-499 | A part without data is dropped. |
| `SortedMap.KeepLargest` | projects/libclient/libclient/networkclient/udpvideoframedecoder.cpp:227-255 | Erasing from the front of the sorted map until n entries remain keeps the n largest keys with their values. |
| `SortedMap.KeepLargestUnique` | projects/libclient/libclient/networkclient/udpvideoframedecoder.cpp:227-255 | That description determines the result: any other map satisfying it is the same one. |
| `Reassembly.IsComplete` | projects/libclient/libclient/networkclient/udpvideoframedecoder.cpp:201-210 | The scan says complete exactly if no slot is empty. |
| `Reassembly.Glue` | projects/libclient/libclient/networkclient/udpvideoframedecoder.cpp:212-219 | The byte-appending loop yields the payloads of the slots in index order. |
| `Reassembly.CheckFrameBuffers` | projects/libclient/libclient/networkclient/udpvideoframedecoder.cpp:227-245 | The eviction loop leaves the buffers with the largest frame ids, and the datagrams it deletes are exactly those held by the others. |
| `Reassembly.CheckQueue` | projects/libclient/libclient/networkclient/udpvideoframedecoder.cpp:247-255 | The eviction loop on the finished frames leaves those with the largest keys. |
| `Reassembly.OwnedInsert` | projects/libclient/libclient/networkclient/udpvideoframedecoder.cpp:99-100 | Storing a part in a free slot adds exactly that part to the datagrams held. |
| `Reassembly.EvictionConserves` | projects/libclient/libclient/networkclient/udpvideoframedecoder.cpp:227-245 | What was held before an eviction is what is held after it plus what was deleted, counted with multiplicity. |
| `Reassembly.InsertHonest` | projects/libclient/libclient/networkclient/udpvideoframedecoder.cpp:78-100 | When every slot is empty or holds the part sent for that slot, an arriving sent part indexes inside its buffer and keeps it so: fragments of two frames never mix. |
| `VideoDecoder.VideoFrameUdpDecoder.Add` | projects/libclient/libclient/networkclient/udpvideoframedecoder.cpp:60-121 | The whole new state, the error code and the frame built by add() are those of the step function the run theorems are about; CanAdd is what the unchecked slot access demands. |
| `VideoDecoderRuns.AddVerdict` | projects/libclient/libclient/networkclient/udpvideoframedecoder.cpp:62-120 | add() answers AlreadyProcessed exactly for a part at most 255 below the last consumed id or in a taken slot, which is deleted and changes nothing else; any other part is stored, and its frame waits at its time if it is complete. |
| `VideoDecoder.VideoFrameUdpDecoder.Next` | projects/libclient/libclient/networkclient/udpvideoframedecoder.cpp:123-194 | The whole new state and the frame returned by next() are those of the step function the run theorems are about. |
| `VideoDecoder.VideoFrameUdpDecoder.CreateFrame` | projects/libclient/libclient/networkclient/udpvideoframedecoder.cpp:212-225 | Gluing a complete buffer and reading the stream gives the frame its bytes stand for. |
| `VideoDecoder.VideoFrameUdpDecoder.Destroy` | projects/libclient/libclient/networkclient/udpvideoframedecoder.cpp:54-58 | Destruction empties both maps and deletes exactly the datagrams still held. |
| `VideoDecoderRuns.OwnershipConserved` | projects/libclient/libclient/networkclient/udpvideoframedecoder.cpp:60-121 | Over every run: the multiset of datagrams held in slots plus that of deleted ones is the multiset of datagrams passed in, so each is in exactly one slot or deleted exactly once. |
| `VideoDecoderRuns.AllFreedAtDestruction` | projects/libclient/libclient/networkclient/udpvideoframedecoder.cpp:54-58 | Destroying the decoder after any run brings the deleted datagrams to exactly those passed in. |
| `VideoDecoderRuns.WindowBounded` | projects/libclient/libclient/networkclient/udpvideoframedecoder.cpp:105-117 | At any point of any run at most 16 buffers and 16 finished frames are kept. |
| `VideoDecoderRuns.OnlyOldestDropped` | projects/libclient/libclient/networkclient/udpvideoframedecoder.cpp:227-255 | add() drops a buffer or finished frame only when 16 remain and all that remain have larger keys. |
| `VideoDecoderRuns.JudgeDisciplined` | projects/libclient/libclient/networkclient/udpvideoframedecoder.cpp:138-193 | The six-way decision of next() keeps the output discipline, whatever the front frame is. |
| `VideoDecoderRuns.OutputDiscipline` | projects/libclient/libclient/networkclient/udpvideoframedecoder.cpp:123-194 | Over every run: the first frame consumed is a key frame, each consumed id is above the last one or at least 256 below it, and a frame is handed out exactly if it is a key frame or the one before it was handed out in sequence. |
| `VideoDecoderRuns.BreakThenKey` | projects/libclient/libclient/networkclient/udpvideoframedecoder.cpp:161-184 | After an out-of-sequence frame was handed out, the next one handed out is a key frame. |
| `VideoDecoderRuns.SegmentsContinue` | projects/libclient/libclient/networkclient/udpvideoframedecoder.cpp:153-193 | A frame that is handed out and is no key frame directly follows one that was handed out in sequence; so a segment starts with a key frame and ends with at most one out-of-sequence frame. |
| `VideoDecoderRuns.OutputInSegments` | projects/libclient/libclient/networkclient/udpvideoframedecoder.cpp:123-194 | Over every run, in terms of what next() returned: the first frame is a key frame, and any other one is a key frame or follows one that is a key frame or the direct successor of the frame before it. |
| `VideoConsumption.NextExactly` | projects/libclient/libclient/networkclient/udpvideoframedecoder.cpp:123-194 | Over every run, one call of next(): the oldest waiting frame leaves the queue; it is consumed exactly if it is newer than the last consumed one or at least 256 older and is a key frame or follows one, and returned exactly if besides it is a key frame or the last consumed frame was returned in sequence. |
| `VideoConsumption.WaitsExactly` | projects/libclient/libclient/networkclient/udpvideoframedecoder.cpp:138-199 | Over every run the awaited type is KEY exactly if the last consumed frame was not returned in sequence, or none was consumed and another frame was met before the first key frame. |
| `VideoConsumption.LossyDelivery` | projects/libclient/libclient/networkclient/udpvideoframedecoder.cpp:60-194 | Delivery under loss: when next() follows every arrival and frames complete in increasing order with any of them missing, the frames consumed are exactly the completed ones from the first key frame on. |
| `VideoCompletion.PartStep` | projects/libclient/libclient/networkclient/udpvideoframedecoder.cpp:87-113 | One arriving part: the buffer holds exactly the parts that arrived, and the frame is built exactly if this part was the last one missing. |
| `VideoCompletion.CompletionExactlyOnce` | projects/libclient/libclient/networkclient/udpvideoframedecoder.cpp:78-113 | For a buffer that is neither evicted nor passed over, any order and any repetition: the frame was built once if all parts arrived, and not at all otherwise. |
| `VideoCompletion.BuiltAtLastPart` | projects/libclient/libclient/networkclient/udpvideoframedecoder.cpp:99-113 | The frame is built at the arrival of its last distinct part and at no other event. |
| `HonestFrames.SentPartsWellNumbered` | projects/libmediaprotocol/libmediaprotocol/protocol.cpp:159-170 | The parts of all frames a sender splits carry their frame id, index and count consistently. |
| `HonestFrames.BuiltFrameWasSent` | projects/libclient/libclient/networkclient/udpvideoframedecoder.cpp:212-225 | A complete buffer of sent parts deserialises to the very frame that was split. |
| `VideoEndToEnd.AddOnlySent` | projects/libclient/libclient/networkclient/udpvideoframedecoder.cpp:60-121 | A sent part never indexes out of range, and after it the buffers still hold sent parts in their own slots and the queue only sent frames. |
| `VideoEndToEnd.EndToEndSafety` | projects/libclient/libclient/networkclient/udpvideoframedecoder.cpp:60-225 | Over a channel that may lose, repeat and reorder, with next() called anywhere: every frame handed out equals (time, type, data) one that was sent. Frame ids and frame times are not assumed to agree. |
| `VideoLossless.PartArrives` | projects/libclient/libclient/networkclient/udpvideoframedecoder.cpp:78-117 | A new part of the newest frame is stored, survives eviction, and builds the frame when it is the last one missing. |
| `VideoLossless.RoundStep` | projects/libclient/libclient/networkclient/udpvideoframedecoder.cpp:60-194 | Any part of the frame under way, seen before or not, keeps the decoder on course: repeats change nothing, and the frame comes out with its last missing part. |
| `VideoLossless.NextDelivers` | projects/libclient/libclient/networkclient/udpvideoframedecoder.cpp:147-193 | A single finished frame that is the direct successor (and a key frame if none was seen) is handed out. |
| `VideoLossless.LosslessDelivery` | projects/libclient/libclient/networkclient/udpvideoframedecoder.cpp:60-194 | The converse of safety: for a stream numbered from 1 that starts with a key frame, when nothing is lost, and the parts of each frame arrive in any order and any of them repeatedly, the frames handed out are exactly the frames sent, once and in order. |
| `SingleFrames.CounterAgreesWithScan` | projects/libclient/libclient/networkclient/MediaSocketVideoFrameDecoder.cpp:19-39 | The number of filled slots equals the capacity exactly if the full scan finds no empty slot. |
| `SingleFrames.SingleFrameBuffer.Add` | projects/libclient/libclient/networkclient/MediaSocketVideoFrameDecoder.cpp:19-33 | A part goes to its free slot or is deleted, and the counter verdict returned is that of the scan. |
| `SingleFrames.SingleFrameBuffer.IsComplete` | projects/libclient/libclient/networkclient/MediaSocketVideoFrameDecoder.cpp:35-39 | The counter verdict is that of the scan. |
| `VideoOrder.VideoOrder` | projects/libclient/libclient/networkclient/udpvideoframedecoder.cpp:60-194 | When frame time equals frame id and no part completes a frame 256 or more behind the last consumed one, the times handed out strictly increase over every run: no video frame comes out twice or late. |
| `VideoOrder.OrderExact` | projects/libclient/libclient/networkclient/udpvideoframedecoder.cpp:60-194 | When next() is called after every arrival, the consumed times strictly increase if and only if no part completed a frame 256 or more behind. |
| `VideoOrder.KeyFrameAgain` | projects/libclient/libclient/networkclient/udpvideoframedecoder.cpp:147-159 | A key frame of one part whose buffer is gone comes out again if and only if it is newer than the last consumed frame or at least 256 older. |
| `VideoOrder.FrameHandedOutTwice` | projects/libclient/libclient/networkclient/udpvideoframedecoder.cpp:147-159 | A run that repeats a frame: after seventeen key frames the part of the first one comes again, and next() hands that frame out a second time. |
| `AudioDecoder.AudioUdpDecoder.Add` | projects/libclient/libclient/networkclient/audioudpdecoder.cpp:18-69 | The whole new state, the datagrams deleted and the error code of add() are those of the audio step function. |
| `AudioDecoder.AudioUdpDecoder.Next` | projects/libclient/libclient/networkclient/audioudpdecoder.cpp:71-89 | The whole new state and the frame returned are those of the audio step function. |
| `AudioLossless.AddVerdict` | projects/libclient/libclient/networkclient/audioudpdecoder.cpp:18-69 | add() answers AlreadyProcessedFrame exactly for a part not newer than the last returned frame or in a taken slot, which is deleted; any other part is stored, and its frame waits if it is complete. |
| `AudioLossless.NextExactly` | projects/libclient/libclient/networkclient/audioudpdecoder.cpp:71-89 | Over every run next() returns the oldest waiting frame, whatever was returned before, and nothing only if none waits. |
| `AudioLossless.EveryCompletedComesOut` | projects/libclient/libclient/networkclient/audioudpdecoder.cpp:18-89 | When next() follows every arrival, the frames returned are exactly the completed ones, in the order of completion. |
| `AudioLossless.LosslessDelivery` | projects/libclient/libclient/networkclient/audioudpdecoder.cpp:18-117 | Without loss every audio frame comes out, once and in order, however the parts of each frame are reordered and repeated. |
| `AudioEndToEnd.OwnershipConserved` | projects/libclient/libclient/networkclient/audioudpdecoder.cpp:18-145 | Over every run each datagram passed in is in exactly one slot or was deleted exactly once. |
| `AudioEndToEnd.AllFreedAtDestruction` | projects/libclient/libclient/networkclient/audioudpdecoder.cpp:14-16 | The destructor deletes nothing: at its end every datagram passed in has been deleted if and only if no part of a frame with a positive number ever came in. |
| `AudioEndToEnd.PartIsNeverFreed` | projects/libclient/libclient/networkclient/audioudpdecoder.cpp:14-16 | A run that fails: the one part of frame 1 comes in, the frame is handed out, and the part is never deleted. |
| `AudioEndToEnd.BuffersStay` | projects/libclient/libclient/networkclient/audioudpdecoder.cpp:18-89 | Over every run a buffer exists exactly from the first part with a positive number on, none is empty, and without any the decoder is as it was built. |
| `AudioEndToEnd.EndToEndSafety` | projects/libclient/libclient/networkclient/audioudpdecoder.cpp:18-117 | Over a channel that may lose, repeat and reorder, every audio frame handed out equals one that was sent. |
| `AudioEndToEnd.ArriveAhead` | projects/libclient/libclient/networkclient/audioudpdecoder.cpp:26-66 | When frame time equals frame id, an arriving part keeps every finished frame above the last one returned. |
| `AudioEndToEnd.AudioOrder` | projects/libclient/libclient/networkclient/audioudpdecoder.cpp:18-89 | When frame time equals frame id, the times handed out strictly increase over every run and everything waiting is above them: no frame is returned twice or late. |
| `ClientMedia.MediaSocket.SendVideoFrame` | projects/libclient/libclient/networkclient/mediasocket.cpp:253-306 | Writes exactly the encodings of the parts in order and counts their bytes; nothing for an empty frame or frame id 0. |
| `ClientMedia.MediaSocket.OnDatagram` | projects/libclient/libclient/networkclient/mediasocket.cpp:449-533 | Decodes one datagram, feeds a video part to its own sender's decoder (created on demand) and no other, passes on what next() returns, and requests a key frame from that sender exactly if the decoder waits and a request is due; counts the bytes read and written. |
| `ClientMedia.DecodeInvertsRecovery` | projects/libclient/libclient/networkclient/mediasocket.cpp:313-339 | A key frame request reads back as one for that sender and frame. |
| `ClientMedia.RecoveryLayout` | projects/libclient/libclient/networkclient/mediasocket.cpp:326-337 | The key frame request byte by byte: magic, type 0x03, sender, frame id, index 0. |
| `ClientDecoders.SendersIndependent` | projects/libclient/libclient/networkclient/mediasocket.cpp:501-519 | Whatever other senders, other datagrams and resets come in between, the state kept for a sender and the frames passed on for it since its last reset are those of one decoder that gets this sender's parts, next() being called after each. |
| `ClientDecoders.RequestsExact` | projects/libclient/libclient/networkclient/mediasocket.cpp:513-531 | Over every run of a client a datagram makes it request a key frame exactly if it is a video part with a frame id and a sender, a request is due, and that sender's decoder then lacks a key frame; the request names that sender and that frame. |
| `ClientMedia.MediaSocket.EnsureDecoder` | projects/libclient/libclient/networkclient/mediasocket.cpp:504-510 | A sender gets a fresh decoder on its first part; no two senders ever share one. |
| `ClientMedia.MediaSocket.ResetVideoDecoderOfClient` | projects/libclient/libclient/networkclient/mediasocket.cpp:182-188 | Forgets the decoder of that sender and of nobody else. |
| `ClientEndToEnd.ReceiveOnlySent` | projects/libclient/libclient/networkclient/mediasocket.cpp:449-519 | The bytes of any part any sender wrote are accepted, and what is passed on is a frame that sender sent. |
| `ClientEndToEnd.ClientEndToEndSafety` | projects/libclient/libclient/networkclient/mediasocket.cpp:449-533 | Bytes in, frames out, many senders interleaved, among any datagrams that are no video parts: whatever the network loses, repeats or reorders, every frame passed on under a sender id is one that this sender transmitted. |
| `CorParser.Turn` | projects/libcorprotocol/libcorprotocol/parser.c:58-156 | Every turn of the loop consumes at most the bytes given and either consumes some or lowers a rank: the loop terminates, also through its non-consuming turns. |
| `CorParser.RemainderBound` | projects/libcorprotocol/libcorprotocol/parser.c:58-157 | What a parse leaves is a suffix of the input, is shorter than the header field being waited for, and is empty in a body. |
| `CorParser.CorParser.ParseInput` | projects/libcorprotocol/libcorprotocol/parser.c:50-158 | The loop's bytes consumed, callbacks and final state are those of the recursive parse. |
| `CorReader.ObserveIsParse` | projects/libqtcorprotocol/libqtcorprotocol/qcorconnection.cpp:232-295 | Applying the callbacks while parsing gives the same as applying the list of callbacks afterwards. |
| `CorReader.ObserveAppend` | projects/libqtcorprotocol/libqtcorprotocol/qcorconnection.cpp:155-165 | Parsing a + b is parsing a and then what it left over followed by b, from any parser state. |
| `CorReader.ChunkIndependence` | projects/libqtcorprotocol/libqtcorprotocol/qcorconnection.cpp:152-166 | For every byte string and every way of cutting it into reads: same parser state, leftover bytes, frame under construction and finished frames as one read of the whole. |
| `CorReader.LeftoverBound` | projects/libqtcorprotocol/libqtcorprotocol/qcorconnection.cpp:155-165 | After any reads at most 3 bytes stay in the connection's buffer. |
| `CorReader.ReportsAreMonotone` | projects/libqtcorprotocol/libqtcorprotocol/qcorconnection.cpp:272-295 | A frame once reported stays reported while more bytes come in. |
| `CorReader.OneFrame` | projects/libcorprotocol/libcorprotocol/parser.c:69-154 | An encoded frame with a body, or followed by anything, is reported with its type, correlation id and data, whatever its flags, and leaves the parser as it was. |
| `CorReader.CallbacksOfFrame` | projects/libcorprotocol/libcorprotocol/parser.c:58-154 | A frame with a body that arrives in one piece causes exactly six callbacks, in order, with its header and its body. |
| `CorProtocol.FrameLayout` | projects/libqtcorprotocol/libqtcorprotocol/qcorconnection.cpp:204-211 | The wire form byte by byte: version, type, flags, correlation id, length, data, most significant byte first. |
| `CorReader.EmptyFrameWaits` | projects/libcorprotocol/libcorprotocol/parser.c:134-154 | A frame without a body at the end of the input is consumed whole but not reported. |
| `CorReader.CorRoundTrip` | projects/libqtcorprotocol/libqtcorprotocol/qcorconnection.cpp:195-211 | The encodings of any list of frames, cut into reads in any way, are reported as exactly that list with nothing left over; only a final frame without a body is held back. |
| `CorReader.CorRoundTripNextByte` | projects/libcorprotocol/libcorprotocol/parser.c:134-154 | With any byte after them all frames are reported. |
| `CorReader.PrefixReported` | projects/libcorprotocol/libcorprotocol/parser.c:50-158 | Whoever has read a prefix of the encodings has reported a prefix of the list. |
| `CorConnection.QCorConnection.SendRequest` | projects/libqtcorprotocol/libqtcorprotocol/qcorconnection.cpp:113-134 | The whole new state of the connection: id increment, queued frame, pending reply, and one frame written if none is current; nothing while not connected. |
| `CorConnection.QCorConnection.SendResponse` | projects/libqtcorprotocol/libqtcorprotocol/qcorconnection.cpp:136-150 | A response is queued under the id of its request and written if none is current; nothing while not connected. |
| `CorConnection.QCorConnection.DoNextSendItem` | projects/libqtcorprotocol/libqtcorprotocol/qcorconnection.cpp:182-214 | Takes the oldest queued frame, writes its encoding and queues one done notification, only if connected with no current item. |
| `CorConnection.QCorConnection.OnCurrentSendItemDone` | projects/libqtcorprotocol/libqtcorprotocol/qcorconnection.cpp:216-221 | Finishes the current item and writes the next one. |
| `CorConnection.QCorConnection.OnSocketReadyRead` | projects/libqtcorprotocol/libqtcorprotocol/qcorconnection.cpp:152-166 | Parser, buffer, frame and reply table after the read loop are those of feeding the reads one by one. |
| `CorConnection.QCorConnection.OnEvents` | projects/libqtcorprotocol/libqtcorprotocol/qcorconnection.cpp:232-295 | The callbacks build the frames of the reader model, and each finished frame is answered once: a request announced, a response taken out of the reply table. |
| `CorEndpoints.QueueDrains` | projects/libqtcorprotocol/libqtcorprotocol/qcorconnection.cpp:182-221 | While connected the queue drains: after as many done notifications as frames wait, plus one, nothing is queued or current and the wire holds everything ever enqueued, in order. |
| `CorEndpoints.IssueKeepsReplyInv` | projects/libqtcorprotocol/libqtcorprotocol/qcorconnection.cpp:122-130 | Issuing a request uses an id no pending or answered reply has. |
| `CorEndpoints.TakeKeepsReplyInv` | projects/libqtcorprotocol/libqtcorprotocol/qcorconnection.cpp:278-293 | Answering keeps pending plus answered equal to issued, and no reply is notified twice. |
| `CorEndpoints.StrayResponseIgnored` | projects/libqtcorprotocol/libqtcorprotocol/qcorconnection.cpp:283-291 | A response with an unknown id, or a repeated one, changes nothing. |
| `CorEndpoints.PendingExact` | projects/libqtcorprotocol/libqtcorprotocol/qcorconnection.cpp:127-130 | The reply table holds exactly the replies issued and not answered. |
| `CorEndpoints.SystemInvariant` | projects/libqtcorprotocol/libqtcorprotocol/qcorconnection.cpp:113-221 | Over every run of two endpoints and two FIFO byte streams: wire bytes are the encodings of the frames in enqueue order, a non-empty queue has a current item with its notification queued, and what one side read is a prefix of what the other wrote. |
| `CorEndpoints.ReportedIsPrefixOfSent` | projects/libqtcorprotocol/libqtcorprotocol/qcorconnection.cpp:152-166 | At any time the frames an endpoint reported are, in order, the first ones its peer enqueued. |
| `CorEndpoints.RepliesGenuine` | projects/libqtcorprotocol/libqtcorprotocol/qcorconnection.cpp:272-295 | Over every run each reply finishes at most once, with the data of a response the peer enqueued for that correlation id; the pending replies are exactly those issued and not answered. |
| `CorEndpoints.AllReported` | projects/libqtcorprotocol/libqtcorprotocol/qcorconnection.cpp:152-221 | When all bytes of a drained peer were read, every frame it enqueued has been reported, but for a last one without a body. |
| `CorReplies.LogIsAsked` | projects/libqtcorprotocol/libqtcorprotocol/qcorconnection.cpp:113-150 | Over every run an endpoint enqueues exactly what its application asked for: version 1, requests numbered from 1 in order, responses under the id they answer, each with its own data. |
| `CorReplies.ReportedIsPrefixOfAsked` | projects/libqtcorprotocol/libqtcorprotocol/qcorconnection.cpp:152-166 | At any time the frames reported are, with type, id and data, the first ones the peer's application asked for. |
| `CorReplies.RepliesCarryResponses` | projects/libqtcorprotocol/libqtcorprotocol/qcorconnection.cpp:283-291 | Every finished reply carries the data with which the peer's application responded to that reply's id. |
| `CorReplies.BatchSettles` | projects/libqtcorprotocol/libqtcorprotocol/qcorconnection.cpp:278-293 | Reading a batch of frames: a waiting reply finishes with the first response to it in the batch, and goes on waiting exactly if there is none. |
| `CorReplies.RepliesExact` | projects/libqtcorprotocol/libqtcorprotocol/qcorconnection.cpp:272-295 | Over every run a reply waits exactly as long as no response to it was reported since it was issued, and has finished with the first such response otherwise; the requests announced are exactly the request frames reported, in order. |
| `CorReplies.PoliteAnswersLater` | projects/libqtcorprotocol/libqtcorprotocol/qcorconnection.cpp:113-150 | If the peer responds only to requests it was told of, every response comes after the issue of its request. |
| `CorReplies.EveryReplyArrives` | projects/libqtcorprotocol/libqtcorprotocol/qcorconnection.cpp:113-295 | With such a peer, once all it wrote was read, every request it responded to has finished with the data of its first response; only a response without data that is the very last frame waits for a further byte. |
| `CorReplies.SilentWhenDisconnected` | projects/libqtcorprotocol/libqtcorprotocol/qcorconnection.cpp:115-117 | While the socket is not connected nothing is queued, written or issued. |
| `Membership.LeaveOneMore` | projects/videoserver/src/virtualserver.cpp:302-305 | One turn of the leave-all loop: the channel looked up exists, and leaving it after the others is leaving all of them at once. |
| `Membership.CreateKeepsInv` | projects/videoserver/src/virtualserver.cpp:213-224 | A created channel has an unused id, and no membership changes. |
| `Membership.JoinKeepsInv` | projects/videoserver/src/virtualserver.cpp:260-271 | Joining adds exactly one pair to the membership relation, and none for a missing channel. |
| `Membership.CreateAddsChannel` | projects/videoserver/src/virtualserver.cpp:215-223 | A created channel is live under its new id with its identifier, and a non-empty identifier leads to it. |
| `Membership.LeaveKeepsInv` | projects/videoserver/src/virtualserver.cpp:273-291 | Leaving removes exactly one pair, and the channel exactly if nobody else was in it. |
| `Membership.LeaveAllKeepsInv` | projects/videoserver/src/virtualserver.cpp:293-306 | Leaving all channels removes exactly the pairs of that client, and exactly the channels where it was alone. |
| `Membership.CreateKeepsResolution` | projects/videoserver/src/virtualserver.cpp:219-221 | Every live identifier goes on resolving to its own channel over a creation if and only if the new identifier is empty or unused; a second channel with the same identifier hides the first. |
| `Membership.CreateRequestKeepsInv` | projects/videoserver/src/action/channels.cpp:46-71 | A create request adds exactly the pair of the client and the new channel. |
| `Membership.JoinRequestKeepsInv` | projects/videoserver/src/action/channels.cpp:84-124 | A join request adds exactly one pair: to the live channel of its id, or else to that of its identifier, if the password was right, or to a new channel if there is none but an identifier; and nothing otherwise. |
| `Membership.LeaveRequestKeepsInv` | projects/videoserver/src/action/channels.cpp:153-175 | A leave request removes exactly the one pair, and the channel exactly if nobody else was in it; for a channel that does not exist it changes nothing. |
| `Membership.JoinRequestKeepsResolution` | projects/videoserver/src/action/channels.cpp:90-108 | Identifiers go on resolving over a join request if and only if it does not name a missing channel id together with an identifier in use. |
| `Membership.IdentifiersResolve` | projects/videoserver/src/virtualserver.cpp:213-306 | Over every run, requests included: every live identifier resolves to its own channel at all times if and only if no operation took an identifier in use for a new channel. |
| `Membership.IdentifiersCanClash` | projects/videoserver/src/action/channels.cpp:90-108 | A run of two join requests after which two live channels have the identifier x, which resolves to the second. |
| `Membership.MembershipInvariant` | projects/videoserver/src/virtualserver.cpp:213-306 | After every run of create, join, leave, leave-all and the requests built from them: the two membership tables are inverse relations, no empty set is stored, every participated channel is live, every identifier entry names a live channel with that identifier. |
| `Membership.ChannelIdsNotReused` | projects/videoserver/src/virtualserver.cpp:215-219 | Whatever happens after a channel is gone, its id names no channel again. |
| `ServerState.SiblingsShareChannel` | projects/videoserver/src/virtualserver.cpp:308-326 | The filtered siblings of a client are exactly the known clients it may see and shares a channel with. |
| `ServerState.SendersExact` | projects/videoserver/src/virtualserver.cpp:141-154 | The senders of the routing table are exactly the endpoints with an address and a port above 0 of clients with video or audio on. |
| `ServerState.ReceiversExact` | projects/videoserver/src/virtualserver.cpp:157-193 | When nobody else streams from its endpoint, a sender's list names each client once for sharing a channel and being visible, once for a direct relation, twice only when both apply, and never the sender. |
| `ServerState.ReceiversAreClients` | projects/videoserver/src/virtualserver.cpp:157-193 | Nothing else is in a receiver list: every entry is a client with its own endpoint. |
| `ServerState.AddSender` | projects/videoserver/src/virtualserver.cpp:152-203 | Adding the entry of one more streaming client extends a partial table that meets the specification; of clients with the same endpoint the last one stays. |
| `ServerState.RoutesExist` | projects/videoserver/src/virtualserver.cpp:135-206 | Some routing table meets the relational specification in every state that the server can be in. |
| `ServerState.StepKeepsInv` | projects/videoserver/src/clientconnectionhandler.cpp:29-82 | Connecting, disconnecting, channel requests, media switches, tokens and direct relations keep all tables in agreement. |
| `ServerState.ServerInvariant` | projects/videoserver/src/clientconnectionhandler.cpp:29-82 | The tables agree after every run of these steps. |
| `ServerState.DisconnectLeavesNoTrace` | projects/videoserver/src/clientconnectionhandler.cpp:65-82 | After a disconnect the client id is in no client, connection, membership or direct relation, neither as key nor as value. |
| `ServerState.AbsentFromRoutes` | projects/videoserver/src/virtualserver.cpp:135-206 | An id that is in no table is neither sender nor receiver in the rebuilt routing table. |
| `ServerState.GoneStaysGone` | projects/videoserver/src/clientconnectionhandler.cpp:37-41 | Ids are never reused: whatever happens after a disconnect, that id stays in no table. |
| `ServerState.LeftoverTokenHarmless` | projects/videoserver/src/virtualserver.cpp:367-382 | A media token left over from a client that is gone changes no client, however much later it is used. |
| `ServerState.TokenGivesOneEndpoint` | projects/videoserver/src/virtualserver.cpp:367-386 | Using a token gives an endpoint to the client it was issued for and to nobody else, and uses the token up. |
| `ServerState.DirectAddedExact` | projects/videoserver/src/action/actionbase.cpp:413-437 | Adding a direct relation between known clients adds the one pair, from sender to receiver, and nothing else. |
| `ServerState.DirectRemovedExact` | projects/videoserver/src/action/actionbase.cpp:441-456 | Removing one removes the one pair, and nothing else. |
| `ServerState.ClientStepsExact` | projects/videoserver/src/action/actionbase.cpp:313-331 | Switching media, setting a visibility level and issuing a token each change the one thing of the one client. |
| `ServerState.DisconnectExact` | projects/videoserver/src/clientconnectionhandler.cpp:65-82 | A disconnect takes out the one client, its memberships and its direct relations on either side; every other client, membership, relation and token stays. |
| `ServerState.ConnectExact` | projects/videoserver/src/clientconnectionhandler.cpp:37-41 | A new client gets the next id; it has no endpoint, sends nothing, and is visible to all. |
| `ConferenceServer.VirtualServer.OnNewConnection` | projects/videoserver/src/clientconnectionhandler.cpp:37-41 | A new connection gets the next client id, and only the client and connection tables change. |
| `ConferenceServer.VirtualServer.CreateChannel` | projects/videoserver/src/virtualserver.cpp:213-224 | The channel tables after the call are those of the specification. |
| `ConferenceServer.VirtualServer.AddClientToChannel` | projects/videoserver/src/virtualserver.cpp:260-271 | The channel tables after the call are those of the specification; a missing channel changes nothing and yields none. |
| `ConferenceServer.VirtualServer.RemoveClientFromChannel` | projects/videoserver/src/virtualserver.cpp:273-291 | Despite the empty entries that indexing inserts, the tables end as the specification says. |
| `ConferenceServer.VirtualServer.RemoveClientFromChannels` | projects/videoserver/src/virtualserver.cpp:293-306 | In whatever order the channels are visited, the result is that of leaving all at once, and no channel looked up is missing. |
| `ConferenceServer.VirtualServer.GetSiblingClientIds` | projects/videoserver/src/virtualserver.cpp:308-326 | The nested loops collect exactly the siblings of the relational definition. |
| `ConferenceServer.VirtualServer.CollectReceivers` | projects/videoserver/src/virtualserver.cpp:157-193 | The filtering loop appends one receiver per eligible id, in any order. |
| `ConferenceServer.VirtualServer.UpdateMediaRecipients` | projects/videoserver/src/virtualserver.cpp:135-206 | The table handed to the relay satisfies the relational specification of the routing table. |
| `ConferenceServer.VirtualServer.OnMediaSocketTokenAuthentication` | projects/videoserver/src/virtualserver.cpp:367-395 | The new state is that of using the token, and the routing table is rebuilt exactly if a client got an endpoint. |
| `ConferenceServer.VirtualServer.OnReadyRead` | projects/videoserver/src/mediasockethandler.cpp:93-184 | The read loop with the slot that each announced token runs at once: tables, relay table with its default entries, packets and both byte counters end as the fold of the single steps says, so datagrams after an accepted token already go by the rebuilt table. |
| `ConferenceServer.VirtualServer.OnDatagram` | projects/videoserver/src/mediasockethandler.cpp:97-132 | One turn: the datagram is forwarded by the table in force, and an accepted token rebuilds the table before the next turn. |
| `ConferenceServer.VirtualServer.OnDisconnected` | projects/videoserver/src/clientconnectionhandler.cpp:65-82 | The new state is that of the disconnect step, the client id occurs nowhere in it, and the routing table is that of the new state. |
| `ConferenceServer.VirtualServer.RemoveDirectRelations` | projects/videoserver/src/clientconnectionhandler.cpp:71-74 | The client is removed as a sender and from the receivers of every other sender; other relations stay. |
| `Relay.FanOutBytes` | projects/videoserver/src/mediasockethandler.cpp:141-147 | Copying to a receiver list costs the length of the datagram once per receiver. |
| `Relay.ForwardCost` | projects/videoserver/src/mediasockethandler.cpp:136-166 | The bytes written for one datagram: length times fan-out for a video part, its length for a forwarded recovery request, nothing otherwise. |
| `Relay.TouchedSameRoutes` | projects/videoserver/src/mediasockethandler.cpp:140-157 | The default entries that looking up a route inserts never change where anything is routed. |
| `Relay.AuthAnnounces` | projects/libclient/libclient/networkclient/mediasocket.cpp:232-243 | A token sent by a client is announced by the relay with the endpoint it came from, byte by byte. |
| `Relay.AuthLayout` | projects/libclient/libclient/networkclient/mediasocket.cpp:232-243 | The token's datagram byte by byte: magic, type 0x01, size, token. |
| `Relay.ShortTokenIgnored` | projects/videoserver/src/mediasockethandler.cpp:123-130 | A token cut short is not announced. |
| `Relay.OthersIgnored` | projects/videoserver/src/mediasockethandler.cpp:110-118 | A datagram without the magic byte, or of a type other than token, video part and recovery request, is neither forwarded nor announced, and leaves the table alone. |
| `Relay.AudioNotRelayed` | projects/videoserver/src/mediasockethandler.cpp:169-180 | Audio parts are not relayed. |
| `Relay.MediaSocketHandler.OnDatagram` | projects/videoserver/src/mediasockethandler.cpp:97-167 | One turn: the table gains exactly the default entry of its lookup, the specified packets are written and counted, and a token is announced exactly if the datagram carries a whole one. |
| `Relay.SplitPartsRelayed` | projects/videoserver/src/mediasockethandler.cpp:136-149 | Every encoded part of a split video frame fits the read buffer, is recognised, and is copied unchanged to each receiver of its sender. |
| `Relay.MediaSocketHandler.LookupSender` | projects/videoserver/src/mediasockethandler.cpp:140 | The sender's receivers are those of the table, and the two hash lookups insert at most their default entries. |
| `Relay.MediaSocketHandler.Recover` | projects/videoserver/src/mediasockethandler.cpp:151-167 | A recovery request goes to the one client it names, or nowhere if that client has no endpoint. |
| `ServerRuns.RoutesOfLastRebuild` | projects/videoserver/src/virtualserver.cpp:135-206 | Over every run of requests and datagrams: the relay routes as the table of the last rebuild says, and that table meets the specification for the server as it was then. |
| `ServerRuns.RoutesKeptBetweenRebuilds` | projects/videoserver/src/mediasockethandler.cpp:93-184 | From one rebuild to the next no datagram changes where anything is routed. |
| `ServerRuns.TokenTakesEffectAtOnce` | projects/videoserver/src/virtualserver.cpp:367-395 | A datagram with a token rebuilds the table exactly if a connected client waits for that token, and then the routes are those of the server with the new endpoint before the next datagram is read. |
| `ServerRuns.ByteConservation` | projects/videoserver/src/mediasockethandler.cpp:93-184 | Over every run, tokens accepted in between included: exactly the packets of the table in force at each datagram were written, in order, and the bytes written are the sum of length times fan-out plus the forwarded recovery requests; every byte read is counted. |
| `ServerRuns.ReadLoopContinuesRun` | projects/videoserver/src/mediasockethandler.cpp:93-184 | A read loop continues the run of the server event by event, so all that holds over runs holds inside it. |
| `ServerRuns.DriftedSinceRebuild` | projects/videoserver/src/clientconnectionhandler.cpp:29-82 | Over every run nothing the routes depend on changed since the last rebuild, but for visibility levels; later clients have no endpoint. |
| `ServerRuns.GoneFromRoutes` | projects/videoserver/src/clientconnectionhandler.cpp:65-82 | From its disconnect on and for ever a client is in no route of the relay's own table, neither by id nor as a receiver. |
| `ServerRuns.CurrentReceivers` | projects/videoserver/src/virtualserver.cpp:157-193 | The receivers in the relay's own table, default entries included, are those of the specification while it is current. |
| `ServerRuns.CurrentOverRuns` | projects/videoserver/src/virtualserver.cpp:135-206 | Over every run: the relay routes as a rebuild now would make it if and only if no visibility level set since the last rebuild hid a client from, or showed it to, somebody who streams to a channel of theirs. |
| `ServerRuns.VisibilityStaysCurrent` | projects/videoserver/src/action/actionbase.cpp:402-409 | A request to change a visibility level does not rebuild: the routes stay right if and only if the client has no endpoint, or everybody else who streams to a channel of theirs may see it after exactly if they might before. |
| `ServerRuns.RoutesCanGoStale` | projects/videoserver/src/action/actionbase.cpp:402-409 | A run that fails: two clients, whatever tokens they were given, meet in a channel, one streams, the other hides, and the relay still routes to it. |
| `ServerRuns.Continue` | projects/videoserver/src/virtualserver.cpp:135-206 | Every event that is enabled can happen: a rebuild always has an outcome. |
| `Actions.CreateChannelAction` | projects/videoserver/src/action/channels.cpp:59-71 | The tables end as the create request says, and the routing table is rebuilt for them. |
| `Actions.FindChannel` | projects/videoserver/src/action/channels.cpp:86-108 | The channel to join is the one named by id, or else by identifier, or a new one; refused exactly as the specification says. |
| `Actions.JoinChannelAction` | projects/videoserver/src/action/channels.cpp:84-125 | The tables end as the join request says; rebuilt if it succeeds, otherwise neither tables nor routes change. |
| `Actions.LeaveChannelAction` | projects/videoserver/src/action/channels.cpp:155-175 | The tables end as the leave request says; rebuilt unless the channel does not exist. |
| `Actions.SwitchVideo` | projects/videoserver/src/action/media.cpp:28-46 | Only the video flag of that client changes, and the routing table is rebuilt. |
| `Actions.SwitchAudioInput` | projects/videoserver/src/action/actionbase.cpp:313-331 | Only the audio flag of that client changes, and the routing table is rebuilt. |
| `Actions.UpdateVisibilityLevelAction` | projects/videoserver/src/action/actionbase.cpp:402-409 | Only the level of that client changes, and the routing table is left alone. |
| `Actions.AddDirectStreamingRelationAction` | projects/videoserver/src/action/actionbase.cpp:413-437 | The relation is added and the table rebuilt, unless one of the clients is unknown. |
| `Actions.RemoveDirectStreamingRelationAction` | projects/videoserver/src/action/actionbase.cpp:441-456 | The relation is removed, with the entry of the sender if it was the last one, and the table rebuilt. |
| `Actions.IssueToken` | projects/videoserver/src/action/actionbase.cpp:274-276 | The token is stored for that client, and the routing table is left alone. |
| `Delivery.VideoReachesExactly` | projects/videoserver/src/mediasockethandler.cpp:136-149 | Over every run, at the table the relay has then: a video datagram of a streaming client is written to another client's own endpoint once if they share a channel and it might be seen at the last rebuild, once more for a direct relation, otherwise not at all, and never back to the sender. |
| `Delivery.VideoReachesNow` | projects/videoserver/src/mediasockethandler.cpp:136-149 | Over every run those copies are the ones the present tables ask for if and only if the receiver was not hidden from, or shown to, the sender since the last rebuild. |
| `Delivery.LeftGetsNothing` | projects/videoserver/src/action/channels.cpp:173-175 | After a client left the only channel it shared with a streaming client it is not related to, it gets none of that client's video. |
| `Delivery.JoinedGetsVideo` | projects/videoserver/src/action/channels.cpp:123-125 | After a client with an endpoint was let into a channel where another one streams that may see it, it gets that client's video. |
| `Delivery.CopiesCounted` | projects/videoserver/src/mediasockethandler.cpp:141-147 | The copies written to a client's own endpoint are as many as its entries in the receiver list. |
| `Delivery.RecoveryReachesSender` | projects/videoserver/src/mediasockethandler.cpp:151-167 | Over every run a client's request for a key frame is forwarded unchanged to the one client it names if that one streams, and otherwise to nobody. |
| `Delivery.WrittenHonest` | projects/videoserver/src/mediasockethandler.cpp:93-184 | Over every run, if video parts reach the server as senders wrote them, so does every video part that the relay writes. |
| `Delivery.ThroughTheServer` | projects/videoserver/src/mediasockethandler.cpp:93-184 | Sender to server to receiver, both hops losing, repeating and reordering, over any run of the server and among any other datagrams: every frame a client passes on is one the named sender transmitted. |
| `LosslessPath.LosslessThroughTheServer` | projects/videoserver/src/mediasockethandler.cpp:93-184 | The converse over both hops: when the parts of a client's frames reach the server frame by frame, in any order and repeatedly within a frame, and nothing is lost to a receiver of that client, then at any time, whatever else the server and other clients do, the receiver passes on exactly the frames whose parts all reached the server, once and in order. |
| `LosslessPath.StepInStep` | projects/libclient/libclient/networkclient/mediasocket.cpp:449-519 | Any part that may come next, new or repeated, keeps the receiver exactly as far as the parts that reached the server allow. |
| `LosslessPath.CopiesInStep` | projects/videoserver/src/mediasockethandler.cpp:141-147 | Several copies of a part, as relayed for a channel and a direct relation, do what one does. |
| `LosslessPath.ReceivedFromServer` | projects/videoserver/src/mediasockethandler.cpp:93-184 | All that the receiver gets was written by the relay. |
| `ImageUtil.ScaledFloor` | projects/libapp/libapp/imageutil.cpp:407-409 | For any rounding that leaves single-precision values alone, conversion, division and addition are exact for numerators of 16 bits, and the floor of the result is the integer division by 256 plus the bias, also for negative ones. |
| `ImageUtil.FloatY` | projects/libapp/libapp/imageutil.cpp:407-412 | Y computed in rounded single precision is the integer luma and lies in 16..235, so the byte conversion never wraps. |
| `ImageUtil.FloatU` | projects/libapp/libapp/imageutil.cpp:408-413 | U computed in rounded single precision is the integer chroma and lies in 16..240. |
| `ImageUtil.FloatV` | projects/libapp/libapp/imageutil.cpp:409-414 | V computed in rounded single precision is the integer chroma and lies in 16..240. |
| `ImageUtil.RgbToYV12` | projects/libapp/libapp/imageutil.cpp:377-442 | For every width, height and format: Y is the luma of each original pixel, U and V at (r,c) are the chroma of the original pixel (2r,2c), although the buffer is overwritten first; every index is in bounds; the fourth byte of a pixel and all bytes past the used part of the three planes are untouched. |
| `ImageUtil.ConvertInPlace` | projects/libapp/libapp/imageutil.cpp:390-418 | After the first pass each original pixel is replaced by its Y, U and V, and the Y plane holds the luma. |
| `ImageUtil.Downsample` | projects/libapp/libapp/imageutil.cpp:420-441 | The second pass, reading the overwritten buffer, still finds the chroma of the original pixels. |
| `ImageUtil.LumaByFormat` | projects/libapp/libapp/imageutil.cpp:394-417 | The finished Y plane in terms of the original bytes, for each of the four formats: where red, green and blue stand, and their weights. |
| `ImageUtil.ChromaByFormat` | projects/libapp/libapp/imageutil.cpp:394-441 | The finished U and V planes at (r,c) in terms of the original bytes of the pixel (2r,2c), for each of the four formats. |
| `ServerQuery.EscapeHasNoSeparators` | projects/libqtteamspeak3/libqtteamspeak3/ts3serverquery.cpp:40-49 | Escaped text contains no space and no bar. |
| `ServerQuery.DecodeInvertsEscape` | projects/libqtteamspeak3/libqtteamspeak3/ts3serverquery.cpp:21-49 | Escaped text can be read back from the front, so escaping loses nothing. |
| `ServerQuery.EscapeInjective` | projects/libqtteamspeak3/libqtteamspeak3/ts3serverquery.cpp:21-49 | Different values have different escaped forms. |
| `ServerQuery.EscapeTable` | projects/libqtteamspeak3/libqtteamspeak3/ts3serverquery.cpp:24-46 | Backslash, slash, space and bar are escaped, and no other character is. |
| `ServerQuery.CreateCommand` | projects/libqtteamspeak3/libqtteamspeak3/ts3serverquery.cpp:59-99 | The nested loops produce the command text of the specification, for any number of values and options. |
| `ServerQuery.ParseItem` | projects/libqtteamspeak3/libqtteamspeak3/ts3serverquery.cpp:114-138 | The loop yields the fields of the specification: a word without = is a key without value, a part starting with = is ignored, of equal keys the last counts. |
| `ServerQuery.ParseItemList` | projects/libqtteamspeak3/libqtteamspeak3/ts3serverquery.cpp:102-111 | One item per part between bars. |
| `ServerQuery.CommandSplits` | projects/libqtteamspeak3/libqtteamspeak3/ts3serverquery.cpp:67-83 | Splitting a command text at spaces gives the command and one part per key. |
| `ServerQuery.QueryRoundTrip` | projects/libqtteamspeak3/libqtteamspeak3/ts3serverquery.cpp:59-138 | For a command and distinct keys that are non-empty and hold no space and no =, with single values, without options and the final newline: parsing recovers each key with its escaped value and the command, which is valueless unless a key has its name, and nothing else. |
| `ServerQuery.OptionsRoundTrip` | projects/libqtteamspeak3/libqtteamspeak3/ts3serverquery.cpp:59-138 | With options too, parsing recovers the command, the keys with their values, and each option as a key with a dash and without value. |
| `ServerQuery.ValuesRoundTrip` | projects/libqtteamspeak3/libqtteamspeak3/ts3serverquery.cpp:74-111 | The list parser takes the values of one key apart again: one item for each, in order. |
| `ServerQuery.KeylessFieldIgnored` | projects/libqtteamspeak3/libqtteamspeak3/ts3serverquery.cpp:120-135 | A part that starts with = is ignored. |
| `ServerQuery.QueryListRoundTrip` | projects/libqtteamspeak3/libqtteamspeak3/ts3serverquery.cpp:59-138 | With keys free of bars as well, the list parser finds exactly that one item. |

## Left out

- MediaProtocol.Split: frames longer than 65535 full parts, for which the conversion of the count from double to 16 bits is not defined.
- ClientMedia.MediaSocket.SendVideoFrame: the same bound; the cache of sent frames, failing writes and the encoding and decoding threads are not modelled either.
- VideoOrder.OrderExact: consumed frames, and next() called after every arrival, as the program does; VideoOrder.VideoOrder covers any calls in one direction.
- VideoLossless.LosslessDelivery: one sender, frames one after the other, and frame id equal to frame time; with loss, or frames overtaking each other, a frame can be passed over, which is what the program intends.
- Sockets, timers, threads: steps of a run or parameters; whether a key frame request is due is a parameter, because a clock decides. Keep-alive and time-outs are not modelled.
- QDataStream reads past the end are zero (an empty array for a byte array); heap bytes that a short readRawData leaves unset are a parameter; header fields of a freshly allocated COR frame are zero until read.
- A part whose index is outside its buffer: the decoders index without a check, so this is a precondition; it is proved to hold for honest senders.
- Null and empty byte arrays and strings are one value.
- Freeing of finished VP8Frame and OpusFrame objects: a second frame with the same time replaces the first without freeing it, so no ownership is claimed for frames, only for datagrams.
- 32- and 64-bit counters: client ids, channel ids and the count of key frames are unbounded; requests of one connection are fewer than 2^32; the last consumed id does wrap.
- The client socket is that of a build without OCS_INCLUDE_AUDIO; the audio branch is modelled up to Decode and AudioUdpDecoder only.
- Client and channel objects are values in their tables; pointers that handlers keep to them, and names, passwords and ban lists, are not modelled: whether a channel's password was right is a parameter of the join request. Notifications to other clients and the checks of authentication, administrator rights and video settings before a request are not modelled.
- Two connections talking: both sockets stay connected over a run; a send in the middle of a callback is a step after the read. Elapsed times of replies are not modelled.
- The relay: receiving never fails with -1, and writing never fails; the conversion of a token's bytes to text is a parameter.
- The colour conversion: width times height times pixel size does not overflow an int; the four buffers do not overlap. Of single precision only that it leaves values of at most 24 bits alone is used, and of double precision (in the part count) that it leaves whole numbers alone and moves nothing by more than 2^-53 of its size.
- QHash iteration order: loops visit keys in any order, and receiver lists are compared as multisets.
- Several streaming clients with one endpoint: the routing table keeps one of them as the sender; the lemmas that count a sender's receivers ask that nobody else streams from its endpoint, and those on when the table is current ask it of the senders that see somebody differently.
- The query interface: unescape (not implemented in the program), error lines, and the socket around it.
- FILE based reading and writing of datagrams, MediaSocketVideoFrameDecoder::handle, codecs, floating-point image scaling, user interface, plugins, licensing, and everything under legacy/.
