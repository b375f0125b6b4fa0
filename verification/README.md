# Verified model of the edgevision media path

This project models, in Dafny, how `edgevision-rv1126b` moves pictures: from the camera's
buffers, through the overlay and the framed TCP link, through the gateway, to the sockets of
its viewers; and how the detector's input is made and its output turned into boxes. Loops,
buffers and objects that the C++ changes in place are methods, arrays and classes here, each
proved against a function or relation; the promises of the code are lemmas about those.

| file | what it holds |
|---|---|
| `Bytes.dfy`, `Grid.dfy`, `Options.dfy` | byte strings, row-major indices, the optional value |
| `Sockets.dfy` | the operating system's answers to `send`, as a finite script |
| `Framing.dfy` | the length-prefix protocol, one connection's life, independence of TCP chunking |
| `Client.dfy` | `sendAll`, `sendPacket` and the streaming loop over partial writes and errors |
| `AnnexB.dfy`, `ConfigIdempotence.dfy` | the H.264 byte-stream scanner as inverse of the writer; idempotence on all inputs |
| `Viewers.dfy`, `Delivery.dfy` | a viewer's bounded queue and what every run of it guarantees |
| `Gateway.dfy`, `GatewaySafety.dfy` | the whole gateway as a state machine and the invariants of its runs |
| `TcpServer.dfy` | the gateway's object, handler by handler, taking the machine's steps |
| `EndToEnd.dfy` | from the packets a camera sends to the bytes a viewer gets |
| `FrameQueues.dfy`, `Pipeline.dfy` | the two drop-oldest queues; the camera process in every thread interleaving |
| `Overlay.dfy`, `Nv12.dfy`, `Letterbox.dfy` | painting boxes, moving strided NV12 frames, letterboxing to RGB |
| `Nms.dfy`, `Decode.dfy` | non-maximum suppression; decoding the detector's tensor |

How the outside world is modelled:

- `send` answers come from a script, any finite list of "took up to k bytes", "interrupted",
  "would block" and "broken". In the client a script that runs out is a call still waiting; in
  the gateway it is a socket that takes no more in this turn. All theorems hold for all scripts.
- `read` results, connection attempts, hang-ups and sender turns are inputs of the gateway's state
  machine, in any order and number. One step is one event handler, or one sender turn with the
  removals that end it; connection ids are not reused.
- In `Pipeline.dfy` one step is one critical section of one thread, in any interleaving; the
  detector is an arbitrary function from frames to answers.
- Floats of the detector are reals; overlay corners are whole pixels, after `lround`.

What the code does where its own comments or documents could be read otherwise:

- Frames that were completed in the same read as an illegal length are thrown away with it, so
  an illegal stream is delivered only up to the read before (`Framing.FatalRead`).
- The HTTP header is queued first but can be dropped: it opens a viewer's response exactly when
  at most 15 chunks had been enqueued before the first byte went out (`Delivery.FirstBytes`,
  `EndToEnd.HeaderInFront`); a run that loses it is `EndToEnd.HeaderLostInARun`.
- `sendPacket` accepts empty and oversized packets, which the gateway then refuses; the link
  delivers exactly the packets sent if and only if each holds 1 byte to 2 MiB (`Framing.CodecLaw`).
- `derive_vir_height` recovers the line count from the size formula unless the area of one
  plane is odd and there are hidden lines (`Nv12.VirHeightRecovered`); then the chroma plane is
  taken from one line too high (`Nv12.HiddenLineRead`).
- `captureFrame` never checks that the bytes received hold the rows it copies; how many do is
  `Nv12.CaptureReadsInside`, a frame that is too short `Nv12.TooShortFrame`.
- `fillLetterboxedRgb` reads past a frame with an odd side if the target shows its last pixel
  (`Letterbox.ReadableFrames`).
- A detector that reports pixels has its box misread when all four numbers are at most 2 in
  magnitude; the exact condition is `Decode.PixelReportsDecode`, an instance is `Decode.TinyBoxMisread`.

## Model

| member | source | states |
|---|---|---|
| Framing.ReadOfBe32 | camera_gateway/src/TcpServer.cpp:238-240 | The prefix read back from the wire is the size written in network byte order. |
| Framing.NetworkOrder | stream/src/FramedTcpClient.cpp:59-66 | The prefix is the size's four bytes, most significant first. |
| Framing.OnlyLegalFrames | camera_gateway/src/TcpServer.cpp:242-255 | Whatever arrives, every frame handed on holds 1 byte to 2 MiB. |
| Framing.DrainSound | camera_gateway/src/TcpServer.cpp:237-261 | Re-encoding the frames parsed and adding the bytes left over gives back the input: nothing is invented or lost. |
| Framing.DrainEncodeAll | camera_gateway/src/TcpServer.cpp:237-261 | Parsing inverts encoding for legal packets, whatever follows them. |
| Framing.DrainResume | camera_gateway/src/TcpServer.cpp:235-261 | Keeping only the unfinished bytes between reads loses nothing: parsing can be resumed from them. |
| Framing.BadIsFinal | camera_gateway/src/TcpServer.cpp:242-245 | Once an illegal length is met no later byte adds a frame. |
| Framing.ChunkingIndependence | camera_gateway/src/TcpServer.cpp:485-546 | For every way of cutting a byte string into reads, probe included, a connection ends in the same role with the same leftover bytes and frames; after an illegal length the frames are a prefix of the parse. |
| Framing.FatalRead | camera_gateway/src/TcpServer.cpp:263-271 | On an illegal stream the frames delivered are exactly those complete before the read that shows the illegal length. |
| Framing.GetIsNoLegalLength | camera_gateway/src/TcpServer.cpp:523-533 | A stream that begins with "GET " has an illegal first length, so the probe never takes a camera for a viewer. |
| Framing.CodecLaw | camera_gateway/src/TcpServer.cpp:228-278 | A connection that reads the encoding of some packets, in any pieces, delivers exactly those packets if and only if each holds 1 byte to 2 MiB. |
| Client.OfferMeaning | stream/src/FramedTcpClient.cpp:83-112 | sendAll never takes more than it was given and succeeds exactly when every byte was taken. |
| Client.OfferStops | stream/src/FramedTcpClient.cpp:93-108 | It fails exactly when an answer was an error or took nothing, and asks for none after that; EINTR and EAGAIN never fail it. |
| Client.OfferTakes | stream/src/FramedTcpClient.cpp:83-112 | A call takes exactly what its answers have room for, up to what it offers. |
| Client.FramedTcpClient.SendAll | stream/src/FramedTcpClient.cpp:83-112 | The loop over partial writes puts exactly the bytes counted as taken on the wire, in order. |
| Client.FramedTcpClient.SendPacket | stream/src/FramedTcpClient.cpp:54-69 | The wire grows by a prefix of the framed packet, all of it exactly on success; without a socket nothing is sent. |
| Client.FramedTcpClient.StreamPackets | camera/src/main.cpp:153-174 | The streaming loop sends packets in order and stops at the first call that does not succeed. |
| Client.WireShape | camera/src/main.cpp:153-174 | The wire holds the framed confirmed packets and then at most a strict part of the next frame. |
| Client.WireParses | camera_gateway/src/TcpServer.cpp:237-261 | The gateway's parse of the whole wire is the confirmed packets. |
| Client.ConfirmedIsDelivered | stream/src/FramedTcpClient.cpp:54-69 | Over every schedule of partial writes, errors and reads the gateway delivers a prefix of the packets whose sendPacket succeeded, and all of them once every byte has arrived. |
| AnnexB.FindStartCode | camera_gateway/src/TcpServer.cpp:24-38 | The scan finds the first start code at or after the offset, and its length. |
| AnnexB.ContainsNalType | camera_gateway/src/TcpServer.cpp:42-58 | The loop answers whether some unit met by the scan has the type; it terminates on every input. |
| AnnexB.HeaderType | camera_gateway/src/TcpServer.cpp:47-91 | A header's type is its low five bits; configuration is types 6, 7 and 8. |
| AnnexB.ExtractBootstrapConfig | camera_gateway/src/TcpServer.cpp:60-91 | The loop collects the bytes of the SPS, PPS and SEI units met by the scan, in order. |
| AnnexB.ScanInvertsStream | camera_gateway/src/TcpServer.cpp:60-88 | For every list of conforming NAL units, each behind a 3- or 4-byte start code, the scan recovers exactly those units, start codes included. |
| AnnexB.ExtractFilters | camera_gateway/src/TcpServer.cpp:60-91 | Of such a stream the extractor returns the stream of just the units of types 6, 7 and 8. |
| AnnexB.ContainsFinds | camera_gateway/src/TcpServer.cpp:42-58 | The type test is true of such a stream if and only if some unit has that type. |
| ConfigIdempotence.FindPiece | camera_gateway/src/TcpServer.cpp:66-87 | In a string of extracted pieces each piece is found where it begins or one zero byte early, with the same header byte. |
| ConfigIdempotence.ExtractIdempotent | camera_gateway/src/TcpServer.cpp:60-91 | Extracting twice is extracting once, on every byte string, conforming or not. |
| Viewers.Viewer.Enqueue | camera_gateway/src/TcpServer.cpp:315-339 | A full queue loses its oldest chunks, except the one being sent, until the new frame is the 15th; the drops are counted. |
| Viewers.Viewer.DrainQueue | camera_gateway/src/TcpServer.cpp:374-405 | The sender's loop sends from the offset on, removes a chunk when it is complete and gives the viewer up on an error. |
| Delivery.UntornDelivery | camera_gateway/src/TcpServer.cpp:315-393 | In every run the bytes received are whole chunks in enqueue order plus the sent part of the queue's front; every chunk is delivered, queued or dropped with no byte sent, and the counts add up. |
| Delivery.RunKeepsShape | camera_gateway/src/TcpServer.cpp:315-339 | In every reachable state at most 15 chunks are queued and they are the newest enqueued, save that a chunk being sent stays in front. |
| Delivery.PushAccounts | camera_gateway/src/TcpServer.cpp:315-339 | An enqueue drops only chunks of which nothing was sent, and never the newest. |
| Delivery.SendAccounts | camera_gateway/src/TcpServer.cpp:376-393 | A send either extends the sent part of the front chunk or completes it. |
| Delivery.SendConserves | camera_gateway/src/TcpServer.cpp:386-393 | The bytes sent and the bytes waiting together never change during sending. |
| Delivery.DropsWhenFull | camera_gateway/src/TcpServer.cpp:315-331 | A run drops nothing if and only if every frame found fewer than 15 chunks queued. |
| Delivery.LosslessDelivery | camera_gateway/src/TcpServer.cpp:315-393 | While nothing is dropped, bytes sent plus bytes waiting are exactly everything enqueued. |
| Delivery.FirstBytes | camera_gateway/src/TcpServer.cpp:318-322 | The chunk that is first on the wire is, for good, the oldest one not dropped when the first byte goes out; so the header opens the response if and only if at most 15 chunks had been enqueued by then, and otherwise no byte of it is ever sent. |
| Delivery.BeforeFirstByte | camera_gateway/src/TcpServer.cpp:315-331 | Until a byte is sent a viewer has lost chunks if and only if more than 15 were enqueued, and then exactly the oldest. |
| Delivery.HeaderLost | camera_gateway/src/TcpServer.cpp:318-322 | A header followed by 15 frames is dropped, and just those frames stay queued. |
| Delivery.TurnEnds | camera_gateway/src/TcpServer.cpp:375-404 | A sender turn goes on while bytes are taken, keeps the viewer on EAGAIN or EINTR, gives it up exactly on an error or a send of nothing, and never sends an empty range. |
| Delivery.TurnBegins | camera_gateway/src/TcpServer.cpp:375-404 | What the first answer of a turn does: bytes taken are the next ones waiting, an error or nothing taken gives the viewer up, EAGAIN and EINTR leave it as it was. |
| Delivery.TurnEmpties | camera_gateway/src/TcpServer.cpp:375-393 | A socket that takes each chunk whole is sent everything that waits. |
| Delivery.PushFillsQueue | camera_gateway/src/TcpServer.cpp:315-339 | An enqueue costs at most one chunk, and only when 15 are queued. |
| GatewaySafety.ReadMoves | camera_gateway/src/TcpServer.cpp:485-546 | A read changes one connection's role and adds its frames to the broadcast; every other connection stays as it was. |
| GatewaySafety.PublishAllKeeps | camera_gateway/src/TcpServer.cpp:273-297 | Broadcasting frames refreshes the caches and reaches every viewer, and changes no table, role or byte count. |
| GatewaySafety.TurnShape | camera_gateway/src/TcpServer.cpp:368-412 | A sender turn removes exactly the viewers it finds broken. |
| GatewaySafety.CloseKeeps | camera_gateway/src/TcpServer.cpp:143-184 | Removing connections, known or not, keeps the table exact and closes each at most once. |
| GatewaySafety.AdvanceKeeps | camera_gateway/src/TcpServer.cpp:445-551 | Every input keeps all invariants: tables disjoint and equal to the open connections, roles and frames explained by the bytes read (a connection that hung up on a legal stream has delivered its whole parse), caches current, viewers served soundly. |
| GatewaySafety.RunKeeps | camera_gateway/src/TcpServer.cpp:416-554 | The same over every run. |
| TcpServers.TcpServer.RemoveViewer | camera_gateway/src/TcpServer.cpp:143-184 | Erases the connection from every table; the descriptor is closed exactly when it was in one. |
| TcpServers.TcpServer.HandleViewerRequest | camera_gateway/src/TcpServer.cpp:188-224 | A new viewer's queue is the header and the cached configuration and key frame, where there are any. |
| TcpServers.TcpServer.QueueFrameForViewers | camera_gateway/src/TcpServer.cpp:301-350 | The loops over the viewers take the machine's broadcast step; inactive viewers are removed. |
| TcpServers.TcpServer.HandleCompleteFrame | camera_gateway/src/TcpServer.cpp:281-297 | Caches first, then broadcast, as the machine's publish step. |
| TcpServers.TcpServer.ParseFrames | camera_gateway/src/TcpServer.cpp:237-261 | The parsing loop computes the ideal parse. |
| TcpServers.TcpServer.HandleProducerBytes | camera_gateway/src/TcpServer.cpp:228-278 | Refuses exactly on an illegal length, then publishing nothing; otherwise publishes every completed frame in order. |
| TcpServers.TcpServer.OnProbe | camera_gateway/src/TcpServer.cpp:515-546 | Four bytes decide: "GET " makes a viewer, anything else a producer whose bytes are parsed from the start. |
| TcpServers.TcpServer.OnReadable | camera_gateway/src/TcpServer.cpp:485-546 | The read branch takes the machine's read step. |
| TcpServers.TcpServer.FlushViewers | camera_gateway/src/TcpServer.cpp:366-412 | One sender turn with its removals takes the machine's flush step. |
| TcpServers.TcpServer.Handle | camera_gateway/src/TcpServer.cpp:445-551 | Every input is one step of the state machine. |
| EndToEnd.Serve | camera_gateway/src/TcpServer.cpp:416-554 | The gateway's object, driven through any inputs with fresh connection ids, is in the state the machine reaches, with every invariant. |
| EndToEnd.InputMoves | camera_gateway/src/TcpServer.cpp:445-551 | In every reachable state: an accept starts a probe, bytes move a connection as they call for, a hang-up closes it, a sender turn closes the viewers it finds broken, and no other connection moves. |
| EndToEnd.NoEmptyQueued | camera_gateway/src/TcpServer.cpp:366-393 | In no reachable state is an empty chunk queued, so send is never asked for nothing. |
| EndToEnd.TurnDelivers | camera_gateway/src/TcpServer.cpp:366-412 | In every reachable state a sender turn sends each viewer what its own socket takes: the next bytes waiting, all of them if there is room; an error removes the viewer. |
| EndToEnd.EverythingArrives | camera_gateway/src/TcpServer.cpp:366-412 | After a turn with room enough, a viewer that lost nothing has received header, caches and every frame since it joined. |
| EndToEnd.ProbeIsGet | camera_gateway/src/TcpServer.cpp:523-533 | The four bytes that make a viewer are "GET ". |
| EndToEnd.NoCameraIsAViewer | camera_gateway/src/TcpServer.cpp:523-533 | In every reachable state the bytes of a viewer's connection do not parse as a camera stream. |
| EndToEnd.LatestConfig | camera_gateway/src/TcpServer.cpp:282-286 | The configuration cache is that of the latest frame carrying any. |
| EndToEnd.LatestIdr | camera_gateway/src/TcpServer.cpp:288-293 | The key-frame cache is the latest frame with an IDR slice. |
| EndToEnd.CachesFromUnits | camera_gateway/src/TcpServer.cpp:281-293 | A conforming frame refreshes the caches according to its units' types. |
| EndToEnd.OwedBytes | camera_gateway/src/TcpServer.cpp:196-216 | A viewer's chunks are, as bytes, header, cached configuration, cached key frame and the frames since it joined. |
| EndToEnd.CameraBroadcast | camera_gateway/src/TcpServer.cpp:228-278 | In every reachable state, with the camera connected or gone and any other producers present, the gateway has broadcast exactly the camera's packets that have arrived whole: the first of the confirmed ones, all of them once all bytes have arrived. |
| EndToEnd.CameraToViewer | camera_gateway/src/TcpServer.cpp:188-414 | For any number of cameras, any answers of their sockets, any chunking and any other inputs, the frames broadcast are camera by camera the packets arrived; a viewer receives in-order whole chunks of header, caches and every frame since it joined, and if none was dropped exactly what its queue and offset do not still hold. |
| EndToEnd.OneCamera | camera_gateway/src/TcpServer.cpp:228-278 | If one camera delivered every frame, the frames broadcast are the first of its confirmed packets. |
| EndToEnd.HeaderInFront | camera_gateway/src/TcpServer.cpp:318-322 | In every reachable state a viewer that has been sent nothing still has the header in front if and only if at most 15 chunks were enqueued for it. |
| EndToEnd.HeaderLostInARun | camera_gateway/src/TcpServer.cpp:318-322 | A run in which 15 packets in one read drop a waiting viewer's header. |
| FrameQueues.KeepsTheNewest | capture/include/FrameQueue.h:17-45 | On every sequence of pushes and pops the contents are the latest pushes, and pushed equals popped plus dropped plus queued. |
| FrameQueues.PushesOnly | capture/include/FrameQueue.h:17-30 | With nobody popping, the newest items are kept, as many as there is room for. |
| FrameQueues.PoppedInOrder | capture/include/FrameQueue.h:34-45 | Items come out in the order they went in, each at most once, never after a newer one. |
| FrameQueues.WindowPush | camera/src/RingBuffer.cpp:14-32 | Writing at the write index and moving the indices round the ring is a bounded push. |
| FrameQueues.RingBuffer.PushFrame | camera/src/RingBuffer.cpp:14-32 | Overwrites the oldest frame when full; a short frame is followed by the slot's old tail. |
| FrameQueues.RingBuffer.PopFrame | camera/src/RingBuffer.cpp:34-47 | Hands out the oldest frame. |
| FrameQueues.FrameQueue.PushFrame | capture/include/FrameQueue.h:17-30 | Drops the oldest when full, and reports and counts it. |
| FrameQueues.FrameQueue.WaitAndPop | capture/include/FrameQueue.h:34-45 | Hands out the oldest frame; reports the end only when stopped and empty. |
| FrameQueues.DriveBoth | camera/src/RingBuffer.cpp:14-47 | Driven by the same operations on full-size frames both queues hand out the same frames, those of the abstract queue, and the drop counter is exact. |
| Overlay.FillSpan | camera/src/DetectionOverlay.cpp:163-167 | A fill changes exactly the pixels of one row's span. |
| Overlay.DrawRectangleY | camera/src/DetectionOverlay.cpp:127-182 | A luma byte changes exactly when its pixel lies in the clamped rectangle less than the thickness from a side; all other bytes, the chroma plane too, stay; the early break loses no pixel. |
| Overlay.DrawDetections | camera/src/DetectionOverlay.cpp:70-124 | The picture ends up as the list of boxes says, every other byte unchanged; a short buffer is left alone. |
| Overlay.LastDecides | camera/src/DetectionOverlay.cpp:91-123 | A pixel ends at 235 or 24 by the last detection with a ring over it, the box ring over the outline, and keeps its value under none. |
| Overlay.BoxIsAsThickAsAsked | camera/src/DetectionOverlay.cpp:88-122 | A box inside the picture is drawn at 235 on exactly its pixels less than the configured thickness from a side. |
| Overlay.WhatOneBoxPaints | camera/src/DetectionOverlay.cpp:86-123 | What a detection paints at every pixel, wherever its corners are: clamped corners, clamped thickness, box at 235 over outline at 24. |
| Overlay.OutlineInsideAtTheEdge | camera/src/DetectionOverlay.cpp:101-111 | Along a touched side of the picture the outline shows one pixel further in. |
| Overlay.OutsideUntouched | camera/src/DetectionOverlay.cpp:101-111 | Pixels outside every box grown by one pixel are never touched. |
| Overlay.OutlineIsOnePixel | camera/src/DetectionOverlay.cpp:88-122 | Around a box away from the edge the dark outline shows as exactly the one-pixel frame round it. |
| Overlay.UsedThroughTheWindow | camera/src/DetectionOverlay.cpp:51-64 | An answer is used from its own frame to the end of the window, and no longer. |
| Overlay.DetectionOverlay.Update | camera/src/DetectionOverlay.cpp:26-36 | Only a valid result, with the overlay enabled, replaces the snapshot. |
| Overlay.DetectionOverlay.Apply | camera/src/DetectionOverlay.cpp:38-67 | A frame is painted exactly when the snapshot is neither from its future nor older than the window. |
| Pipeline.BoxesAreFresh | camera/src/main.cpp:89-213 | Over all interleavings, frames leave each queue in strictly increasing order, and a box drawn on frame n comes from a sampled frame m with m <= n <= m + window whose inference has finished: the frame in the detector is a later one. |
| Pipeline.NewestNotLost | camera/src/main.cpp:89-213 | Over all interleavings the newest frame reaches the encoder's stream and the newest sampled frame the detector's, whatever is dropped. |
| Pipeline.DrawsWhenFresh | camera/src/DetectionOverlay.cpp:38-67 | A frame is drawn on exactly when the overlay is on and an answer exists for a frame not after it and within the window. |
| Pipeline.FirstFrameDrawn | camera/src/main.cpp:89-213 | A run in which what the detector finds is drawn. |
| Pipeline.RunKeeps | camera/src/main.cpp:89-213 | The invariants behind it hold in every reachable state; drawn inferences never go back. |
| Pipeline.SnapshotAdvances | camera/src/DetectionOverlay.cpp:26-36 | The snapshot's frame never goes back. |
| Nv12.CopiedCell | camera/src/H264Encoder.cpp:51-57 | Every cell of the rows copied holds its source byte. |
| Nv12.UncopiedByte | camera/src/H264Encoder.cpp:51-65 | Every byte in no copied row, the padding included, is as it was. |
| Nv12.CopyCompactNv12ToAligned | camera/src/H264Encoder.cpp:37-66 | The row loops put both planes at the padded geometry. |
| Nv12.RepackCapturedFrame | camera/src/CameraDevice.cpp:227-256 | The copy loops take both planes from the derived stride and virtual height to the compact geometry. |
| Nv12.ConvertedIndices | camera/src/CameraDevice.cpp:238-256 | Every luma and chroma byte moves from its index in one geometry to its index in the other. |
| Nv12.PaddingRoundTrip | camera/src/H264Encoder.cpp:37-66 | Padding a frame and repacking it at the same stride and virtual height gives it back byte for byte. |
| Nv12.NoTruncation | camera/src/CameraDevice.cpp:23-29 | The cast of the derived height to 32 bits loses nothing. |
| Nv12.VirHeightRecovered | camera/src/CameraDevice.cpp:18-31 | The size of an image with v lines gives back v if and only if stride times v is even or v is the visible height. |
| Nv12.CaptureReadsInside | camera/src/CameraDevice.cpp:227-256 | Every row read lies inside the frame if and only if the last chroma row would with no hidden lines; 3/2 * stride * height bytes are always enough. |
| Nv12.HoldsIsReads | camera/src/CameraDevice.cpp:238-256 | That the rows fit is the same as that every byte read is inside. |
| Nv12.TooShortFrame | camera/src/CameraDevice.cpp:227-256 | A 640 by 480 frame with 704-byte rows that is one byte too short. |
| Nv12.PaddedThenCaptured | camera/src/CameraDevice.cpp:227-256 | A padded frame captured with its own byte count comes back unchanged when the area is even or no lines are hidden. |
| Nv12.PadThenCapture | camera/src/CameraDevice.cpp:227-256 | Both sides' loops in sequence give the frame back, with the stride and byte count as the driver reports them, zeros included. |
| Nv12.HiddenLineRead | camera/src/CameraDevice.cpp:227-256 | Otherwise the repacked chroma plane starts with the padding of the last hidden line. |
| Letterbox.WindowFits | ai/src/RknnDetector.cpp:83-103 | The resized window fits the target, is centred to half a pixel, fills one axis, and needs no clamp to stay on source pixels. |
| Letterbox.WindowIsScaled | ai/src/RknnDetector.cpp:83-88 | One scale for both axes, the largest that fits; each side is its length times the scale, rounded to nearest, and at least 1. |
| Letterbox.ConvertsAsBt601 | ai/src/RknnDetector.cpp:111-121 | Every channel is within one step of the BT.601 conversion of video-range luma and chroma. |
| Letterbox.PixelOfNv12 | ai/src/RknnDetector.cpp:105-113 | A pixel's colour comes from its own luma and its block's U and V, in that order. |
| Letterbox.OutsideIsGrey | ai/src/RknnDetector.cpp:81 | Around the window the picture is 114 in all channels. |
| Letterbox.SetPixel | ai/src/RknnDetector.cpp:123-130 | The three bytes written are those of one pixel and no other. |
| Letterbox.FillLetterboxedRgb | ai/src/RknnDetector.cpp:74-133 | Whenever the pixels sampled can be read at all, a pixel in the window is the converted nearest source pixel, every other pixel is 114, and every write is in bounds. |
| Letterbox.ReadableFrames | ai/src/RknnDetector.cpp:105-117 | With the camera's byte count no read leaves the frame, whatever the target's size, if and only if both sides of the frame are even. |
| Letterbox.NeutralIsGrey | ai/src/RknnDetector.cpp:115-121 | Neutral chroma converts to grey, black to white over the video range. |
| Letterbox.SameSizeIsIdentity | ai/src/RknnDetector.cpp:83-103 | A target of the source's size shows every pixel in its place. |
| Nms.IouSymmetric | ai/src/RknnDetector.cpp:136-155 | The overlap measure is symmetric. |
| Nms.IouInUnit | ai/src/RknnDetector.cpp:136-155 | The measure of any two boxes lies between 0 and 1. |
| Nms.IouSelf | ai/src/RknnDetector.cpp:136-155 | A box of positive size has measure 1 with itself. |
| Nms.IouCountsCells | ai/src/RknnDetector.cpp:136-155 | Of the unit cells in either of two boxes with whole-number corners, the measure is the share that is in both. |
| Nms.SuppressesMeans | ai/src/RknnDetector.cpp:173-179 | A box suppresses another of its class, and only of its class, when that share is above the threshold. |
| Nms.ApplyNms | ai/src/RknnDetector.cpp:157-190 | The loops with their early exit compute the first maxResults of the greedy choice over some descending arrangement. |
| Nms.NmsSound | ai/src/RknnDetector.cpp:157-190 | The result descends in score, is taken from the input, and no two results suppress each other. |
| Nms.NmsMaximal | ai/src/RknnDetector.cpp:170-187 | Every box left out overlaps too much with a result of its class and at least its score, or came after the limit was reached. |
| Nms.ClassesApart | ai/src/RknnDetector.cpp:170-187 | What is kept of a class is what the greedy choice keeps of that class alone. |
| Nms.LimitKept | ai/src/RknnDetector.cpp:182-185 | A positive limit is kept to and used up; otherwise everything chosen is returned. |
| Nms.OrderIrrelevant | ai/src/RknnDetector.cpp:162-187 | With distinct scores the result is the same for every order of the input and every sort. |
| Nms.NmsIdempotent | ai/src/RknnDetector.cpp:157-190 | With distinct scores a second run changes nothing. |
| Nms.UniqueKernel | ai/src/RknnDetector.cpp:162-187 | With distinct scores, in any order of the input, a set of boxes is the unlimited result if and only if it is independent and beats, with a higher score, everything it leaves out. |
| Nms.HighThreshold | ai/src/RknnDetector.cpp:174-179 | A threshold of 1 or more suppresses nothing. |
| Decode.BestClass | ai/src/RknnDetector.cpp:559-574 | The loop finds the first of the largest class scores. |
| Decode.ReadsTheTable | ai/src/RknnDetector.cpp:244-256 | A table stored candidate by candidate or attribute by attribute is read back value by value. |
| Decode.LayoutIrrelevant | ai/src/RknnDetector.cpp:539-667 | Both layouts of a table yield the same detections, those of its lines. |
| Decode.DecodeBothLayouts | ai/src/RknnDetector.cpp:539-667 | The decoding loop, run on both layouts, returns the same detections. |
| Decode.ScoredIsLineScored | ai/src/RknnDetector.cpp:548-598 | Score and class of a row are those of the table's line, for 5, 6 and more attributes. |
| Decode.RoundsToNearest | ai/src/RknnDetector.cpp:554-556 | A class number is rounded to nearest, halves away from zero. |
| Decode.DecimalReads | ai/src/RknnDetector.cpp:660-664 | The number in a fallback label reads back as the class. |
| Decode.DecodeRow | ai/src/RknnDetector.cpp:539-666 | A row yields a detection exactly when it scores enough and its box, cut to the frame, is not empty. |
| Decode.DecodeRows | ai/src/RknnDetector.cpp:539-667 | Rows are decoded in order; every detection is a proper box inside the frame with the score asked for. |
| Decode.Detect | ai/src/RknnDetector.cpp:539-680 | Decoding and suppression together return boxes in the frame, above the threshold, best first, independent within a class and within the limit. |
| Decode.PixelReportsDecode | ai/src/RknnDetector.cpp:604-644 | For a model reporting pixels, as corners or centre and size, decoding undoes the letterbox if and only if the report does not look normalised or stretching it is harmless. |
| Decode.PixelCornersDecode | ai/src/RknnDetector.cpp:604-644 | Pixel corners are misread, unless harmlessly, exactly when the box ends within the first two pixels of the model's input on both axes. |
| Decode.NormalisedReportsDecode | ai/src/RknnDetector.cpp:604-644 | For a model reporting normalised coordinates, as corners or centre and size, decoding always undoes the letterbox. |
| Decode.RowYieldsOnce | ai/src/RknnDetector.cpp:539-666 | What a row yields is settled by the tensor, ties between classes included. |
| Decode.TinyBoxMisread | ai/src/RknnDetector.cpp:192-198 | A one-pixel corner box reported in pixels is decoded as the whole picture. |

## Left out

- Sockets, epoll, signals, V4L2, VENC, AIQ and RKNN calls: foreign code; only the results of `send` and `read` and the detector's answers are kept, as free inputs.
- Interleavings inside one event handler or one sender turn, and reuse of descriptor numbers: the table invariants are stated between steps.
- `usleep`, condition-variable timing and liveness: a blocking pop is a step enabled when there is something to pop or the queue is stopped.
- Offer: scripts of answers are finite, so a sendAll that retries for ever appears as every finite stage of it.
- TcpServers.TcpServer.QueueFrameForViewers: the order in which the map of viewers is walked is left open; each viewer is treated alone, so no result depends on it.
- Letterbox.FillLetterboxedRgb: computed over reals, so the rounding of float scales and quotients is not modelled; a frame too small for the pixels sampled, which the source reads past, is excluded.
- Nms.ApplyNms: scores and overlaps are reals, so float rounding and NaN are not modelled.
- Decode.DecodeRows: the layout flag, rows and attributes are inputs; `inferTensorLayout` is not modelled, and for the `[1, 84, N]` layout that README.md:77 lists it picks rows of N attributes once N is 6 or more.
- FrameQueues.RingBuffer.PushFrame: a push longer than the slot, which overruns it in the source, is excluded; sequence numbers and counters are unbounded.
- `enabled` without a ready detector, configuration parsing, metrics, event logging, file and time utilities, scripts and `ThreadPool.h`: plumbing or declarations that would only add easy members.
