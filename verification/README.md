# RKMoon verification

A Dafny 4.11 model of RKMoon, a KVM-over-Moonlight system: a worker process captures HDMI frames and encodes
them, a bridge inside the streaming server gates and forwards the encoded access units, a HID server holds the
one lease on the target's keyboard and mouse, and a client window follows the session. The proofs cover what
each part keeps over every run, not single calls only. `dafny verify dfyconfig.toml` checks everything.

| file | subject |
|---|---|
| `Worker.dfy`, `Bridge.dfy`, `Session.dfy` | the video session: worker loop, bridge loop, and both with two FIFO channels and the network sender |
| `AnnexB.dfy`, `NalUnits.dfy`, `AccessUnits.dfy` | start-code splitting, NAL units by their octets, acceptance of access units, the sequence gate, packet assembly |
| `Capture.dfy` | buffer ownership between driver, worker and encoder, through faults and recovery |
| `Wire.dfy`, `Messages.dfy` | the 64-byte header; whole messages over partial reads and writes |
| `WebSocket.dfy`, `Flush.dfy` | WebSocket framing, read loop, pacing; what a confirmed flush proves |
| `Pixels.dfy`, `Colour.dfy`, `Levels.dfy` | BGR/NV12 conversion in place, its BT.709 error, codec level selection |
| `Events.dfy`, `Queues.dfy`, `Motion.dfy` | input events, the two coalescing queues and their composition, splitting motion into reports |
| `Lease.dfy`, `HidServer.dfy`, `InputKeeper.dfy` | reference sets and release, the busy latch, and who owns the lease on the streaming side |
| `Reconnect.dfy` | the client's polls, backoff and restart on a mode change |

Code that loops over or updates state is modelled by classes and methods with the program's own branches. Each
is proved equal to a specification function or a step of a state machine, and the theorems are about those. A
protocol with several processes is a state with one action for each stretch between blocking calls; an action
that is not enabled changes nothing, so "every run" means every list of actions. The encoder, the V4L2 driver,
kvmd, the network, the clock and the scheduler are choices in the actions. A failed request may have taken
effect or not; a request that timed out takes effect at once or never.

## What does not hold, and exactly when it does

* Sequence numbers are contiguous over recovery only while every reopening that follows a sent unit succeeds at
  its first attempt: `recover()` reads the number from the live encoder, and after a failed attempt there is
  none. `Session.GateRefusesIffSequenceLost` and `Session.LostIff` give the exact condition,
  `Session.FailedReopenEndsSession` a run that ends the session.
* A bit rate changed while the pipeline is open is forgotten by its recovery: the encoder reopens at the negotiated
  rate unless another was asked for while it was down (`Worker.RateAfterReopening`).
* On the websocket path `release()` can report success while a key is, or is about to come, down. After a
  confirmed flush it cannot: such a flush proves that all that was written has been handled
  (`Flush.ConfirmedMeansHandled`, `Flush.ConfirmedFlushProtects`). Without one, tearing down is safe for every
  delivery exactly when no press was ever written to the websocket (`HidLease.UnconfirmedSafeExactly`,
  `HidLease.ForgottenKeyUp`). For the server, `HidServer.TaintedOnlyByGivingUp` says when track is lost and
  `HidServer.TaintIsReal` that it then really can be.
* The comment in `sunshine/rkmoon_bridge.cpp:91` promises that the input lease ends before the session's owner
  can be replaced. It does exactly when every input callback that took hold of it has returned from `forward()`
  (`InputKeeper.ReleasedBeforeReplaced`, `InputKeeper.BorrowedLeaseOutlives`).
* The client means to restart a session only when two polls in a row report the same new mode. A launch that
  fails on transport while recovering leaves a mode it has been told once being watched, and the next session is
  then restarted by its first report; the two reports are of one session exactly when none was left so
  (`Reconnect.RestartIsConfirmed`, `Reconnect.RestartOnOneReport`).

Where documents and code disagree the code is modelled: the HID server's queue holds 256 events, not the default
64; an overloaded sender makes the bridge drop units and ask for an IDR instead of ending the session.

## Model

| member | source | states |
|---|---|---|
| Session.OneUnitInFlight | src/worker_main.cpp:54-68 | in every run of worker, bridge, channels and sender, what is unacknowledged (on the channel, in the bridge's hand, or acknowledged and not yet read) is at most one unit, exactly one while the worker waits, and none when it does not; a wrong acknowledgement and an unexpected control are unreachable, and the wait can always go on while the bridge lives |
| Session.ReferenceChainKept | sunshine/rkmoon_bridge.cpp:113-150 | in every run what was queued for the network is, in order, what was not dropped; a non-IDR unit directly follows its predecessor; the queue holds at most two |
| Session.RecoveryTakesOneUnit | sunshine/rkmoon_bridge.cpp:117-150 | after any drop the very next unit is an IDR, so no unit is ever dropped merely for waiting |
| Session.NoNeedlessDrop | sunshine/rkmoon_bridge.cpp:133-148 | a run in which every unit arrives in time and no wait for the sender runs out drops nothing and queues all in order |
| Session.NumberedAndCounted | src/encoder_mpp.cpp:158-183 | until a reopening forgets the number units are numbered 1, 2, 3, ...; every settled unit is queued or counted as dropped |
| Session.GateRefusesIffSequenceLost | src/worker_main.cpp:118-129 | an arriving unit is refused as discontinuous exactly when some reopening has lost the number, and accepted otherwise |
| Session.LostIff | src/worker_main.cpp:118-129 | the number is lost exactly when some step of the run took the branch that leaves no encoder after units were sent |
| Session.FailedReopenEndsSession | src/worker_main.cpp:122-128 | a concrete run in which the second attempt reopens and the gate then ends the session |
| Session.HeldRequestIsHonoured | src/worker_main.cpp:131-165 | while the worker holds a request the next unit it sends, through any controls and recoveries, is an IDR |
| Session.SentRequestIsHonoured | sunshine/rkmoon_bridge.cpp:118-120 | a request sent in any reachable state makes one of the next two units an IDR |
| Session.StepKeepsInv | src/worker_main.cpp:133-172 | every action keeps the invariant behind these results |
| Worker.ForceSurvives | src/worker_main.cpp:59-65 | no control and no reopening, failed or successful, drops a pending IDR request |
| Worker.ControlsEnd | src/worker_main.cpp:58-65 | which control ends the worker and how, before a frame and while one is unacknowledged |
| Worker.LastRateHolds | src/worker_main.cpp:132-142 | after any controls the open encoder runs at the last rate asked for, or that rate is kept while the pipeline is down; an IDR is owed exactly if it was or one was asked for, of itself or by a change of rate |
| Worker.RefusedRate | src/worker_main.cpp:132 | a rate ends the worker exactly when the encoder is open and the rate is below 1 Mbit/s or above the current one |
| Worker.RateAfterReopening | src/worker_main.cpp:118-145 | a reopened pipeline continues the number, owes an IDR and runs at the rate asked for while it was down, else at the negotiated one; when that is the rate from before |
| Worker.TestIdrOnce | src/worker_main.cpp:149-157 | the test request makes the next unit an IDR and is raised once |
| Worker.WorkerLoop.ChangeBitrate | src/worker_main.cpp:132 | the rate is applied or kept pending, an IDR is forced, a refused rate ends the worker |
| Worker.WorkerLoop.AwaitAck | src/worker_main.cpp:54-68 | the waiting loop is the fold of the controls it takes and proceeds only on the acknowledgement of the unit in flight |
| Worker.WorkerLoop.DrainControls | src/worker_main.cpp:134-142 | the drain is the fold of the queued controls and takes all of them unless one ends the run |
| Worker.WorkerLoop.EncodeFrame | src/worker_main.cpp:149-158 | one unit with the next number, or none when a forced unit is no IDR; the request is cleared only by a unit |
| Worker.WorkerLoop.RecoverPipeline | src/worker_main.cpp:118-129 | every outcome of recover() and what its callers do after it, including the number read from the old encoder |
| Bridge.ChainReceive | sunshine/rkmoon_bridge.cpp:126-133 | receiving keeps the reference chain whatever unit arrives |
| Bridge.ChainRaise | sunshine/rkmoon_bridge.cpp:139-139 | a unit that may be delivered extends the chain |
| Bridge.ChainSettle | sunshine/rkmoon_bridge.cpp:145-148 | booking a drop keeps the chain |
| Bridge.SessionLoop.Deliver | sunshine/rkmoon_bridge.cpp:139-143 | the unit is queued exactly when some look in time finds the sender running and fewer than two units queued, all looks before it having found it full; exactly when the session ends instead; and the queue is never overfilled |
| Bridge.SessionLoop.Finish | sunshine/rkmoon_bridge.cpp:145-150 | a drop is counted, an IDR is requested only if none is awaited, and the acknowledgement comes last |
| Bridge.SessionLoop.HandleUnit | sunshine/rkmoon_bridge.cpp:126-151 | one unit from receive to acknowledgement, for any worker and sender: it is delivered exactly when accepted, recent, not held back and given room in time; what is sent back; and the chain kept |
| AnnexB.SplitJoins | src/annexb.cpp:15-34 | every buffer that begins with a start code is the join of units inside which no start code begins |
| AnnexB.JoinSplits | src/annexb.cpp:15-34 | such a list of units is the only one its join splits into |
| AnnexB.ProtectedIsCanonical | src/annexb.cpp:5-9 | units free of 00 00 01 and not ending in 00 hide no start code, under any mix of 3- and 4-byte codes |
| AnnexB.RefusedExactly | src/annexb.cpp:21-32 | the refusals let through exactly the units whose header octets conform: forbidden bit, layer, temporal id, least length, and the types of each standard's table, IDR_W_RADL and IDR_N_LP but not BLA, CRA or data partitions |
| AnnexB.KindsExactly | src/annexb.cpp:21-32 | IDR, slice and parameter-set units and the first slice of a picture are recognised as the standards define them, by their octets |
| AnnexB.VisitMeans | src/annexb.cpp:19-33 | a list is let through exactly when every unit conforms; the result counts units and pictures, and each flag says that a unit of its kind is there |
| AnnexB.Inspect | src/annexb.cpp:11-36 | the two-index scan computes exactly the split and the fold |
| AnnexB.AcceptsExactly | src/annexb.cpp:11-36 | the accepted buffers are exactly the joins of lists of conforming units within the size limit |
| AnnexB.OnlySplit | src/annexb.cpp:15-18 | an accepted buffer splits in one way only |
| AnnexB.ProtectedUnitsAccepted | src/annexb.cpp:11-36 | protected conforming units are accepted and give exactly their counts and flags |
| AccessUnits.AcceptedExactly | src/annexb.cpp:37-45 | validate_au lets through exactly sound units of conforming NAL units with one picture, a truthful IDR flag and parameter sets on every IDR, said of their octets |
| AccessUnits.DimensionsAreConfigured | src/annexb.cpp:39 | the dimensions let through are exactly those of configurations that can be negotiated |
| AccessUnits.SequenceGate.Accept | src/annexb.cpp:46-50 | the gate acts on valid units as the session model says, and a refusal changes nothing |
| AccessUnits.Encoder.Encode | src/encoder_mpp.cpp:158-183 | a returned unit is valid, has the next number, holds the packets up to the end of the image, and is an IDR if forced |
| AccessUnits.AssembledExactly | src/encoder_mpp.cpp:166-180 | a unit is exactly the data of all packets, in order, up to the first that ends the image, if that is within the limit and nothing broken or of another frame came before |
| AccessUnits.Encoder.ContinueSequence | src/encoder_mpp.cpp:43 | numbering goes on from the given number and nothing else changes |
| Capture.DrainKeeps | src/capture.cpp:118-126 | whatever the driver answers, no buffer is queued twice and none is lost between driver and worker, even by a throw; a drain that ends well leaves exactly its frame out with every other DQBUF counted as skipped |
| Capture.DrainIsNewest | src/capture.cpp:116-127 | a drain throws exactly when some reply is not honest, and otherwise holds the buffer of the last usable one, every other having been given back and counted |
| Capture.Device.DrainTurn | src/capture.cpp:116-126 | one round of the loop of latest() on the device's fields, its QBUFs through release(), is that drain's step |
| Capture.Device.Start | src/capture.cpp:78-104 | all buffers are with the driver after a successful start; exactly when it succeeds |
| Capture.Device.Release | src/capture.cpp:105-110 | only a dequeued buffer is queued, and by its precondition none that the encoder is reading; every refusal leaves the device as it was |
| Capture.Device.Latest | src/capture.cpp:111-129 | started with none out, it returns exactly when the poll is ready, every reply up to the end is honest and one is usable; the result is the newest usable buffer, it alone is out, the others are counted as skipped; never a double QBUF |
| Capture.Pipeline.OpenPipeline | src/worker_main.cpp:105-112 | a failed opening closes what it made, encoder first; exactly when it succeeds |
| Capture.Pipeline.Recover | src/worker_main.cpp:118-129 | the old pipeline is torn down before the new one opens; when the run goes on |
| Capture.Pipeline.Iterate | src/worker_main.cpp:133-172 | one round with any fault leaves a pipeline with nothing out and nothing being read, or none; no call throws double QBUF |
| Capture.Pipeline.Run | src/worker_main.cpp:103-173 | any run, with any faults and recoveries, meets at each QBUF and each unmap the precondition that the encoder neither reads that buffer nor maps the device; double QBUF never occurs and at the end every device is closed |
| Wire.ValueOfLittleEndian | src/core.cpp:18-19 | reading a little-endian field gives back the value written |
| Wire.LittleEndianOfValue | src/core.cpp:18-19 | writing the value read gives back the bytes |
| Wire.Put | src/core.cpp:18 | the loop writes the low bytes in place and nothing else |
| Wire.Get | src/core.cpp:19 | the loop reads the value of the bytes |
| Wire.Pack | src/core.cpp:62-69 | the 64 bytes are the layout of the header; oversize is refused |
| Wire.Parse | src/core.cpp:70-79 | parsing in place computes unpack(), its refusals included |
| Wire.UnpackOfLayout | src/core.cpp:62-79 | every valid header survives packing and unpacking |
| Wire.LayoutOfUnpack | src/core.cpp:62-79 | every accepted 64 bytes is the layout of the header it gives, so the two are mutually inverse |
| Messages.DecodeOfEncode | src/core.cpp:80-92 | a message is decoded unchanged and up to its last byte, whatever follows |
| Messages.StreamRoundTrip | src/core.cpp:80-92 | any sequence of messages is decoded from its encodings, with nothing left over |
| Messages.ReceivedAsSent | src/core.cpp:20-35 | two ends on one stream that take turns, reads and writes split and interleaved in any way: what is received is always the first of what was sent, no header is refused, and with nothing under way all has been received |
| Messages.Socket.WriteAll | src/core.cpp:20-35 | however writes are split and the other end reads meanwhile, a first part of the data goes out in order, and success means all of it |
| Messages.Socket.ReadAll | src/core.cpp:20-35 | however reads are split, and with bytes arriving between them, what is taken is the next of the stream; success means exactly the wanted number, and comes if they arrive and the turns suffice |
| Messages.Socket.Send | src/core.cpp:87-92 | a sent message is its encoding appended to the stream; a fault leaves a first part of it, a refusal nothing |
| Messages.Socket.Receive | src/core.cpp:80-86 | a received message is the next one of the stream and no byte more; a refused one costs its header; it comes if its bytes arrive and the turns suffice |
| WebSocket.BuildFrame | python/rkmoon_hid/backend.py:234-241 | the header branches build the encoding, in all three length forms |
| WebSocket.FrameOctets | python/rkmoon_hid/backend.py:234-241 | a frame is octet by octet as section 5.2 of RFC 6455 lays it out: final fragment, opcode, mask bit, shortest length form, key and payload |
| WebSocket.MaskedBit | python/rkmoon_hid/backend.py:241 | each bit of the masked payload is that of the payload XOR that of the key, repeated |
| WebSocket.MaskedTwice | python/rkmoon_hid/backend.py:254 | masking twice with one key gives the payload back |
| WebSocket.ReadOfEncode | python/rkmoon_hid/backend.py:246-254 | a frame, masked or not, is read back with its opcode and payload up to its last byte |
| WebSocket.ReadAllOfEncodeAll | python/rkmoon_hid/backend.py:243-254 | any sequence of frames is read back with nothing left over |
| WebSocket.AnswerUnfolds | python/rkmoon_hid/backend.py:255-261 | what one frame adds to the answers and confirmations of those after it |
| WebSocket.DecidedForGood | python/rkmoon_hid/backend.py:246-254 | what has been read from the front of a stream, or refused, does not change when more arrives |
| WebSocket.KvmdStream.ReadLoop | python/rkmoon_hid/backend.py:243-266 | however the octets are cut into arrivals, the loop answers each ping and counts each confirmation up to a close frame, an oversized one or the end, and then the stream is dead |
| WebSocket.KvmdStream.Send | python/rkmoon_hid/backend.py:268-276 | one masked frame on a live stream, nothing on a dead one; a failure kills the stream; as the link's Write |
| WebSocket.KvmdStream.BeginFlush | python/rkmoon_hid/backend.py:278-280 | stale confirmations are gone and one ping is written; as the link's Begin |
| WebSocket.KvmdStream.EndFlush | python/rkmoon_hid/backend.py:281-287 | the first item of the queue or the timeout decides, and anything but a confirmation kills the stream; as the link's Finish |
| WebSocket.KvmdStream.Stop | python/rkmoon_hid/backend.py:264-266 | however the loop ends, the stream is dead and a waiting flush is told; as the link's LoopEnds |
| Flush.ConfirmedMeansHandled | python/rkmoon_hid/backend.py:243-287 | in every run of sends, flushes, an in-order kvmd and the read loop, with any failures and timeouts, a flush that is confirmed finds every frame written before it handled |
| Flush.FlushSucceeds | python/rkmoon_hid/backend.py:278-287 | from any live state a flush whose ping is handled and answered in time is confirmed and leaves the stream clean |
| Flush.FailuresKill | python/rkmoon_hid/backend.py:262-287 | a failed write, an unconfirmed flush and the end of the read loop kill the stream, a dead stream stays dead and writes nothing, and a good write adds exactly its frame |
| Flush.ConfirmedFlushProtects | python/rkmoon_hid/server.py:83-90 | so release() after it leaves nothing down |
| WebSocket.PacedBy | python/rkmoon_hid/backend.py:199-206 | however reports are asked for and however late sleeps end, between any two groups the endpoint has an interval for every report sent from the first on, less one early waking; early wakings do not add up |
| WebSocket.Slot | python/rkmoon_hid/backend.py:199-206 | one step of that sequence: the clock is read again after a sleep, and the endpoint is reserved from the later of it and the time it is free |
| Pixels.InBounds | src/pixels.cpp:14-19 | every accepted layout keeps all reads and writes within both buffers |
| Pixels.CopyNv12 | src/pixels.cpp:20-24 | the NV12 branch puts every visible byte in place and leaves the padding |
| Pixels.ConvertBgr | src/pixels.cpp:25-60 | both BGR branches give every pixel its luma and every 2x2 block its chroma, and leave the padding |
| Pixels.ToNv12 | src/pixels.cpp:13-61 | for every layout, stride and padding: refused exactly when the guard says so, otherwise every cell of the output is its formula or the fill value |
| Pixels.PictureIsBt709 | src/pixels.cpp:25-60 | every visible byte of a picture converted from BGR, in either range, is within one code of the exact BT.709 value of the source octets at its pixel's or block's addresses |
| Pixels.PictureOfNv12 | src/pixels.cpp:20-24 | every visible byte of an NV12 picture is the source's byte, by its plain address |
| Pixels.PaddingIsBlack | src/pixels.cpp:19 | every byte beside the visible picture is black: 0 or 16 by the range, and 128 |
| Pixels.RefusedForCause | src/pixels.cpp:14-18 | for even dimensions and an allowed range the guard accepts exactly when the rows fit and no byte of a source or destination row is out of its buffer |
| Pixels.GrayBlockIsNeutral | src/pixels.cpp:25-60 | a block of four gray pixels, of any levels, gets chroma 128 |
| Pixels.DirectIsIdentity | src/pixels.cpp:6-12 | an NV12 layout the hardware may read directly is accepted and would be copied unchanged, so skipping the copy changes nothing |
| Pixels.DirectHasNoPadding | src/pixels.cpp:6-12 | a layout is read directly exactly when it needs no conversion, its width and height are aligned as they are, and rows and image have no padding |
| Colour.FullInRange | src/pixels.cpp:48-60 | full-range results stay in 16..235 and 16..240, so the final clamp changes nothing |
| Colour.LimitedInRange | src/pixels.cpp:25-47 | the same for limited range, and the narrowing of luma loses nothing |
| Colour.FullLumaClose | src/pixels.cpp:54 | within one code of exact BT.709 luma |
| Colour.FullChromaClose | src/pixels.cpp:56-59 | within one code of exact BT.709 colour difference of the block's mean |
| Colour.LimitedClose | src/pixels.cpp:29-45 | both for limited range |
| Colour.FullIsNearest | src/pixels.cpp:54-59 | each full-range result is its fixed-point product rounded to the nearest code |
| Colour.LimitedIsNearest | src/pixels.cpp:29-45 | so is each limited-range one, ties of colour difference going away from 128 |
| Colour.GrayIsNeutral | src/pixels.cpp:56-59 | full-range component sums that are equal give chroma 128, whatever they are |
| Colour.LimitedGrayIsExact | src/pixels.cpp:29-45 | the same for limited range, and limited-range gray keeps its luma |
| Levels.AvcLevelIsLeast | src/core.cpp:55-57 | for every accepted configuration the H.264 level meets MaxFS, MaxMBPS and the dimension limits, and no lower offered level does |
| Levels.HevcLevelIsLeast | src/core.cpp:47-54 | the same for the HEVC Main-tier limits |
| Levels.RoundedRateFits | src/core.cpp:37-43 | the throughput bound keeps the rounded-up macroblock rate within level 5.2 |
| Levels.LowerBitrateKeepsLevel | src/core.cpp:44-58 | a lowered bit rate never needs another level |
| Events.CoalesceSame | python/rkmoon_hid/lease.py:41-51 | an accepted put shows the target the same edges at the same pointer positions and the same final position, within capacity and ranges |
| Events.CoalesceExactly | python/rkmoon_hid/lease.py:41-51 | a put is refused exactly when the queue is full and the event cannot join the last one; motion that can join takes no room, anything else one place at the back |
| Events.SameInContext | python/rkmoon_hid/lease.py:42 | indistinguishable inputs stay so in any context |
| Queues.Queue.Put | python/rkmoon_hid/lease.py:41-51 | accepted exactly when there is room or the event joins the last one, which takes no room; what was popped with what is queued stays the same as what was put; a refused put changes nothing |
| Queues.Queue.Pop | python/rkmoon_hid/lease.py:52-55 | the oldest event moves from the queue to the popped ones |
| Queues.HidClient.Submit | src/hid_client.cpp:59-78 | accepted exactly when the lease lives, the event fits the mode and range, and it joins the last one or fewer than 64 are queued; joining takes no room; a refusal revokes the lease and leaves the queue |
| Queues.HidClient.Round | src/hid_client.cpp:83-93 | one round of the sending thread writes the oldest event or ends, and loses at most the one in its hand |
| Queues.PathKeepsInput | src/hid_client.cpp:59-97 | through both queues and the socket, however they interleave and after a refusal at either end, applied plus in transit is the same as submitted, and only events the server accepts travel |
| Queues.EdgesArriveInOrder | python/rkmoon_hid/lease.py:41-55 | applied edges are the first submitted ones, each at its submitted pointer position |
| Motion.Chunks | python/rkmoon_hid/lease.py:57-59 | the loop yields exactly the specified reports |
| Motion.PartsConserve | python/rkmoon_hid/lease.py:57-59 | reports add up to the delta, each fits -127..127, moves the pointer and never goes back |
| Motion.PartsCount | python/rkmoon_hid/lease.py:57-59 | there are as many reports as the longer axis needs |
| Motion.ReportsFollowInput | python/rkmoon_hid/lease.py:94-101 | from submit to report through both queues each edge happens where the reports have put the pointer |
| HidLease.NothingForgotten | python/rkmoon_hid/lease.py:71-125 | over every sequence of apply and release, with requests that succeed, fail, or fail after taking effect, what is down is tracked; empty tracked sets mean nothing is down |
| HidLease.ApplyKeepsSound | python/rkmoon_hid/lease.py:71-111 | one event keeps all that is, or will be, down tracked |
| HidLease.ReleaseOneKeepsSound | python/rkmoon_hid/lease.py:115-124 | an input leaves the tracked sets only when its release is acknowledged |
| HidLease.ConfirmedFlushIsSafe | python/rkmoon_hid/server.py:83-90 | once all that was written is delivered, release() is as safe as on the acknowledged path |
| HidLease.UnconfirmedSafeExactly | python/rkmoon_hid/server.py:83-90 | without confirmation teardown is safe for every delivery exactly when no press was written |
| HidLease.LatePressSticks | python/rkmoon_hid/server.py:83-90 | for any written press, a delivery that leaves something down after release() succeeded |
| HidLease.ForgottenKeyUp | python/rkmoon_hid/lease.py:83-86 | a key pressed and released on the websocket, with only the press delivered, stays down while nothing is tracked |
| HidLease.InputMirrored | python/rkmoon_hid/lease.py:73-93 | without failures a key is down exactly when some virtual key mapped to it was last pressed, a button when it was, and requests alternate beginning with a press |
| HidLease.RequestsFollowInput | python/rkmoon_hid/lease.py:94-111 | requests put the pointer where the events do; 120 times the notches plus the remainder is all wheel input, the remainder under one notch |
| HidLease.WheelNeverOvershoots | python/rkmoon_hid/lease.py:105-111 | whatever becomes of the requests, the notches a wheel event sends never exceed what the wheel has turned, so nothing is sent below a notch or against its direction; what remains is under a notch and in its direction |
| HidLease.EndsAgreeOnRanges | python/rkmoon_hid/lease.py:9-36 | the server parses exactly the events submit() lets through, but for unknown key codes |
| HidLease.RequestsFollowSubmits | python/rkmoon_hid/lease.py:71-111 | the same from submit through both queues, and the server's checks accept all that arrives |
| HidLease.Lease.Apply | python/rkmoon_hid/lease.py:71-111 | the method makes the specified change and raises exactly when a needed request fails or the motion is of the other mode |
| HidLease.Lease.Typed | python/rkmoon_hid/lease.py:73-86 | the key branch with alias reference sets |
| HidLease.Lease.Release | python/rkmoon_hid/lease.py:112-125 | exactly the inputs whose release failed stay tracked, and True means none |
| HidServer.OneOwner | python/rkmoon_hid/server.py:23-138 | in every reachable state at most one handler, retry task or neutralizer owns the lease, busy is set whenever one does and, unless stopping, only then |
| HidServer.NeutralBetweenLeases | python/rkmoon_hid/server.py:43-95 | whenever leases are accepted nothing of the last is tracked, and nothing is down unless a websocket was given up harmfully |
| HidServer.AcknowledgedPathIsNeutral | python/rkmoon_hid/server.py:96-116 | without websockets, after startup neutralization, nothing is down whenever leases are accepted, for every interleaving |
| HidServer.BusyClearsOnlyWhenNeutral | python/rkmoon_hid/server.py:88-117 | busy clears only in four places, and then nothing is tracked |
| HidServer.BusyClearsExactly | python/rkmoon_hid/server.py:88-117 | exactly when busy clears: release() with nothing left tracked, no lease, a retry with nothing left tracked, or a full neutralization; until then the recovery task goes on unless the server stops |
| HidServer.TaintedOnlyByGivingUp | python/rkmoon_hid/server.py:83-87 | track is lost exactly by a websocket given up, its flush failed or cancelled, with something it could leave down |
| HidServer.TaintIsReal | python/rkmoon_hid/server.py:83-93 | and whenever that may happen, some run gives it up, releases all that is tracked, clears busy and has something down |
| HidServer.StepInv | python/rkmoon_hid/server.py:23-138 | every step of every task, among them a stop during the retry's sleep, keeps the invariant, in which a confirmed flush is derived from the link |
| HidServer.Server.Admit | python/rkmoon_hid/server.py:29-32 | a connection owns the lease exactly when its user matches and the server is neither busy nor stopping, and then it alone does |
| HidServer.Server.Leave | python/rkmoon_hid/server.py:88-95 | the owner's end clears busy exactly when nothing is tracked, or starts the retry task |
| InputKeeper.OneLeasePerSession | sunshine/rkmoon_bridge.cpp:52-69 | at most one lease is shared or being made, always of the session that owns the video lock |
| InputKeeper.BorrowedExactly | sunshine/rkmoon_bridge.cpp:25 | in every run a callback holds a lease exactly when it took hold of it while it was shared and has not returned since |
| InputKeeper.ReleasedBeforeReplaced | sunshine/rkmoon_bridge.cpp:91-92 | when the next session may start, a lease of an earlier one is alive exactly when some callback of the run took hold of it while it was shared and has not returned since |
| InputKeeper.BorrowedLeaseOutlives | sunshine/rkmoon_bridge.cpp:25 | a run in which a callback keeps a lease into the next session |
| Reconnect.RetriesAreBounded | client/app/src/kvmwindow.cpp:252-421 | in every run at most five launches before a connection, user Start or mode restart, with waits of 1, 2, 4, 8, 8 s, and none before the first connection |
| Reconnect.RestartIsConfirmed | client/app/src/kvmwindow.cpp:299-312 | a session restarts for its mode only on a report of another one, and the poll before it, of the same session, reported it too exactly when no failed launch left the mode being watched; if one did, it restarts on its first report |
| Reconnect.RestartOnOneReport | client/app/src/kvmwindow.cpp:376-389 | a concrete run of the latter |
| Reconnect.RestartIsPrompt | client/app/src/kvmwindow.cpp:299-312 | two polls in a row that report to one session the same other mode restart it |
| Reconnect.StepKeepsBudget | client/app/src/kvmwindow.cpp:252-421 | every event keeps the launch budget and moves the attempt counter by at most one |
| Reconnect.RecoveryGoesOn | client/app/src/kvmwindow.cpp:262-413 | every failure that may pass, of a session, a launch or a poll before one, schedules the next attempt until five are made and then ends the following; nothing else raises the counter |
| Reconnect.AttemptsAreMade | client/app/src/kvmwindow.cpp:262-421 | a scheduled attempt polls in its time, is not disturbed by waiting polls, and launches on the next good one; a session is given up by the tenth failed poll in a row |
| Reconnect.EndingsAreTaken | client/app/src/kvmwindow.cpp:347-374 | what each way a session can end does to the following |
| Reconnect.HardFailuresEnd | client/app/src/kvmwindow.cpp:276-298 | a failure that will not pass, of a poll, a launch or the mouse mode, and the user's quit end the following, and a failed poll also stops the session |
| Reconnect.ClicksAreTaken | client/app/src/kvmwindow.cpp:319-334 | Start follows afresh and polls at once, a second click cancels, a click during a session does nothing |
| Reconnect.KvmWindow.PollError | client/app/src/kvmwindow.cpp:259-290 | the failure branches of a poll |
| Reconnect.KvmWindow.PollDone | client/app/src/kvmwindow.cpp:291-315 | the success branches of a poll, the mode watch and the launch |
| Reconnect.KvmWindow.EndSession | client/app/src/kvmwindow.cpp:346-374 | the branches of a session's end |
| Reconnect.KvmWindow.FailLaunch | client/app/src/kvmwindow.cpp:376-389 | a failed launch goes on only when recovering from a transport fault |
| Reconnect.KvmWindow.ClickStart | client/app/src/kvmwindow.cpp:317-333 | Start begins to follow and polls, a second click cancels, and neither does anything during a session |

## Left out

- Pixels.ToNv12: does not model the wrap-around of the 64-bit size products, which only strides near 2^32 reach.
- AccessUnits.Encoder.Encode: does not model the wrap-around of the 64-bit sequence number; MPP calls, colour staging and the DMA fence around them are outcomes only.
- Session.NumberedAndCounted: is stated until a reopening forgets the number, because after that it is false.
- HidLease.Lease.Release: the order of releases is arbitrary, and cancellation inside it belongs to HidServer.
- WebSocket.KvmdStream.ReadLoop: is one call from start to end; its interleaving with flushes is in Flush, whose steps its parts show. That kvmd answers each ping once and nothing else with 0xFF is taken from its protocol.
- AnnexB.Inspect: the throw for a unit without a start code is unreachable there and in the code.
- Timeouts, frame age, the recovery window and the 50 ms queue wait are free choices; that something happens in time is not proved, except pacing.
- The READY handshake, process start and termination, statistics output and the standalone mode of the worker.
- Checks of format, timestamps in the future and the alignment of HEVC coded sizes in the bridge and encoder.
- Reconnect: the Qt timers, the zero-delay launch after a poll (taken as immediate), host binding and settings.
- HidServer: the handshake's text, the watchdog and socket set-up; each is a way for a handler to end.
- `wake()` and the choice of the mouse output: taken as leaving keys and buttons as they are.
- JSON and HTTP parsing, credentials, logging, Qt widgets, SDL, audio, EDID tools, packaging and systemd units.
- Python's float division by 120 is modelled by integer truncation, equal for all values the ranges allow.
