# Verified model of the SyncCom driver

The SyncCom driver serves a synchronous serial board behind USB. This project models its four
pieces of real logic and proves what they promise.

* **Receive.** Bytes arrive in packets, frame sizes arrive separately through asynchronous register
  reads, and a worker cuts the byte stream at those sizes. `Handshake` is the exchange of counts and
  sizes with the board, `Receive` the stream, the worker, the losses and the memory cap,
  `ReceiveSystem` the two together, `Packing` what a read returns. `ReceivePort` is the driver's own
  object with its frames and lists changed in place.
* **Transmit.** Written buffers become frames, frames become padded chunks, and chunks are throttled
  by the number of writes in flight. `Transmit` is the machine, `TransmitPort` the driver's object,
  `TransmitBus` what the bus is handed over whole runs.
* **Clock.** `ClockSearch` finds the parameters of a clock chip, `ClockLimits` states its tests in
  whole numbers, `OutputDivider` is the set of dividers it tries, `ClockWord` codes the result into 20
  bytes, `ClockFields` is that word bit by bit, `ClockBits` is search and coding together, `ClockPins`
  is the script of register writes that clocks the word into the chip, and `ClockUpdate` is that
  script sent by the driver.
* **Registers.** `Registers` has the wire format and the pipeline of commands, answers and cached
  values; `RegisterPort` is the driver's side of it in place.

`Frames` and `FrameLists` are the byte buffer and the queue everything else is built on; `CTypes` and
`Offsets` hold the 32-bit arithmetic and the register addresses.

## How the model is built

The driver's objects are classes (`Frames.Frame`, `FrameLists.FrameList`, `ReceivePort.Port`,
`TransmitPort.Port`, `RegisterPort.Driver`) whose methods follow the handlers statement by statement.
Beside each port stands a machine over values whose events may come in any order: a spinlocked
region of a handler is one step, and so is what the board does with one command. The `Valid`
predicate of a port ties its fields to a ghost state of the machine, and each handler is proved to
be a step, or a short run of steps, of that machine. The theorems about whole runs are then proved
once, about the machine.

The source keeps all of this in one port structure. Here it is divided by concern: the completion
routine of a register read (`src/isr.c:446-556`) is in `RegisterPort.Driver` for what it caches and
in `ReceivePort.Port` for what it does with counts and sizes.

An event that cannot happen in a state leaves it unchanged, so every statement about "all lists of
events" is a statement about all runs.

## Where the code is not what one would expect

Each of these is kept as the code has it, and proved.

* The room left in a pending frame is an unsigned difference (`src/frame.c:172`), and so is the sum it
  is compared with (`src/isr.c:424`). In every run each finished frame has its size less its losses if
  and only if the losses fitted whenever a frame was finished, or their counter had wrapped around to
  zero (`Receive.LossAccounting`). If they did not, the frame takes whatever the stream has, and what
  is beyond its size is dropped (`Receive.CutExact`); all accepted bytes are kept in order if and only if no cut drops one
  (`Receive.ConservedExactly`). One packet can do it (`Receive.OvershootDropsBytes`).
* Dropped bytes are taken off the pending list's estimate, which does not have them, so the estimate
  is short by all bytes that ever vanished (`Receive.DriftExact`). From then on a packet gets in if and
  only if at least as much is held as has vanished, and by less than the cap more
  (`Receive.HearsExactly`). So the cap is raised for good by what has vanished
  (`Receive.InputDriftBound`, `Receive.CapOvershot`), and once less is held than that, as when a
  reader has taken everything, no byte is ever accepted again (`Receive.DeafForEver`,
  `Receive.DrainedIsDeaf`, `Receive.OvershootDeafens`).
* Bytes of a partial frame are in no estimate (`src/flist.c:47-52`). While no cut drops a byte the input
  cap can be exceeded by the largest frame less one byte, and by no more
  (`Receive.InputBoundAttained`, `Receive.InputMemoryBound`).
* A size read that is lost stays counted, and counts up to the number of such reads issue no reads. So
  that many of the newest sizes are left on the board by every exchange after it, and all of them from
  1023 on (`Handshake.FailuresStrand`).
* The recount of a list leaves out its last frame (`src/flist.c:128-142`); it is right if and only if
  that frame is empty (`FrameLists.FrameList.CalculateMemoryUsage`).
* The throttle compares with `>`, so one write more than the maximum can be outstanding
  (`Transmit.ThrottleLetsOneMoreThrough`, `Transmit.ThrottleBoundReached`). A failed send stays
  counted for ever: with data to send and no worker at work, some continuation sends a chunk if and
  only if no more sends than the maximum have failed (`Transmit.StallExactly`), and the stall can be
  reached (`Transmit.StallIsReached`).
* The size of a frame is announced again after every attempt that failed before its first chunk
  (`src/isr.c:262`, `Transmit.AnnouncedOften`).
* A frame of a single chunk is padded with zeros. The last chunk of a longer frame is padded with the
  frame's own bytes from one chunk before its end, so that padding is zero if and only if those bytes
  are (`Transmit.LaterPaddingIsStale`).
* The length a read compares frames with is stored in a C `int`; from about 2 GiB on, a buffer
  gets nothing (`Packing.HugeBuffer`). The length it reports for a frame without its status is within
  the frame if and only if the frame has two bytes (`Packing.ShortFrame`), and below 2 GiB the whole
  read stays in its buffer if and only if every frame it takes does (`Packing.InBoundsExactly`). A
  frame without any byte can be queued (`Receive.EmptyFrameQueued`); reading it reports 2^32 - 2 bytes
  (`Packing.EmptyFrameRead`).
* The rounding of the loop filter ratio always goes up by a tenth, so the limits 7 and 30 admit
  exactly the ratios from 6.9 up to, but without, 30 (`ClockSearch.FilterLimits`).
* The starting point of the VCO loop is converted from a double to `int` and then to `unsigned`, and
  skips close dividers if and only if it is at most -1 (`ClockSearch.NegativeStart`, and
  `ClockSearch.StartSkips` for a request that does it). No tuning the chip accepts is lost that way,
  for any request: the error is then larger than the target, the 32-bit product keeps it below
  4.3 kHz, and the chip makes nothing below 10 kHz (`ClockSearch.StartLosesNothing`).
* No tuning makes more than 270 MHz, and the allowed error never exceeds 4295 Hz, so a request from
  270004295 Hz up finds nothing at any error (`ClockLimits.NothingAbove`).
* A request of 2^32 - 1 ppm ends only if something works, because the counter cannot pass it
  (`ClockSearch.Search`).
* An output divider that the chip cannot count to is silently coded as 7 (`ClockWord.Encode`); the
  search never asks for one.
* The comparison with the highest register address is strict (`src/isr.c:498`), so DPLLR is the one
  register whose cached value is never refreshed (`Registers.Coherent`). The comment at
  `src/defines.h:99` calls that address the highest one.
* A clock update writes back the cached FCR, as 32 bits, without reading it back. FCR is coherent
  afterwards if and only if those 32 bits are the value the cache is going to settle to
  (`Registers.ClockUpdateCoherent`); with no read of FCR under way, if and only if the cached value is
  one FCR can hold (`Registers.ClockUpdateChecked`). Both can fail: right after FCR was set
  (`Registers.ClockUpdateTooEarly`), and in the driver's first state, where every cached value is -1
  (`src/device.c:781`, `ClockUpdate.UpdateBeforeFirstRead`).
* Reading all registers asks for FCR at the wrong address, so it never refreshes it
  (`Registers.GetReadsBack`).

## Model

| member | source | states |
|---|---|---|
| `Frames.Frame.constructor` | src/frame.c:37-57 | a new frame is empty |
| `Frames.Frame.UpdateBufferSize` | src/frame.c:101-144 | resizing keeps the data up to the new size, rounds the capacity up to a multiple of four, and zeroes all the room behind the data |
| `Frames.Frame.AddData` | src/frame.c:146-164 | appends the bytes; room is added only when there is too little, and then all spare room is zero, otherwise the spare bytes stay what they were |
| `Frames.Frame.RemoveData` | src/frame.c:183-208 | removes the longest prefix up to the length asked for, delivers exactly it into the destination and nothing else there, keeps the rest in order, and leaves the old bytes behind the data |
| `Frames.Frame.CopyData` | src/frame.c:166-181 | moves a prefix of the source without loss or duplication, as long as the wrapping room allows |
| `FrameLists.FrameList.AddFrame` | src/flist.c:47-52 | appends the frame and adds its length to the estimate modulo 2^32 |
| `FrameLists.FrameList.RemoveFrame` | src/flist.c:70-84 | takes the first frame off and its length off the estimate; an empty list is unchanged |
| `FrameLists.FrameList.RemoveFrameIfLte` | src/flist.c:86-106 | takes the first frame if and only if there is one and it is no longer than the size, else changes nothing |
| `FrameLists.FrameList.Clear` | src/flist.c:108-121 | the list is empty and its estimate zero |
| `FrameLists.FrameList.CalculateMemoryUsage` | src/flist.c:128-142 | the recount is the sum without the last frame, modulo 2^32, so it is the memory held if and only if the list is empty or its last frame is |
| `Handshake.CountReaction` | src/isr.c:504-523 | a count raises the pending reads to its low ten bits if they are below, issuing exactly as many size reads, and changes nothing else |
| `Handshake.InvStep` | src/isr.c:502-547 | every step of the exchange keeps: size reads under way never exceed the sizes on the board, each stale count is at most the sizes left plus the size answers behind it, and the pending count covers the outstanding reads |
| `Handshake.NoOverRead` | src/isr.c:502-547 | in every run, with requests failing at will, no size read ever meets an empty size FIFO, and the pending count is never below the outstanding size reads, and equal to them while nothing failed |
| `Handshake.SizesInHardwareOrder` | src/isr.c:535-546 | in every run without failures each announced size is exactly once, and in the board's order, a pending frame, in an answer, or on the board |
| `Handshake.Drains` | src/isr.c:513-546 | without new sizes or packets the exchange ends after at most a computed number of steps, whichever of them happen |
| `Handshake.FetchedWhenQuiescent` | src/isr.c:504-547 | when a failure-free exchange has drained, all sizes are pending frames except those queued after the last sample of the count |
| `Handshake.PacketFetchesEverything` | src/isr.c:637-637 | after a packet, an exchange that drains without failures and new sizes has fetched every size the board announced |
| `Handshake.FailuresStrand` | src/isr.c:504-547 | after any run with any failures, the exchange after the next packet leaves on the board exactly the newest sizes up to the number of reads still counted, or all of them if that is 1023 or more, and turns all others into pending frames in order |
| `Receive.CutTerminates` | src/isr.c:400-444 | each round of the worker decreases the pending frames plus one for a non-empty stream, even with excessive losses |
| `Receive.InvStep` | src/isr.c:400-444 | every step whose cut fits keeps: finished frames, partial frame and stream are the accepted bytes; sizes stay in order and a finished frame without losses has its size; the queue's estimate is exact and the pending list's is zero |
| `Receive.LongestPrefixKept` | src/isr.c:639-668 | a packet is kept up to the longest prefix that leaves the usage within the cap, the newest pending frame, unless streaming, is charged exactly the rest modulo 2^32, and nothing else changes |
| `Receive.Framing` | src/isr.c:400-444 | in every interleaving in which no cut takes more than its frame's size, what was read, what is queued, the partial frame and the stream are all accepted bytes in order; without losses the finished frames are the slices of the accepted stream at the announced sizes, all of them once the worker is done |
| `Receive.ConservedExactly` | src/isr.c:400-444 | in every run those parts are the accepted bytes in order if and only if no cut dropped a byte |
| `Receive.ChargesFitSuffices` | src/isr.c:641-662 | cuts fit in every run in which each charge fits the newest frame's room when it is made |
| `Receive.InterleavingIndependent` | src/isr.c:400-444 | two loss-free runs over the same bytes and sizes end with the same frames and the same rest |
| `Receive.LossAccounting` | src/isr.c:641-662 | in every run each finished frame holds its announced size less its lost bytes if and only if its losses fitted when it was finished (or the loss counter had wrapped to zero), and then the totals balance |
| `Receive.CutExact` | src/frame.c:166-181 | a round of the worker that finishes a frame delivers exactly size less losses if and only if data plus losses fit the size or the counter is zero; it drops exactly what the frame has beyond its size, nothing if the losses fit |
| `Receive.OvershootDropsBytes` | src/isr.c:641-662 | a run with one packet over the cap whose losses exceed the frame's room, and four of the accepted bytes are gone |
| `Receive.InputMemoryBound` | src/isr.c:639-662 | in every run under a fixed cap whose cuts fit, the bytes held for the reader never exceed the cap plus the largest announced size less one |
| `Receive.DriftExact` | src/flist.c:70-84 | in every run, whatever is charged, the pending list's estimate is short by exactly the bytes that vanished in cuts, the queue's is exact, and read, held and vanished bytes are the accepted ones |
| `Receive.EstimateExact` | src/flist.c:70-84 | the estimate is exact if and only if no cut finished a frame holding more than its size |
| `Receive.InputDriftBound` | src/isr.c:639-662 | in every run under a fixed cap in which an unfinished frame stays below its size, the bytes held exceed the cap and the largest size less one by no more than what has vanished |
| `Receive.TameWithoutWrap` | src/isr.c:424-424 | an unfinished frame stays below its size unless its loss counter wraps around |
| `Receive.CapOvershot` | src/isr.c:639-662 | a run under a cap of 20 with frames up to 10 bytes in which seven bytes vanish and then 36 are held, exactly the bound and seven more |
| `Receive.HearsExactly` | src/isr.c:639-652 | some of a packet is kept if and only if what is held is at least what has vanished and by less than the cap more |
| `Receive.DeafForEver` | src/isr.c:639-652 | once less is held than has vanished and the stream is empty or nothing partial makes up for it, no run under the same cap accepts another byte |
| `Receive.DrainedIsDeaf` | src/isr.c:639-652 | a reader that has taken everything after any byte vanished leaves such a state |
| `Receive.OvershootDeafens` | src/isr.c:639-652 | after the run that drops four bytes no further run accepts a byte, whatever is read |
| `Receive.EmptyFrameQueued` | src/isr.c:424-433 | one packet over the cap, with losses that fit, can queue a frame without any byte |
| `Receive.InputBoundAttained` | src/isr.c:639-662 | for every cap above zero and every largest size there is such a run that holds exactly that many bytes |
| `Receive.ZeroCapAcceptsNothing` | src/isr.c:641-652 | under a cap of zero no run accepts a byte |
| `ReceiveSystem.FramesFollowTheBoard` | src/isr.c:400-547 | board, packets, completions, worker and readers in any interleaving: the finished frames are the slices of the accepted stream at the sizes the board announced, in its order, and all of them once everything is quiet |
| `Packing.TakesExactly` | src/isr.c:181-198 | below the `int` limit the wrapping and truncating length computation takes a frame if and only if what it needs fits the room left, and a frame that can be rendered is never taken at or above the limit |
| `Packing.Greedy` | src/isr.c:171-223 | a read returns the renderings of the longest prefix of the queue that fits (at most one frame without `rx_multiple`), never exceeds the buffer, and leaves the rest in order |
| `Packing.TooSmall` | src/isr.c:219-222 | when every frame has a visible byte, "too small" means the queue is unchanged and its first frame does not fit |
| `Packing.HugeBuffer` | src/isr.c:175-198 | a buffer at or beyond the `int` limit gets nothing and the queue stays, unless its first frame is too short to be rendered |
| `Packing.ShortFrame` | src/isr.c:204-208 | the length reported for a frame is within the frame if and only if the status bytes are kept or there are two bytes to leave out; otherwise it wraps around |
| `Packing.ShownParts` | src/isr.c:204-217 | a reader gets the frame's bytes, without the last two unless status is asked for, and then the eight bytes of the time if that is |
| `Packing.InBoundsExactly` | src/isr.c:181-217 | for every queue and every buffer below the limit, the loop with the source's own lengths reports and writes within the buffer if and only if every frame it takes can be rendered, and then reports exactly what is packed |
| `Packing.EmptyFrameRead` | src/isr.c:204-217 | a frame without any byte, read without status, is reported as 2^32 - 2 bytes and its time is placed there |
| `ReceivePort.PairSwapTwice` | src/isr.c:619-630 | swapping the bytes of each word twice gives the packet back, for every length |
| `ReceivePort.PairSwapAt` | src/isr.c:629-633 | each byte changes places with its neighbour in the 16-bit word |
| `ReceivePort.PayloadSizeOf` | src/isr.c:615-616 | every payload length below 2^16 is read back from its two bytes, the higher one first |
| `ReceivePort.StreamingBits` | src/port.c:1070-1087 | a port streams if and only if exactly one of the two low mode bits is set, six option bits are clear, and the upper half of CCR2 is zero |
| `ReceivePort.SwapPairs` | src/isr.c:619-630 | the in-place loop swaps the bytes of exactly the words of the packet, an odd length rounded up, and nothing behind them |
| `ReceivePort.Port.FillFront` | src/isr.c:419-424 | copying into the front frame is the machine's fill step, and the frame keeps its announced size |
| `ReceivePort.Port.FinishFront` | src/isr.c:425-439 | a full frame leaves the pending list and its bytes, cut to the size, join the end of the queue, with both estimates updated |
| `ReceivePort.Port.IframeWorker` | src/isr.c:400-444 | the worker's loop on the driver's lists ends, and ends where the machine's repeated cuts end; nothing already queued changes |
| `ReceivePort.Port.RegisterCompletion` | src/isr.c:502-547 | a count issues as many size reads as it exceeds the pending ones, a size opens a pending frame if accepted and always asks for a new count: the handshake's two reactions, on the driver's fields |
| `ReceivePort.Port.Accept` | src/isr.c:639-668 | the stream grows by the longest prefix of the payload that leaves the usage within the cap, and the newest pending frame, unless streaming, is charged exactly the rest |
| `ReceivePort.Port.ReceivedData` | src/isr.c:595-673 | a packet with a consistent length header appends its word-swapped payload as one machine step and asks for the count; any other packet changes nothing |
| `ReceivePort.Port.GetInputMemoryUsage` | src/port.c:1227-1246 | the sum of the two estimates and the stream, modulo 2^32 |
| `ReceivePort.Port.MaxFrameLength` | src/isr.c:180-189 | the longest frame taken, with the source's wrapping sums, for all four settings |
| `ReceivePort.Port.FrameRead` | src/isr.c:171-223 | the read loop writes exactly the packed frames at the start of the buffer, leaves the rest of the buffer and of the queue alone, reports success if and only if it wrote something, and is the machine's read step for the frames taken |
| `Transmit.WriteThrottle` | src/isr.c:328-333 | in every run writes in flight plus a send not yet counted equal outstanding writes plus failed sends, and outstanding writes plus failed sends stay within the maximum plus the number of workers (one) |
| `Transmit.ThrottleLetsOneMoreThrough` | src/isr.c:367-367 | with the maximum outstanding, one more write still goes out |
| `Transmit.ThrottleBoundReached` | src/isr.c:367-367 | from the beginning, a run without completions reaches the maximum and one more |
| `Transmit.FailuresStall` | src/isr.c:322-333 | once more sends than the maximum have failed, no run sends a byte any more |
| `Transmit.StallIsReached` | src/isr.c:322-333 | from the beginning, after any one write the cap admits, a run reaches that state with the data still waiting |
| `Transmit.ThrottleOpens` | src/isr.c:367-367 | with nothing outstanding and no worker at work the throttle is open if and only if no more sends than the maximum have failed |
| `Transmit.StallExactly` | src/isr.c:322-367 | in every reachable state with data to send and no worker at work, some continuation sends a chunk if and only if no more sends than the maximum have failed |
| `Transmit.NeverUndercounts` | src/port.c:1209-1225 | the queue's sample plus the pending frame's later sample is never below the bytes held |
| `Transmit.OutputCap` | src/isr.c:72-75 | in every run, with workers moving and draining frames between the two samples, the bytes held for transmission never exceed the cap |
| `Transmit.ChunkSizesBounded` | src/isr.c:246-257 | a frame of length L takes ceil(L/4092) chunks, each a positive multiple of four of at most 4092 bytes |
| `Transmit.ChunkingPreservesData` | src/isr.c:237-271 | in every run frames keep the order of the writes; a complete frame went out in chunks of the reference lengths whose bytes are the written buffer and its padding, an incomplete one has sent a prefix and still holds the rest; each announcement of its length has its place, one with the first chunk and one for each failed attempt before it |
| `Transmit.AnnouncedOften` | src/isr.c:259-262 | in every run a frame's size is announced once for each attempt that failed before its first chunk, and once with that chunk |
| `Transmit.SingleChunk` | src/isr.c:246-257 | a frame of at most one chunk is sent whole and padded with zeros |
| `Transmit.LaterPaddingIsStale` | src/frame.c:196-205 | in every run, for frames of any length: a frame of more than one chunk is padded with its own bytes from one chunk before its end, and padding is zero if and only if there was one chunk or those bytes are zero |
| `TransmitPort.Port.EvtIoWrite` | src/isr.c:59-99 | a write is queued as a frame if and only if the sampled usage plus its length is within the cap; otherwise nothing changes |
| `TransmitPort.Port.GetOutputMemoryUsage` | src/port.c:1209-1225 | the queue's estimate plus the pending frame's length |
| `TransmitPort.Port.TxCompletion` | src/isr.c:576-593 | one write less in flight |
| `TransmitPort.Port.DataWrite` | src/isr.c:273-339 | the bytes go out only if the send succeeds, but a failed send is counted all the same |
| `TransmitPort.Port.PrepareFrameForFifo` | src/isr.c:237-271 | sends the next chunk of whole words from inside the buffer, removes it if that succeeded, announces the frame's size if nothing of it had been sent, asks for the FIFO's count, and says whether data is left |
| `TransmitPort.Port.OframeWorker` | src/isr.c:360-398 | one turn of the worker is the machine's check, send and finish; its requests end with the transmit command, all requests so far are what the machine's histories record as sent, and it runs again if and only if it was let through and found data |
| `TransmitPort.CommandBits` | src/isr.c:225-235 | the transmit command has its start bit and one bit for each modifier set, and no other |
| `TransmitPort.HandedTurn` | src/isr.c:237-271 | the requests of one turn hand to the bus exactly the chunk and the announcement the machine records for it |
| `TransmitBus.BusCarriesData` | src/isr.c:237-271 | in every run the bytes of all requests to the data pipe are the written buffers in order, each with its padding, and of a frame still being sent the bytes its frame no longer holds |
| `TransmitBus.BusChunksFit` | src/isr.c:246-257 | in every run each request to the data pipe is a positive multiple of four of at most 4092 bytes |
| `TransmitBus.BusAnnounces` | src/isr.c:261-262 | in every run the values written to the length register are the frames' sizes in order, each once per failure before its first chunk and once with that chunk |
| `TransmitBus.BusAnnouncesOnce` | src/isr.c:261-262 | in every run without failures they are the lengths of the written buffers of which a chunk was sent, in order and each once |
| `OutputDivider.Schedule` | lib/raw/calculate-clock-bits.c:410-416 | the dividers the loop visits are exactly 2 to 5 and N * 2^z with N from 6 to 1029 and z at most 3 |
| `OutputDivider.NextOnGrid` | lib/raw/calculate-clock-bits.c:410-416 | each step goes to the next smaller such divider and skips none |
| `OutputDivider.EncoderFindsMatch` | lib/raw/calculate-clock-bits.c:831-944 | every visited divider above 37 solves one of the encoder's eight equations for an index below 512 |
| `ClockSearch.StartFitsInt` | lib/raw/calculate-clock-bits.c:201-209 | for every request the starting point fits an `int`; it is negative exactly when the error exceeds the target, becomes the minimum between -1 and 0, and the maximum at -1 and below |
| `ClockSearch.NegativeStart` | lib/raw/calculate-clock-bits.c:201-209 | a divider that is close enough is skipped if and only if the starting point is at most -1 and the divider is not the maximum |
| `ClockSearch.StartSkips` | lib/raw/calculate-clock-bits.c:186-209 | a request for which a close divider is skipped; the chip would not accept it |
| `ClockSearch.StartLosesNothing` | lib/raw/calculate-clock-bits.c:200-240 | for every request, each VCO divider in range that the chip accepts and whose frequency is close enough is at or above the starting point |
| `ClockSearch.LowestFrequency` | lib/raw/calculate-clock-bits.c:214-246 | a tuning within the VCO band makes at least 10 kHz |
| `ClockSearch.FindFilter` | lib/raw/calculate-clock-bits.c:256-406 | finds the first resistor and current whose loop filter is acceptable, or reports that there is none |
| `ClockSearch.Search` | lib/raw/calculate-clock-bits.c:183-430 | for every request that can end: gives up if and only if no tuning at all works for any error up to the request; else returns the least ppm that has one and, of its tunings, the first in the order tried |
| `ClockSearch.FilterLimits` | lib/raw/calculate-clock-bits.c:375-390 | the test on the rounded ratio and the damping factor means exactly 6.9 <= ratio < 30 and 0.04 <= damping squared <= 4 |
| `ClockSearch.ResultValid` | lib/raw/calculate-clock-bits.c:188-404 | a returned tuning satisfies the phase detector range, the VCO band of its divider in numbers, the frequency error bound, and the filter limits |
| `ClockLimits.BandExactly` | lib/raw/calculate-clock-bits.c:214-244 | the VCO test passes if and only if 24 MHz * V / R is from 90 MHz up to 540 MHz for divider 2, 720 MHz for 3, 570 MHz for 38 to 1029, and 730 MHz for all others |
| `ClockLimits.WorksExactly` | lib/raw/calculate-clock-bits.c:188-404 | a tuning works if and only if it meets the ranges, the detector and VCO bands, the error bound with its product cut to 32 bits, and the filter limits, all stated as inequalities of whole numbers over tables of resistors and currents |
| `ClockLimits.GivesUpExactly` | lib/raw/calculate-clock-bits.c:422-430 | no tuning works at any error below a limit if and only if none meets those inequalities |
| `ClockLimits.BestExactly` | lib/raw/calculate-clock-bits.c:183-430 | the tuning found is the one of the lowest rank (R up, output divider down, V, resistor, current up) among those that meet the inequalities at the least ppm that has one |
| `ClockLimits.HighestFrequency` | lib/raw/calculate-clock-bits.c:214-250 | a tuning that works makes at most 270 MHz |
| `ClockLimits.NothingAbove` | lib/raw/calculate-clock-bits.c:186-250 | for a target from 270004295 Hz up no tuning works, whatever error is allowed |
| `ClockWord.WordRoundTrip` | lib/raw/calculate-clock-bits.c:576-577 | a number that fits in k bits survives as a machine word |
| `ClockWord.OppositeValue` | lib/raw/calculate-clock-bits.c:569-570 | the complement of a k-bit number is 2^k - 1 minus it |
| `ClockWord.SetRefDivider` | lib/raw/calculate-clock-bits.c:551-593 | any reference divider from 1 to 2055 is read back from bytes 0 and 1 in its format, and the bits of the next field stay clear; any other is refused |
| `ClockWord.SetVcoDivider` | lib/raw/calculate-clock-bits.c:595-605 | any VCO divider from 12 to 2055 is read back from bytes 1 and 2, and the reference divider's bits are kept; any other is refused |
| `ClockWord.SetLoopResistor` | lib/raw/calculate-clock-bits.c:607-627 | each of the four resistors is read back and the other bits of byte 11 are kept |
| `ClockWord.SetPumpCurrent` | lib/raw/calculate-clock-bits.c:630-769 | each of the twenty currents is read back as 125 * (8 - c) times one to four from five bits in three bytes, whose other bits are kept |
| `ClockWord.PumpFormula` | lib/raw/calculate-clock-bits.c:634-769 | the current is 125 * (8 - c) * (1 + m), c from byte 11 bits 3 to 5 and m from byte 15 bit 7 plus twice byte 16 bit 0 |
| `ClockWord.LongBytes` | lib/raw/calculate-clock-bits.c:831-944 | the search for a divider above 37 leaves its code if it is visited by the search, else the code of 7 |
| `ClockWord.SetOutDivider` | lib/raw/calculate-clock-bits.c:772-949 | every divider the search visits is read back from its format in bytes 11 to 13, whose other bits are kept |
| `ClockWord.Encode` | lib/raw/calculate-clock-bits.c:510-956 | reports the first table whose number is out of range; else the 20 bytes decode to all five numbers and the fixed bits are as the chip needs them |
| `ClockFields.RefDividerBits` | lib/raw/calculate-clock-bits.c:551-593 | the input divider in terms of bits 0 to 12 of the word, in its three forms |
| `ClockFields.VcoDividerBits` | lib/raw/calculate-clock-bits.c:595-605 | the VCO divider is eight plus the number in bits 13 to 23 |
| `ClockFields.FilterBits` | lib/raw/calculate-clock-bits.c:607-769 | the resistor in terms of bits 89 and 90, and the current in terms of bits 91 to 93, 127 and 128 |
| `ClockFields.OutDividerBits` | lib/raw/calculate-clock-bits.c:772-949 | the output divider in terms of bits 95 to 109, in its five forms |
| `ClockBits.GetData` | lib/raw/calculate-clock-bits.c:151-956 | search and encoder together return only 0 or 2: 2 if and only if nothing works for any error up to the request, else a word that decodes to the first working tuning at the least error |
| `ClockBits.CalculateClockBits` | lib/raw/calculate-clock-bits.c:52-135 | the caller's bytes are such a word, or unchanged when there is none |
| `ClockBits.ProducedWithinRequest` | lib/raw/calculate-clock-bits.c:246-253 | the frequency programmed by the decoded word is within the requested error of the target |
| `ClockBits.ProgrammedFrequency` | src/port.c:438-462 | after the writes for such a word the chip has latched one word of 160 bits, which programs a frequency within the requested error |
| `ClockPins.WordRoundTrip` | src/port.c:440-442 | the bits sent, shifted in again, are the word |
| `ClockPins.ScriptSeen` | src/port.c:439-457 | replaying the writes from any state of the pins, the chip latches exactly the bits, once; the data pin holds each bit at both clock edges; the rising edges are exactly as many as the bits if and only if the FCR value found had the clock pin low |
| `ClockPins.ScriptKeeps` | src/port.c:439-457 | no write touches a bit outside the pins, and the last write is the FCR value found |
| `ClockPins.ScriptValues` | src/port.c:411-457 | the 323 values one by one: the cached value masked with 0xfffff0f0; for each of the 160 bits, last byte and highest bit first, that value with bit 1 set and then clear, both with the bit in bit 0; that value with bit 3; the cached value |
| `ClockPins.SetClockBits` | src/port.c:414-461 | the nested loops fill exactly 323 words with that script for the caller's word with the crystal selected |
| `ClockPins.ChipGetsWord` | src/port.c:426-457 | for every word, every FCR value found and every state of the pins, the one word latched programs what the caller's word programs |
| `ClockUpdate.SetClockBits` | src/port.c:438-458 | the driver issues the script for the cached FCR value as writes to FCR, in order |
| `ClockUpdate.LastValue` | src/port.c:457-457 | the last of the 323 values is the cached one, as 32 bits |
| `ClockUpdate.UpdateAtRest` | src/port.c:438-458 | after a clock update begun with nothing outstanding the cache holds what it held and the board the same as 32 bits; they agree if and only if the cached value is one FCR can hold |
| `ClockUpdate.UpdateBeforeFirstRead` | src/device.c:781-787 | in the driver's first state, with nothing read back, a clock update sets all bits of FCR in the board while the cache stays at -1 |
| `ClockUpdate.UpdateReachesChip` | src/port.c:438-458 | from every state, the writes of a clock update reach the board as the script, in order, behind everything issued before and uninterrupted; whatever FCR then holds, the chip latches one word of 160 bits, which programs what the caller's word programs |
| `Registers.BigEndian` | src/defines.h:71-71 | a swapped value lies in memory most significant byte first, and swapping twice is nothing |
| `Registers.PacketBytes` | src/port.c:779-788 | write commands are 0x6A, offset, twice the address, and the value most significant byte first; read commands 0x6C, offset and twice the address; answers are laid out likewise |
| `Registers.ReceivedValue` | src/isr.c:471-475 | four received bytes are the number whose most significant byte came first |
| `Registers.CommandRoundTrip` | src/port.c:779-788 | the board parses every command packet back to the command |
| `Registers.ResponseRoundTrip` | src/isr.c:471-499 | the completion routine stores from an answer packet exactly the key and value answered |
| `Registers.StoredSlot` | src/isr.c:498-499 | an answer changes the cache of exactly its own register, CCR1 and FCR never mix, and DPLLR's is never changed |
| `Registers.StepKeepsInv` | src/port.c:753-881 | every step keeps: what the pipes would settle to is what the commands issued so far do when each takes effect at once |
| `Registers.Refines` | src/isr.c:471-499 | in every run the pipeline does what a machine without pipes does: once nothing is outstanding, registers and cache are as if each command had taken effect when issued |
| `Registers.TakenInOrder` | src/port.c:797-803 | in every run the device takes the commands in the order issued, and has taken all of them once the pipe is empty |
| `Registers.Coherent` | src/isr.c:471-499 | once nothing is outstanding every register holds the value last written, and its cache the same if it was read after that; DPLLR's cache is as at the start |
| `Registers.SetReadsBack` | src/port.c:520-534 | setting the registers writes exactly those with a value that is not negative and reads each back; the others keep their last written value and their state |
| `Registers.SetCommandsExactly` | src/port.c:520-534 | each of the 24 registers gets exactly one write if its value is not negative and it is not one of the five read-only ones, followed by exactly one read unless it is CMDR, and nothing otherwise |
| `Registers.SetInOrder` | src/port.c:524-524 | registers are set in the order of their slots |
| `Registers.SetCommandsProper` | src/utils.c:30-43 | no read-only register is ever written |
| `Registers.SetRegistersCoherent` | src/port.c:520-534 | after any history, once nothing is outstanding, each register set holds its new value in the board and, but for DPLLR, in the cache |
| `Registers.GetReadsBack` | src/port.c:825-836 | getting the registers writes nothing and reads back exactly the marked registers other than FCR |
| `Registers.GetCommandsExactly` | src/port.c:825-836 | each slot marked with -2, CMDR apart, is read exactly once at its place in the lower space, and FCR's own address never |
| `Registers.ClockUpdateCoherent` | src/port.c:438-458 | from every state, a clock update leaves in the board the cached FCR as 32 bits, and FCR coherent if and only if that is the value the cache settles to |
| `Registers.ClockUpdateChecked` | src/port.c:438-458 | with no read of FCR under way, a clock update leaves FCR coherent if and only if the cached value is from 0 to 2^32 - 1 |
| `Registers.CanDrain` | src/isr.c:471-499 | from every state the pipes can drain without another call |
| `Registers.ClockUpdateTooEarly` | src/port.c:438-458 | a history in which a clock update would begin with an outdated cached FCR |
| `RegisterPort.Driver.SetRegisterAsync` | src/port.c:753-807 | sends the seven bytes of a write command |
| `RegisterPort.Driver.GetRegisterAsync` | src/port.c:838-923 | sends the three bytes of a read command |
| `RegisterPort.Driver.SetRegisterRep` | src/port.c:809-823 | sends the values in order as writes to one register |
| `RegisterPort.Driver.SetRegisters` | src/port.c:520-534 | the loop issues exactly the commands that `Registers.SetCommandsExactly` and `Registers.SetInOrder` describe |
| `RegisterPort.Driver.GetRegisters` | src/port.c:825-836 | fills exactly the marked registers, CMDR apart, from the cache and issues their reads |
| `RegisterPort.Driver.RegisterCompletion` | src/isr.c:446-500 | an answer of six bytes is the machine's completion step; four and two bytes update only the nonvolatile word and the firmware revision |

## Left out

- The USB and framework plumbing (requests, memory objects, DPCs, timers, power and Plug and Play): only enqueue, send and complete remain, as steps. When a DPC runs is not modelled, so nothing is said about when the workers are scheduled.
- Allocation failures; every allocation succeeds.
- The IOCTL dispatcher, the setters and getters of single settings (including the memory cap, which is a fixed parameter), registry defaults, port numbers, firmware programming, and the requests for nonvolatile and firmware words: branches without state of their own.
- Purging (`RRES` and `TRES`, `src/port.c:1089-1175`): it resets the board without resetting the pending count, so it is not part of the handshake's runs.
- User reads and writes of the reserved register slots 0 and 1, which are the board's FIFOs, in the handshake's runs.
- `synccom_port_stream_read` (`src/isr.c:159-169`): it is one call of `Frames.Frame.RemoveData` on the stream.
- `synccom_port_execute_transmit` is in `TransmitPort` only as the command value it writes.
- Wall-clock times: a timestamp is an arbitrary eight-byte value.
- Rounding of doubles in the clock search: they are exact reals, and the damping factor is compared squared instead of taking a square root. The product of ppm and target is computed modulo 2^32 as the code does.
- Packing.Greedy: it is about the reads that take only frames that can be rendered, which `Packing.InBoundsExactly` shows to be exactly those that stay in their buffer; what a write outside it does is not modelled.
- ReceivePort.Port.FrameRead: it is about the same reads.
- ReceivePort.Port.IframeWorker: the stream, and each pending frame with the stream added, are at most 2^32 - 4 bytes long, as for `Frames.Frame.CopyData`.
- Receive.InputDriftBound: fewer than 2^32 bytes less the cap have vanished, and an unfinished frame stays below its size, which only a wrapped loss counter can change; beyond that the estimate's own wrap-around would have to be followed.
- Frames.Frame.UpdateBufferSize: sizes above 2^32 - 4, for which rounding up wraps to zero and the source copies into a buffer of no bytes; there is no memory in the model for that to overwrite.
- Frames.Frame.AddData: lengths whose sum exceeds 2^32 - 4, for the same reason.
- Frames.Frame.CopyData: lengths whose sum after the copy exceeds 2^32 - 4, for the same reason.
- ReceivePort.Port.ReceivedData: the transfer buffer holds an even number of bytes, because the swap loop touches one byte more than an odd length; the packet is one atomic step.
- Buffers of frames are sequence fields, and the linked lists are sequences of frame objects: aliasing of the underlying memory and the link fields are not captured. Frame objects themselves are shared references.
- Registers.Refines: requests that fail on the bus are not part of these runs, and answers of registers that hold no plain value (FIFOs, status, command) are arbitrary.
- ClockUpdate.SetClockBits: writes of another thread to FCR in the middle of the script are not modelled.
- The signals of the board's serial side, its own FIFO limits beyond the 1023 the count can show, and the big-endian branches of the code.
