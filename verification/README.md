# Verified model of the gcnrecomp hardware core

gcnrecomp runs recompiled GameCube code against models of the console's
devices. This project models the parts of it whose correctness is decided by
code alone, and proves what they promise. What a member computes is stated a second
time in terms that do not use it: bit positions as fields placed side by side, byte
order as numbers spelled out (`BigEndian`), registers as numbered locations.

**The GX command path.** `GxDecode` is the command decoder: sizes, register
loads, display lists, draws sized by the live vertex formats. `GxRegisters`,
`GxVertexLayout` and `GxEncoding` say what its loads leave behind, where the formats
keep their fields, and that a stream spelled out is taken back command by command.
`GxTickLaws` says what one tick takes. `GxStream` shows
that where a byte stream is cut does not matter. `GxScanner` is the scanner that
sizes the same stream without the decoder's registers. `CommandFifo`, `GxSync`
and `GxPipeline` are the FIFO, the synchronous consumer and the pipelined one: a
system in which every access of either thread to a shared variable is one step.
`GxPipelineInv` and `GxPipelineSteps` are its invariant, `GxPipelineRefines` and
`GxPipelineTheorems` its refinement of the synchronous consumer,
`GxPipelineLive` and `GxTickBound` the absence of deadlock, livelock and missed
wakes. `GxUnsafeResume` is a finding with its exact condition; `GxDisplayLists`, `GxTickPlan`, `GxRingPressure`,
`GxListLag` and `GxLaggingRuns` are another: what a list says, what a tick will take
and drives the worker through, how every schedule comes along with it, and the
schedules in which the pixel engine lags. `GatherPipe`,
`Conservation` and `EndToEnd` carry the byte stream from the CPU store to
execution. `GxDevice`, `ScanDevice`, `CpDevice` and `GatherPipe.Pipe` are the
same operations as objects with buffers and registers updated in place.

**The rest.** `DspBatch*`, `DspLosses`, `DspAccesses`, `DspDevice`: DSP cycle
batching and its worker.
`Mmio*`: the trace comparison that resynchronises over polls. `AotCache`: content
verification of native chunks. `Disc*`: the disc drive and its read-ahead window.
`PpcEncoding`, `Assembler`: the two-pass assembler. `OfflineDecoder`: the offline
FIFO decoder. `ExiSram`, `AudioClock`, `Clocks`, `ClockDevices`: ROM,
clock and SRAM transactions and the clocks that carry remainders.

## Reading the model

- The two threads of the pipeline, and of the DSP, interleave in sequentially
  consistent steps. A label `Guest` lets the guest leave the FIFO registers and
  RAM in any state between ticks; `GiveUp`, `Spurious` and `Timeout` are the
  worker deciding to park and sleeps that end by themselves.
- One run of the decoder over the staged bytes, and one copy into or out of the
  ring, is one step: only the thread that owns those bytes reads or writes them
  (`GxPipelineTheorems.CpuOwnsDecoderAlone`, `GxPipelineSteps.CopyKeepsInv`).
- The decoder's log has one entry per top-level command, a run of NOP bytes
  counting one command a byte: NOP runs may be cut differently by the two
  consumers, and only then are their logs comparable.
- Guest memory read by display lists, indexed loads and palettes (`mem`) is
  fixed. Draws and EFB copies are opaque effects in order.
- The cast of a count to int keeps its low 32 bits, read in two's complement.
- The 64-bit stream offsets and the 32-bit epoch of the pipeline are unbounded.
- A core call that a halted core answers at once counts as run: its cycles are spared
  on purpose.
- Combining non-overlapping instruction fields is written as a sum.
- The floating-point seek, rotation and transfer times of the drive are arbitrary
  functions.

## Findings

- A pixel-engine write inside a display list raises no fence, since the scanner
  does not look into lists. Such a signal can arrive after its tick
  (`GxDisplayLists.FinishLagsFromReset`), exactly when a list called behind the
  bytes that the tick's last fence, or a full ring, forces through the decoder writes
  to the pixel engine (`GxLaggingRuns.PixelEngineAgreesIff`). The comment at
  runtime/src/gx.c:1906-1950 promises the same tick for fences; the model follows
  the code, and `FencesLandInTheirTick` is about top-level writes.
- With the unsafe resume gate the scanner overflows; the gate in force refuses
  exactly the leftovers that would (`GxUnsafeResume`).
- DSP cycles are lost although runtime/src/dsp.c:268-271 says the total is the
  same wherever flushes land. The core call casts to int, so a call of 2^31 cycles
  or more runs nothing: one tick of 0x8000_0004 with the default cap is enough
  (`DspBatchProofs.CastLosesCycles`), and the debt itself wraps at 2^32. With no
  worker, cap and largest tick must total at most 0x8000_0004
  (`DspLosses.StaticBound`); with one, backlog counts too
  (`DspLosses.TickIsSafeExactly`) and no cap or bound on the ticks rules the loss
  out while the worker may stand still (`DspLosses.NoStaticBound`).
- The DSP and the decrementer are handed 32-bit charges. A block of 2^32 core cycles
  at the default ratio charges the DSP nothing (`Clocks.LongBlockStarvesDsp`); over a
  run the loss is nil exactly when no block's charge passes 32 bits
  (`Clocks.RunLosesNothing`). The 64-bit time base has no such limit
  (`Clocks.TimeBaseIsExact`).
- The strict comparison of traces reports a full match when one trace is a proper
  prefix of the other, even if the rest holds writes
  (`MmioResync.StrictMissesTheTail`).
- The read-idle status bit is also set when the FIFO ring is exactly full
  (`EndToEnd.ReadIdleExactly`, `EndToEnd.FullLooksIdle`).
- The offline decoder parts from the runtime in two ways. It steps over a non-empty
  draw whose vertices have size zero, where the runtime stops
  (`OfflineDecoder.ZeroSizeDrawsDiffer`); and without a memory span it does not see
  into display lists, so one that changes the vertex formats makes it size later
  draws differently (`OfflineDecoder.ListsPart`). `OfflineDecoder.SameBoundaries` is
  the exact condition, and `OfflineDecoder.SameUnlessZeroSize` the one that formats
  and stream decide when no list changes formats.
- Two decrementer ticks that total more than 2^31 are not additive in every state:
  taken at once they can miss the interrupt that one of them raises
  (`Clocks.DecSplits`, `Clocks.DecSplitBound`).

## Model

| member | source | states |
|---|---|---|
| `GxStream.SizeStable` | runtime/src/gx.c:1635-1765 | a whole command other than a NOP run keeps its size whatever bytes follow it |
| `GxStream.NopPeel` | runtime/src/gx.c:1642-1649 | a run of NOPs executes, logs and is consumed like its NOPs one at a time, so a cut inside a run does not matter |
| `GxStream.DecodeInPieces` | runtime/src/gx.c:1845-1859 | running the decoder on a piece and then on its leftover with the next piece appended equals one run on the whole, draws being sized by the vertex formats live at each point |
| `GxStream.LeftoverInPieces` | runtime/src/gx.c:2016-2042 | the staging leftover after two pieces is the leftover of the whole stream |
| `GxStream.LeftoverIsPartial` | runtime/src/gx.c:2031-2042 | what a run leaves in staging holds no further whole command |
| `GxStream.LogIsTheBytesTaken` | runtime/src/gx.c:1845-1859 | the commands executed by a top-level run, end to end, are exactly the bytes it took |
| `GxStream.RunExtends` | runtime/src/gx.c:1845-1859 | decoding only adds to the executed commands, pixel-engine events and renderer work, display lists included |
| `GxRegisters.BpLoad` | runtime/src/gx.c:1508-1541 | a masked BP load changes the named register bit by bit as the mask allows, changes no other register, and spends the one-shot mask |
| `GxRegisters.CpLoad` | runtime/src/gx.c:1209-1236 | read over write: after a CP load every number under which the register is known holds the value cut to its width, every other register is unchanged, numbers outside 0x30 to 0xBF store nothing |
| `GxRegisters.HeldIsAll` | runtime/src/gx.c:1209-1236 | the numbered registers are all of the CP state |
| `GxRegisters.CpLoadsCommute` | runtime/src/gx.c:1209-1236 | loads of different registers commute; of two loads of one the second wins |
| `GxRegisters.XfLoad` | runtime/src/gx.c:1395-1414 | XF words land at consecutive addresses, words past the end are dropped, nothing else changes |
| `GxRegisters.BpSays` | runtime/src/gx.c:1508-1583 | a BP load tells the pixel engine one token for 0x47 and 0x48, with the interrupt for 0x48 alone, each of its bits the new one where the mask has a one and the old register's elsewhere; the finish for 0x45 exactly if the masked low byte is 2; nothing for any other register |
| `GxRegisters.BpDoes` | runtime/src/gx.c:1584-1625 | a load of 0x52 copies the frame buffer; one of 0x65 a palette whose place, size and source are told by bit positions, if it lies in memory; no other load does either |
| `GxVertexLayout.PlacedVertexSize` | runtime/src/gx.c:1152-1205 | with the fields of descriptor and attribute tables placed side by side in the five registers, a vertex has the size of its attributes, each told from its own kind, format and elements, whatever the fields beside them hold |
| `GxVertexLayout.EveryVertexSize` | runtime/src/gx.c:1187-1205 | and that is so of every state of the registers |
| `GxVertexLayout.LoadedFormats` | runtime/src/gx.c:1210-1236 | loads of 0x50, 0x60, 0x70, 0x80 and 0x90 size the vertices drawn afterwards by the fields placed in the words loaded |
| `GxVertexLayout.NoSuchColour` | runtime/src/gx.c:1133-1142 | a direct colour of a format that does not exist takes no bytes, an indexed one takes its index |
| `GxEncoding.EncodedSize` | runtime/src/gx.c:1635-1765 | a command spelled out byte by byte has the size of its spelling in front of any stream, and no proper front of it is whole |
| `GxEncoding.EncodedMeans` | runtime/src/gx.c:1635-1841 | the decoder does with the spelling of a command what its fields say: registers, words, array slots, blocks of a list, primitive and formats of a draw |
| `GxEncoding.StreamRoundTrip` | runtime/src/gx.c:1845-1859 | a stream of commands, spelled out, is executed command by command, each as its fields say, and to its last byte |
| `GxEncoding.LoadedArrays` | runtime/src/gx.c:1417-1463 | an indexed load fetches its big-endian words through base and stride as loads of 0xAC to 0xAF and 0xBC to 0xBF have left them |
| `BigEndian.ReadBack` | runtime/src/gx.c:1081-1089 | a number spelled in two, three or four bytes in front of a stream is read back |
| `GxTickLaws.TickTakes` | runtime/src/gx.c:1952-2043 | a tick takes whole chunks from the read pointer on, none of them at an enabled breakpoint, at most 32, and stops short of that only at too small a distance, a breakpoint, a pointer outside memory or full staging; registers, memory, decoder and staging are then those so many chunks further; with reading disabled nothing happens |
| `GxTickLaws.CommandIdleIsIdle` | runtime/src/cp.c:66-82 | a tick that finds the command-idle bit set takes nothing |
| `GxTickLaws.NotIdleTakes` | runtime/src/cp.c:66-82 | one that finds it clear takes a chunk, if distance and pointer are as they should be |
| `GxScanner.ScanAgrees` | runtime/src/gx.c:850-889 | every command the scanner sizes has that size for the decoder, whatever the registers hold; where it waits, the decoder waits |
| `GxScanner.ScanFollowsRun` | runtime/src/gx.c:846-889 | up to its first draw a stream is consumed by exactly as many bytes in the scanner as in the decoder |
| `GxScanner.ScanInPieces` | runtime/src/gx.c:893-945 | scanning chunk by chunk through the carry finds the same commands, the same draw and the same fences as one scan of the stream |
| `GxScanner.ScanLeftover` | runtime/src/gx.c:895-899 | the carry left by a scan without a draw is a partial command of at most 68 bytes |
| `GxScanner.FenceIsLast` | runtime/src/gx.c:914-938 | the offset returned is the greatest fence end, and is 0 exactly when there is no fence |
| `GxScanner.FencesAreNew` | runtime/src/gx.c:893-945 | behind a partial command every fence found ends in the new bytes |
| `GxScanner.NoFenceNoWrite` | runtime/src/gx.c:874-883 | executing a stretch in which no fence is noted performs no top-level write to registers 0x45, 0x47, 0x48 |
| `GxScanner.EntriesFences` | runtime/src/gx.c:874-883 | a command is marked as a fence exactly if it is such a write |
| `GxPipelineSteps.StepKeepsInv` | runtime/src/gx.c:823-1078 | every atomic step of the producer or the worker, and anything the guest does between ticks, keeps the pipeline invariant |
| `GxPipelineSteps.PushKeepsInv` | runtime/src/gx.c:893-945 | scanning a sizable chunk keeps the carry equal to the decoder's future leftover and puts its fences behind everything retired |
| `GxPipelineSteps.PoisonKeepsInv` | runtime/src/gx.c:1927-1934 | a chunk with a draw is neither pushed nor consumed; the synchronous loop takes over from exactly there |
| `GxPipelineSteps.SpaceReachedKeepsInv` | runtime/src/gx.c:823-831 | waiting on the published, possibly stale, retired offset still leaves room in the ring for the chunk |
| `GxPipelineSteps.CopyKeepsInv` | runtime/src/gx.c:829 | a chunk never wraps in the ring and overwrites no byte the worker has not pulled |
| `GxPipelineSteps.PullFits` | runtime/src/gx.c:972-999 | the worker always finds room in staging for at least one chunk, takes whole chunks and never past what it saw published |
| `GxPipelineSteps.FenceReachedKeepsInv` | runtime/src/gx.c:1940-1941 | when the awaited fence is retired no fence of the bytes taken is still to be executed |
| `GxPipelineSteps.HandoffReachedKeepsInv` | runtime/src/gx.c:1031-1042 | the handoff to synchronous mode leaves the worker idle with everything published processed |
| `GxPipelineSteps.ResumeKeepsInv` | runtime/src/gx.c:1044-1078 | re-seeding the scanner with the staging leftover makes its offsets agree again with the worker's |
| `GxPipelineRefines.StepRefines` | runtime/src/gx.c:1879-2047 | each step of the pipeline is a step of the synchronous consumer or leaves what that consumer will do unchanged |
| `GxPipelineRefines.PublishRefines` | runtime/src/gx.c:823-834 | publishing a chunk is the synchronous execution of it |
| `GxPipelineRefines.RunRefines` | runtime/src/gx.c:1879-2047 | over every run, any interleaving, the pipeline's outcome is the synchronous consumer's |
| `GxPipelineTheorems.ExecutedIsPrefix` | runtime/src/gx.c:1906-1950 | at every moment what the pipeline has executed is a prefix of what the synchronous consumer executes: commands, pixel-engine events, renderer work |
| `GxPipelineTheorems.GuestSeesSync` | runtime/src/gx.c:1901-1905 | after every tick read pointer, distance, flags, interrupt line and RAM are the synchronous ones |
| `GxPipelineTheorems.DrainedEqualsSync` | runtime/src/gx.c:660-682 | once everything published is processed the decoder and the staging buffer are the synchronous ones |
| `GxPipelineTheorems.JoinDrains` | runtime/src/gx.c:660-682 | a full join returns only with everything published processed and the worker out of the decoder |
| `GxPipelineTheorems.FencesLandInTheirTick` | runtime/src/gx.c:1906-1950 | when a tick returns, every top-level pixel-engine write in the bytes taken has been executed, for any number of fences and on the mid-tick fallback too |
| `GxPipelineTheorems.FencesAreAwaited` | runtime/src/gx.c:914-945 | a fence offset is positive, beyond the published retired offset while not executed, and covered by the fence the tick awaits |
| `GxPipelineTheorems.CpuOwnsDecoderAlone` | runtime/src/gx.c:1024-1042 | the CPU touches decoder and staging only with the worker idle and done equal to produced |
| `GxPipelineTheorems.CarryIsLeftover` | runtime/src/gx.c:1044-1078 | whenever the worker has caught up outside synchronous mode the carry is the staging leftover byte for byte and its offset is produced minus its length |
| `GxPipelineTheorems.NeverFails` | runtime/src/gx.c:895-910 | no reachable state has a failed worker, and with the resume gate in force none has an overflowed scanner |
| `GxPipelineTheorems.OverflowExactly` | runtime/src/gx.c:897-910 | a chunk overflows the carry exactly if executing what is published leaves more than 96 bytes of a partial command |
| `GxPipelineLive.WaitIsBounded` | runtime/src/gx.c:643-682 | under any schedule, while a wait is unserved the worker has a step, and it takes a bounded number of them: ring space, fence, handoff and join all come |
| `GxPipelineLive.CaughtUpServes` | runtime/src/gx.c:643-682 | a worker that has caught up serves every wait, although the retired offset can be stale after a resume |
| `GxPipelineLive.SleeperIsWoken` | runtime/src/gx.c:832-834 | the epoch and parked handshake never leaves the worker asleep with bytes in the ring |
| `GxPipelineLive.ServedSleeperIsWoken` | runtime/src/gx.c:1011-1021 | a CPU asleep in a wait that is served is woken by the worker, without the timeout |
| `GxPipelineLive.TickReturns` | runtime/src/gx.c:1879-2047 | from every reachable state the two threads' own steps return control to the guest |
| `GxTickBound.TickIsBounded` | runtime/src/gx.c:1879-2047 | under every schedule of the two threads, whatever sleeps end early, the CPU steps outside unserved waits and the steps of a worker that is behind are bounded until the guest acts again: no livelock |
| `GxTickBound.NeverStuck` | runtime/src/gx.c:643-682 | and until control is back one of these can be taken, at once or, in a wait already served, after at most four steps |
| `GxPipelineLive.TailNeverRetires` | runtime/src/gx.c:660-667 | with a partial command staged and nothing left to do, done has arrived and retired has not: a full drain must watch done |
| `GxUnsafeResume.ResumePoisonsExactly` | runtime/include/gx/gx.h:71-80 | a leftover that the gate lets through overflows at the next chunk if and only if it is longer than 96 bytes |
| `GxUnsafeResume.UnsafeGatePoisons` | runtime/src/gx.c:1051-1060 | the unsafe gate has a run that loses the pipeline for good |
| `GxDisplayLists.ListSays` | runtime/src/gx.c:1693-1742 | running a list tells the pixel engine something if and only if one of its commands is a write to 0x47 or 0x48, or one to 0x45 that leaves its masked low byte 2 |
| `GxDisplayLists.StretchSays` | runtime/src/gx.c:1693-1742 | a stretch of stream without draws and fences tells it something if and only if a list it calls does |
| `GxDisplayLists.MergeLow` | runtime/src/gx.c:1517-1519 | the low bits of a masked write are the masked write of the low bits |
| `GxTickPlan.PlanFacts` | runtime/src/gx.c:1906-1950 | what a tick will take, computed before it from scanner and FIFO: sizable throughout, its last fence the greatest fence end, behind everything published |
| `GxListLag.ForcedAreDone` | runtime/src/gx.c:1940-1941 | when a pipelined tick returns, under every schedule, everything through the chunk in which its last fence ends, or through the point ring space drives the worker to, has been handed to the decoder |
| `GxRingPressure.PressedPull` | runtime/src/gx.c:823-831 | while a tick waits for ring space the worker's pulls are cut by ring and staging alone, not by what it has seen published |
| `GxRingPressure.WorkHeading` | runtime/src/gx.c:963-1021 | so every schedule hands over the same bytes before the space is there, from wherever the worker was |
| `GxLaggingRuns.PixelEngineAgrees` | runtime/src/gx.c:1906-1950 | from every reachable state and under every schedule the tick returns with the pixel engine told what the synchronous consumer has told it, unless a list known before the tick writes to it |
| `GxLaggingRuns.PixelEngineAgreesIff` | runtime/src/gx.c:871 | told before the tick: it agrees under every schedule if and only if no list called behind the forced bytes (through the chunk of the last fence, or what ring space drives the worker through), by those under way and to be taken, writes to it |
| `GxDisplayLists.FinishCanLag` | runtime/src/gx.c:871 | a run in which a finish signal from inside a display list arrives after its tick |
| `GxDisplayLists.FinishLagsFromReset` | runtime/src/gx.c:1864-1877 | the same from the state a hardware reset leaves |
| `GxDisplayLists.MergeAll` | runtime/src/gx.c:1517-1519 | a mask of all ones lets every bit of the new value through |
| `GxDevice.Consumer.constructor` | runtime/src/gx.c:1864-1877 | a reset consumer: valid, nothing staged, every register zero but the all-ones BP write mask |
| `GxDevice.Consumer.OnCp` | runtime/src/gx.c:1209-1236 | after a load in place the numbers of that register read the value cut to its width and all others read what they did |
| `GxDevice.Consumer.OnXf` | runtime/src/gx.c:1395-1414 | the word loop stores what the XF load function says and touches nothing else |
| `GxDevice.Consumer.OnIndexedXf` | runtime/src/gx.c:1417-1463 | an indexed XF load fetches through base and stride, or does nothing outside memory |
| `GxDevice.Consumer.OnBp` | runtime/src/gx.c:1508-1625 | a BP load merges and stores as the decoder model does and adds the one event that 0x47, 0x48 or 0x45 calls for: token, token with interrupt, or finish |
| `GxDevice.Consumer.SizeVertex` | runtime/src/gx.c:1179-1204 | the summing loops give the vertex size |
| `GxDevice.Consumer.RunCommand` | runtime/src/gx.c:1635-1841 | one command is executed and its size returned, or 0 and nothing changed |
| `GxDevice.Consumer.CallDisplayList` | runtime/src/gx.c:1693-1742 | a list runs in place once, unless nested, empty or outside memory |
| `GxDevice.Consumer.RunLoop` | runtime/src/gx.c:1845-1859 | the loop consumes and executes what the run function says |
| `GxDevice.Consumer.Decode` | runtime/src/gx.c:2031-2042 | decoding in the staging buffer leaves the leftover at its front |
| `GxDevice.Consumer.Drain` | runtime/src/gx.c:1952-2043 | the drain loop over real buffers and CP registers is the synchronous loop function |
| `GxDevice.Consumer.Tick` | runtime/src/gx.c:1879-1893 | a tick of the objects is the synchronous tick function |
| `ScanDevice.Scanner.Walk` | runtime/src/gx.c:914-938 | the command loop over the carry computes the functional scan: bytes passed, last fence, draw |
| `ScanDevice.Scanner.ScanChunk` | runtime/src/gx.c:893-945 | a chunk is appended, scanned and shifted out of the carry, or poisons it for good if it does not fit |
| `ScanDevice.Scanner.TryResume` | runtime/src/gx.c:1051-1078 | the leftover is adopted exactly if one more gather fits behind it, with offset produced minus its length |
| `CommandFifo.EvaluateIs` | runtime/src/cp.c:43-62 | watermarks: the high flag is set exactly above the high mark, the low one exactly below the low mark, so never both unless the marks are crossed; the line is up exactly with reading enabled and an enabled cause present; nothing else changes |
| `CpDevice.CommandProcessor.UpdateInterrupts` | runtime/src/cp.c:43-62 | on the 32-bit register pairs: each flag and the line are what live distance, marks and enables make them |
| `CpDevice.CommandProcessor.SetU32` | runtime/src/cp.c:33-36 | a register pair reads back what was set and no other pair changes |
| `CpDevice.CommandProcessor.WriteFifo` | runtime/src/cp.c:104-114 | a FIFO half keeps only the bits that exist, flags and line are live afterwards, alignment is kept |
| `CpDevice.PairIsKept` | runtime/src/cp.c:104-110 | a 32-bit value stored in two halves keeps its low 26 bits, rounded down to 32 |
| `CpDevice.CommandProcessor.WriteControl` | runtime/src/cp.c:116-130 | the six enables are the six bits kept of the stored value, and the flags follow |
| `CpDevice.CommandProcessor.Write16` | runtime/src/cp.c:104-144 | after any guest store flags and line are live if they were before, and always after one to the FIFO or control registers; aligned pointers stay aligned, other registers do not touch the FIFO |
| `CpDevice.CommandProcessor.GatherPipeBursted` | runtime/src/cp.c:192-199 | flags from the distance before the burst, then write pointer and distance plus 32 if linked, no register otherwise |
| `CpDevice.CommandProcessor.ConsumeChunk` | runtime/src/cp.c:220-253 | the read pointer advances with the wrap at the last slot, the distance drops by 32 or saturates, flags and line are live |
| `CpDevice.CommandProcessor.IsAtBreakpoint` | runtime/src/cp.c:215-218 | enabled and read pointer equal to the breakpoint |
| `CpDevice.CommandProcessor.Status` | runtime/src/cp.c:66-82 | the status word is computed from live pointers |
| `CpDevice.StatusWord` | runtime/src/cp.c:66-82 | each status bit means what it should and no other bit is set |
| `GatherPipe.StoreRoundTrip` | runtime/src/gp.c:90-109 | the bytes of a store of any size, read as a big-endian number, are the value as far as so many bytes can hold it |
| `GatherPipe.Pipe.FlushBurst` | runtime/src/gp.c:45-82 | a full stage is copied to the write pointer if it lies in RAM, the pointer advances with the wrap, the CP is told |
| `GatherPipe.FlushIs` | runtime/src/gp.c:45-82 | where a full stage is stored, if anywhere, how the write pointer moves on, and what the command processor is told |
| `GatherPipe.Pipe.Write` | runtime/src/gp.c:90-109 | a store of any size appends the low bytes of its value, spelled most significant first, bursting at 32 |
| `GatherPipe.Pipe.Reset` | runtime/src/gp.c:28-40 | a reset drops the partial stage only |
| `Conservation.BurstAdds` | runtime/src/gp.c:45-82 | a burst into a ring with room adds its chunk behind those in flight and disturbs none |
| `Conservation.TakeRemoves` | runtime/src/cp.c:220-253 | the chunk the graphics side takes is the oldest in flight, the rest keep their order, the registers still describe the ring |
| `Conservation.TickConserves` | runtime/src/gx.c:1952-2043 | a tick moves bytes from ring to decoder and loses none |
| `Conservation.StoreConserves` | runtime/src/gp.c:90-109 | a store adds exactly its bytes to the stream |
| `EndToEnd.NothingLost` | runtime/src/gp.c:90-109 | after any tick of any run without overrun, executed commands, staging and SPSC ring, guest-RAM ring and gather stage are together the big-endian bytes of what the CPU stored |
| `EndToEnd.DistanceIsGap` | runtime/src/cp.c:192-199 | the distance is write pointer minus read pointer modulo the end-inclusive ring size |
| `EndToEnd.NoUnderflow` | runtime/src/cp.c:235-247 | the saturation of the distance at zero is unreachable, in the pipeline and in the synchronous loop |
| `EndToEnd.ReadIdleExactly` | runtime/src/cp.c:66-82 | the read-idle bit means an empty ring or an exactly full one |
| `EndToEnd.FullLooksIdle` | runtime/src/cp.c:66-82 | from every fresh machine a run reaches the exactly full ring, and the idle bit is set with every slot waiting |
| `EndToEnd.OverrunReplacesOldest` | runtime/src/gp.c:45-82 | a burst into a full ring replaces the oldest unread chunk: executed, staged and in-flight bytes are still those stored if and only if the two chunks are equal |
| `DspBatchProofs.StepKeepsInv` | runtime/src/dsp.c:94-158 | every step of CPU or worker keeps the batching invariant |
| `DspBatchProofs.CallRuns` | runtime/dsp_lle/src/dsp_lle_c.cpp:117-197 | a core call is run in full if and only if it is for at most 2^31 - 1 cycles; from 2^31 to 2^32 it arrives negative and runs nothing |
| `DspBatchProofs.ExactlyOnce` | runtime/src/dsp.c:277-304 | cycles run, granted, owed, discarded, lost in casts and lost in wraps always add up to those ticked; nothing is missing if and only if the debt never wrapped and every core call fits an int |
| `DspBatchProofs.WrapExactly` | runtime/src/dsp.c:377-378 | the debt wraps exactly when a tick carries it past 32 bits, never when it leaves room for the cap |
| `DspBatchProofs.WrapLosesCycles` | runtime/src/dsp.c:363-367 | a cap near the top of the word loses 2^32 cycles in two ticks |
| `DspBatchProofs.CastLosesCycles` | runtime/src/dsp.c:291 | with the default cap one tick of 0x8000_0004 cycles is lost whole, with no wrap |
| `DspBatchProofs.FlushTotal` | runtime/src/dsp.c:261-304 | after a full flush what was run or discarded is the whole part of what was ticked, if and only if nothing was lost |
| `DspBatchProofs.TotalsAgree` | runtime/src/dsp.c:268-271 | two machines that ticked the same and lost nothing agree after a flush wherever their flushes and grants fell |
| `DspLosses.TickIsSafeExactly` | runtime/src/dsp.c:363-400 | from a state in which nothing is lost or bound to be, a tick is followed by no loss under any schedule if and only if the debt it makes, plus the backlog if it grants, is at most 0x8000_0003 |
| `DspLosses.GuardedIsLossless` | runtime/src/dsp.c:60-74 | every run all of whose ticks pass that test loses nothing |
| `DspLosses.StaticBound` | runtime/src/dsp.c:363-367 | without a worker, all runs with ticks up to a given size lose nothing if and only if cap and size total at most 0x8000_0004 |
| `DspLosses.NoStaticBound` | runtime/src/dsp.c:369-400 | with a worker no such bound exists: under every cap, with ticks of one cycle already, some run loses cycles |
| `DspBatchProofs.OneThreadAtATime` | runtime/src/dsp.c:60-74 | the CPU runs the core or touches its state only with every grant consumed and the worker not executing |
| `DspAccesses.AccessesFind` | runtime/src/dsp.c:333-350 | whatever the threads do in between, a store to the DSP finds fewer than six cycles owed, a read fewer than six or than the flush minimum, and a look at the interrupt registers touches no core state |
| `DspAccesses.SparedExactly` | runtime/src/dsp.c:369-400 | cycles are spared by one step only, at the cap of a halted core with every grant consumed, and then all whole ones |
| `DspAccesses.RunningCoreIsSparedNothing` | runtime/src/dsp.c:369-400 | so over any run a core that is never halted is spared nothing |
| `DspBatchProofs.DrainAdvances` | runtime/src/dsp.c:145-158 | while a drain waits the worker has a step and every step brings the end nearer |
| `DspBatchProofs.SleepingWorkerIsWoken` | runtime/src/dsp.c:138-143 | eliding the wake never leaves the worker asleep with cycles granted |
| `DspBatchProofs.SleepingCpuIsWoken` | runtime/src/dsp.c:117-119 | nor the CPU asleep in a drain that is over |
| `DspDevice.Clock.Flush` | runtime/src/dsp.c:277-304 | the whole part of the debt is run and the rest stays owed |
| `DspDevice.Clock.FlushLazy` | runtime/src/dsp.c:333-345 | a read flushes only when enough is owed |
| `DspDevice.Clock.Tick` | runtime/src/dsp.c:352-400 | a tick accrues, runs the core at the cap, and keeps the invariant |
| `MmioEvents.CollapseReads` | oracle/mmio_diff.py:121-132 | the loop computes the fold of identical reads |
| `MmioEvents.CollapseIdempotent` | oracle/mmio_diff.py:121-132 | folding twice is folding once |
| `MmioEvents.CollapseKeepsWrites` | oracle/mmio_diff.py:15-22 | no write is folded, moved or changed |
| `MmioEvents.CollapseIsCanonical` | oracle/mmio_diff.py:15-22 | two traces fold to the same accesses if and only if they differ by repeating adjacent identical reads |
| `MmioFolds.CollapseCounterPolls` | oracle/mmio_diff.py:134-156 | the run loop computes the fold of counter polls and its two counts |
| `MmioFolds.PolledKeepsWrites` | oracle/mmio_diff.py:88-106 | folding polls loses no write |
| `MmioFolds.PolledIdempotent` | oracle/mmio_diff.py:134-156 | what the poll fold leaves holds no poll |
| `MmioFolds.PolledKeepsLastReads` | oracle/mmio_diff.py:134-156 | the last value any place in the program read from any register is the same after the fold: polls are told apart by register, width and place and kept by their exit value |
| `MmioFolds.FoldTrace` | oracle/collapse_trace.py:60-84 | the streaming loop with one remembered read computes the file fold |
| `MmioFolds.FoldCommutes` | oracle/collapse_trace.py:18-37 | folding a file and projecting it is projecting and folding, other records untouched |
| `MmioFolds.FoldOnlyThins` | oracle/collapse_trace.py:18-37 | the file fold only leaves out device reads and moves nothing |
| `MmioResync.CandidateValid` | oracle/mmio_diff.py:188-213 | the three loops decide validity: skipped entries reads, landing equal, confirmation window equal or benign |
| `MmioResync.FindResync` | oracle/mmio_diff.py:215-227 | the nested loops return what the ordered search does |
| `MmioResync.FindIsLeast` | oracle/mmio_diff.py:215-227 | a valid skip of least total, least first share on ties; none exactly if no skip in the window is valid |
| `MmioResync.ReportResync` | oracle/mmio_diff.py:229-285 | at every loop head the indices are matched plus skipped and the writes of both prefixes agree; the counts are those of the alignment |
| `MmioResync.VerdictMeaning` | oracle/mmio_diff.py:241-279 | what each verdict says about where the comparison stopped |
| `MmioResync.ResyncMeans` | oracle/mmio_diff.py:180-226 | a resynchronisation skips reads only, lands on two accesses alike in register, width, direction and value, and the pairs behind them are alike or reads of one poll as far as it confirms |
| `MmioResync.GateMeans` | oracle/mmio_diff.py:229-300 | it stops at the gate if and only if it has come to accesses that are neither, and for want of a resynchronisation if and only if they are two reads of one poll |
| `MmioResync.AlignCore` | oracle/mmio_diff.py:44-75 | up to the stop both traces are one list of matched accesses with reads put in |
| `MmioResync.CleanMeansSameWrites` | oracle/mmio_diff.py:24-75 | a verdict of no hard divergence implies equal write sequences of the two raw traces |
| `MmioResync.FirstStrictDiff` | oracle/mmio_diff.py:162-164 | the first difference, or none exactly if one trace is a prefix of the other |
| `MmioResync.StrictMissesTheTail` | oracle/mmio_diff.py:162-171 | when strict mode finds no difference the traces are equal if and only if neither has a tail beyond the other, make the same writes if and only if that tail holds none, and the resynchronising comparison reports any tail |
| `MmioResync.CutBeforeWrite` | oracle/mmio_diff.py:162-171 | a trace cut short before a write is such a case |
| `AotCache.FindChunk` | runtime/src/aot_module.c:40-54 | binary search finds the chunk that contains the address exactly if there is one |
| `AotCache.Fnv1a64` | runtime/src/aot_module.c:10-17 | the loop computes 64-bit FNV-1a |
| `AotCache.FnvVectors` | runtime/src/aot_module.c:10-17 | the hash of nothing and of the letter a are the published ones |
| `AotCache.CanonicalIsAlias` | runtime/src/aot_module.c:19-38 | the canonical address is that of the same byte in the cached window, and exists exactly for the three windows of main memory |
| `AotCache.MatchesExactly` | runtime/src/aot_module.c:76-88 | a chunk matches exactly if its addresses are main memory that is there and its bytes have its hash |
| `AotCache.MeetsExactly` | runtime/src/aot_module.c:95-115 | a range meets a chunk if and only if some address lies in both |
| `AotCache.Module.Dispatchable` | runtime/src/aot_module.c:56-92 | answer and remembered state of a query; the counters equal the number of chunks in each state |
| `AotCache.Module.Invalidate` | runtime/src/aot_module.c:94-115 | exactly the chunks the range meets are forgotten; the counters follow |
| `AotCache.CachedIsFresh` | runtime/src/aot_module.c:40-92 | while no byte of the chunk is stale the cache answers as hashing RAM again would |
| `AotCache.InvalidateFreshens` | runtime/src/aot_module.c:94-115 | an invalidation makes the bytes it covers fresh |
| `AotCache.EveryRunAnswersFreshly` | runtime/src/aot_module.c:40-115 | over every run of stores, invalidations and queries, from any state in which the cache is right about what is not stale |
| `AotCache.FreshModuleAnswersFreshly` | runtime/src/aot_module.c:40-115 | and so from a module nothing of which has been verified, whatever memory holds |
| `DiscReadAhead.Scheduler.Walk` | runtime/src/di.c:263-293 | the per-block loop ends at the last block, and seeks exactly if the first block is neither buffered nor under the head |
| `DiscReadAhead.Scheduler.Schedule` | runtime/src/di.c:229-321 | the read-ahead window after a read, and that it stays block-aligned and within the buffer |
| `DiscReadAhead.UsableBounds` | runtime/src/di.c:239-261 | the buffered range is never longer than 1 MiB nor negative |
| `DiscReadAhead.NewWindow` | runtime/src/di.c:295-318 | no subtraction goes below zero and a new window satisfies the invariant |
| `DiscReadAhead.LastBlockIs` | runtime/src/di.c:229-320 | the walk ends at the first block boundary at or behind the end of the read |
| `DiscReadAhead.FilledGrows` | runtime/src/di.c:229-320 | nothing of a window is read ahead before its time, all of it from its end time on, and what is read only grows |
| `DiscSafety.TransfersAreSafe` | runtime/src/di.c:326-402 | over every run the bytes a tick puts into memory are the mounted image's from four times the second word of the latest command on, or from 0 for the disc ID; exactly as many as the least of what it asked for, what its DMA takes and what memory holds; at its DMA address; and that command is a read issued after spin-up and disc ID, both since the last change of disc with no motor stop |
| `DiscSafety.CoverTellsDisc` | runtime/src/di.c:136-147 | no disc exactly if the drive reports an open cover exactly if the cover bit is set |
| `DiscSafety.LineIsLive` | runtime/src/di.c:104-123 | after any run the interrupt line is what status and masks make it |
| `DiscSafety.RefusalReasons` | runtime/src/di.c:149-169 | the error a read is refused with, for every state |
| `DiscCommands.CommandIsAsStored` | runtime/src/di.c:713-745 | the words of the next command are those last stored, after any run |
| `DiscCommands.ReadIssued` | runtime/src/di.c:453-480 | a read command in every state of the drive: new state, error, place, length and address of the read, duration and outcome |
| `DiscCommands.OthersIssued` | runtime/src/di.c:436-542 | every other command in every state: outcome, error, motor and audio state |
| `DiscCommands.ErrorIsReported` | runtime/src/di.c:483-490 | a request for the error returns the code last set and the state above it |
| `DiscCommands.InquiryAnswers` | runtime/src/di.c:446-451 | an inquiry stores its three words at the DMA address, no other command stores any |
| `DiscCommands.CommandCompletes` | runtime/src/di.c:549-575 | when its time is over a command raises exactly the status bit of its outcome, the line follows, and a completed one has moved the DMA on |
| `DiscCommands.CommandWaits` | runtime/src/di.c:555-558 | until then only its time runs |
| `DiscCommands.Acknowledged` | runtime/src/di.c:719-740 | a one stored beside a status bit clears it, masks are taken over, the line follows |
| `DiscCommands.DmaRegisters` | runtime/src/di.c:745-746 | DMA address and length are cut to multiples of 32, the address to 64 MiB |
| `DiscCommands.DiscChanges` | runtime/src/di.c:582-670 | what putting in a disc, taking it out and spinning up leave of cover, state, command and error |
| `DiscDevice.DriveRegisters.SetLidOpen` | runtime/src/di.c:141-147 | the cover bit follows the disc and an edge raises the cover interrupt |
| `DiscDevice.DriveRegisters.ResetDrive` | runtime/src/di.c:582-599 | a reset picks the state by disc and spin-up and drops command, read and window |
| `DiscDevice.DriveRegisters.MountDisc` | runtime/src/di.c:627-660 | an image that is empty is refused with nothing changed, another replaces the disc |
| `DiscDevice.DriveRegisters.EjectDisc` | runtime/src/di.c:662-671 | the disc is gone and the cover open |
| `DiscDevice.DriveRegisters.PrepareRead` | runtime/src/di.c:326-371 | a read is clamped, bounds-checked and scheduled, or refused |
| `DiscDevice.DriveRegisters.ExecuteCommand` | runtime/src/di.c:436-544 | every command's effect, error and interrupt, and the three words an inquiry stores |
| `DiscDevice.DriveRegisters.WriteCr` | runtime/src/di.c:752-768 | a store to the control register starts a command in place of any before |
| `DiscDevice.DriveRegisters.Tick` | runtime/src/di.c:549-573 | a command completes when its time is over; a read then hands over its bytes |
| `PpcEncoding.DFormInverse` | tools/make_homebrew_disc.py:107-165 | every field of a D-form word is decoded back |
| `PpcEncoding.IFormInverse` | tools/make_homebrew_disc.py:178-186 | every field of an I-form branch |
| `PpcEncoding.BFormInverse` | tools/make_homebrew_disc.py:194-200 | every field of a B-form branch |
| `PpcEncoding.XfxFormInverse` | tools/make_homebrew_disc.py:223-239 | every field of mtspr and mfspr, the split SPR number included |
| `PpcEncoding.XlFormInverse` | tools/make_homebrew_disc.py:214-218 | every field of the XL-form of blr |
| `PpcEncoding.CmpFormInverse` | tools/make_homebrew_disc.py:168-173 | every field of cmpwi |
| `PpcEncoding.BranchReaches` | tools/make_homebrew_disc.py:178-186 | an unconditional branch reaches its target exactly if the displacement fits |
| `PpcEncoding.CondBranchReaches` | tools/make_homebrew_disc.py:194-209 | a conditional branch likewise |
| `PpcEncoding.PairLoads` | tools/make_homebrew_disc.py:134-145 | lis and ori load a 32-bit constant exactly |
| `Assembler.BranchesLand` | tools/make_homebrew_disc.py:313-331 | in the finished program every branch goes to its label, forward or backward, exactly if in range, and has the opcode, condition and link bit asked for |
| `Assembler.PairsLoadLabels` | tools/make_homebrew_disc.py:305-311 | a label pair loads its label's address into the register named |
| `Assembler.LabelAt` | tools/make_homebrew_disc.py:260-265 | a label is the address of what follows it |
| `Assembler.PatchingFinishes` | tools/make_homebrew_disc.py:333-337 | patching the waiting words gives the finished program |
| `Assembler.Asm.Label` | tools/make_homebrew_disc.py:260-262 | a label is defined once |
| `Assembler.Asm.Finish` | tools/make_homebrew_disc.py:333-337 | finishing succeeds exactly if every label used is defined, and gives the program's words |
| `OfflineDecoder.VertexSizesAgree` | tools/gx_fifo_decode.py:256-303 | on every format accepted the size from the offline decoder's own tables and bit positions is the runtime's |
| `OfflineDecoder.SameBoundaries` | tools/gx_fifo_decode.py:392-520 | exact condition: a stream accepted offline is split by the runtime at the same places, and to the same end, if and only if at every draw on the way the two see vertices of one size that is not zero, or the draw is empty, or it is whole for neither; whatever formats either starts from |
| `OfflineDecoder.SameUnlessZeroSize` | tools/gx_fifo_decode.py:499-508 | exact condition in formats and stream alone: from the same formats, lists leaving them as they are, the two split alike if and only if no draw has vertices all of size zero |
| `OfflineDecoder.BoundariesCoverRun` | runtime/src/gx.c:1845-1859 | those places are where the runtime's run puts them |
| `OfflineDecoder.ZeroSizeDrawsDiffer` | tools/gx_fifo_decode.py:499-508 | a draw of one vertex under the formats of a reset machine: 3 bytes offline, none by the runtime |
| `OfflineDecoder.ListsPart` | tools/gx_fifo_decode.py:467-479 | a list that widens the vertices: the draw behind its call is split as 4 and 1 bytes offline, as 5 by the runtime |
| `OfflineDecoder.LoadsAgree` | tools/gx_fifo_decode.py:242-254 | a register load of the offline decoder is the runtime's, seen through the vertex formats |
| `OfflineDecoder.Decoder.LoadRegister` | tools/gx_fifo_decode.py:242-254 | the load in place leaves the formats that the runtime's load leaves, whatever else the runtime's registers hold |
| `OfflineDecoder.Decoder.WalkStream` | tools/gx_fifo_decode.py:392-405 | the walking loop finds the command sizes |
| `ExiSram.WrittenIsRead` | runtime/src/exi.c:296-370 | an image streamed out in any mix of 1 to 4 byte writes is what a later transaction returns in any other mix followed by any DMA block, zeros past its end |
| `ExiSram.Unselected` | runtime/src/exi.c:433-452 | with another device selected no transfer reaches SRAM, clock or ROM, and an immediate read drives 0 |
| `ExiSram.RomIsRead` | runtime/src/exi.c:258-288 | a ROM transaction returns the bytes from the address the command names, in any mix of reads |
| `ExiSram.ClockIsKept` | runtime/src/exi.c:296-370 | a clock value written is read back plus the seconds since, or unchanged if the clock stands |
| `ExiSram.DmaContinues` | runtime/src/exi.c:310-318 | a DMA read continues where immediate reads stopped |
| `ExiSram.ExcessIgnored` | runtime/src/exi.c:357-365 | bytes past the image are ignored |
| `ExiSram.BeginStarts` | runtime/src/exi.c:212-254 | a fresh selection takes the command and resets the cursor, from any state |
| `ExiSram.PackedBigEndian` | runtime/src/exi.c:310-320 | bytes go into and come out of the data register most significant first |
| `ExiSram.CommandsAre` | runtime/src/exi.c:336-352 | which command words read and write clock and SRAM; any other with the top bit clear reads the ROM, any other with it set nothing |
| `ExiSram.SelectEdge` | runtime/src/exi.c:236-254 | an edge of the select drops command and cursors, the same select again does nothing |
| `ExiSram.Ipl.ChipSelect` | runtime/src/exi.c:236-254 | a select edge, and nothing else, starts a new transaction |
| `ExiSram.Ipl.Transfer` | runtime/src/exi.c:334-372 | a write transfer, immediate or by DMA: command word first, then clock or SRAM payload from the data register |
| `ExiSram.Ipl.Write` | runtime/src/exi.c:336-366 | an immediate write stores the data register and then transfers it |
| `ExiSram.Ipl.Read` | runtime/src/exi.c:296-332 | an immediate read of ROM, clock or SRAM, bytes packed most significant first |
| `AudioClock.TickAdds` | runtime/src/ai.c:154-167 | two ticks are one tick of their sum |
| `AudioClock.TickIs` | runtime/src/ai.c:154-167 | samples advanced are the quotient of residue plus twice the cycles, the rest is carried |
| `AudioClock.SamplesAre` | runtime/src/ai.c:114-121 | the interrupt is newly latched exactly if the counter takes the programmed value, and only then the line is driven, to the mask |
| `AudioClock.RateIsExact` | runtime/src/ai.c:154-167 | a second of the core clock is exactly 48000 or 32000 samples and leaves the residue as it was |
| `AudioClock.AudioInterface.TickCycles` | runtime/src/ai.c:154-167 | the loop fires every sample a delta crosses |
| `Clocks.ChargeIsExact` | runtime/src/dispatch.c:376-424 | nothing is lost in a block whose charges fit 32 bits |
| `Clocks.ClocksAdvance` | runtime/src/dispatch.c:383-394 | time base and device clock advance by all of a block, whatever its length; what is handed on is cut to 32 bits |
| `Clocks.UniformCharge` | runtime/src/dispatch.c:366-376 | a block that counts no cycles is charged 8 ticks, 96 core cycles and the DSP constant; the remainders stand |
| `Clocks.DspChargeExactly` | runtime/src/dispatch.c:412-417 | exact condition: what a block hands the DSP and carries is never more than it owes, and all of it if and only if that is below 12 times 2^32 |
| `Clocks.TickChargeExactly` | runtime/src/dispatch.c:383-394 | the same for the ticks handed to the decrementer |
| `Clocks.LongBlockStarvesDsp` | runtime/src/dispatch.c:412-417 | a block of 2^32 core cycles at the default ratio charges the DSP nothing, while the time base gets it all |
| `Clocks.TimeBaseIsExact` | runtime/src/dispatch.c:383-394 | over any run, ticks of the time base times twelve plus remainder are the core cycles retired if and only if no 64-bit sum wraps; the device clock counts the cycles |
| `Clocks.RunLosesNothing` | runtime/src/dispatch.c:376-424 | over any run, the DSP cycles and the decrementer ticks handed on, times twelve plus remainder, never exceed the cycles retired (the DSP's scaled) and are all of them if and only if no block's charge passes 32 bits |
| `Clocks.ElapsedIs` | runtime/src/dispatch.c:357-381 | while the cycle counter only grows, the cycles retired are what it grew by |
| `Clocks.DecPassesZero` | runtime/src/cpu_glue.c:156-164 | for any 32-bit tick an interrupt is newly pending exactly if the count passes zero and stays negative |
| `Clocks.DecSplits` | runtime/src/cpu_glue.c:156-164 | exact condition per state: two ticks may be taken as one if and only if no interrupt is missed by it |
| `Clocks.DecSplitBound` | runtime/src/cpu_glue.c:156-164 | exact condition over all states: if and only if one tick is 0 or they total at most 2^31 |
| `Clocks.RtcValue` | runtime/src/rtc.c:20-37 | a read is the start value plus whole seconds since, modulo 2^32 |
| `Clocks.RtcStands` | runtime/src/rtc.c:20-37 | a clock that stands reads its value, one whose cycle count went back counts on from there |
| `Clocks.RtcReadsAreTransparent` | runtime/src/rtc.c:20-37 | extra earlier reads never change a later one |
| `ClockDevices.BlockClock.ChargeOne` | runtime/src/dispatch.c:357-424 | the charge of one block through the running remainders |
| `ClockDevices.Decrementer.Tick` | runtime/src/cpu_glue.c:156-164 | a decrementer tick |
| `ClockDevices.Decrementer.Store` | runtime/src/cpu_glue.c:255-259 | a guest store withdraws the interrupt exactly if non-negative |
| `ClockDevices.Decrementer.Deliver` | runtime/src/cpu_glue.c:166-173 | delivery happens once, when enabled and no exception is under way |
| `ClockDevices.RealTimeClock.Read` | runtime/src/rtc.c:20-37 | a read rebases the anchor by whole seconds |
| `ClockDevices.RealTimeClock.Write` | runtime/src/rtc.c:39-44 | a value written reads back at once |

## Left out

- GxPipelineTheorems.FencesLandInTheirTick: top-level writes only, because the code
  fences only those; display lists are dealt with by GxLaggingRuns.PixelEngineAgreesIff.
- EndToEnd.NothingLost: no overrun of the guest-RAM ring, as on the hardware; what an
  overrun does is EndToEnd.OverrunReplacesOldest.
- The rasterizer, Vulkan, EFB copies, texture memory and XFB hashing: draws, EFB
  copies and palette loads are logged as effects.
- Guest writes to display lists, vertex arrays or palettes between push and
  execution, which runtime/src/gx.c:365-375 declares a residual.
- Weak memory, spinning and the length of time-outs; the quit flag, lockstep mode,
  statistics and audit rings of the pipeline.
- Pixel-engine and PI interrupt registers behind the events the decoder raises.
- The watermark level after a burst: flags are evaluated before the distance
  grows, as the code does, and nothing more is claimed.
- FIFO resets in the end-to-end run, and CP or PI rings that differ, are not
  aligned, or are relinked while bytes are in flight.
- The byte and 32-bit access paths of the CP registers beside 16-bit stores.
- DSP batching switched off, the audio and ARAM engines of the DSP block, and its
  interrupt poll at every block, which deliberately runs without a drain.
- The ledger of drive commands; host file errors at completion.
- The command line and reports of the trace comparison.
- Absolute branches and link forms other than those the assembler uses; the
  programs it is used for.
- The offline decoder with a memory span, its naming tables and reports.
- ExiSram.Unselected: a memory card at chip select 1 would answer there
  (runtime/src/exi.c:433-452); cards are not modelled, so an immediate read drives 0.
- EXI memory cards and the other EXI channels; the descrambling of the mask ROM and
  the file that keeps clock and SRAM.
- The legacy pacing of the audio interface and the uniform charge of blocks.
- Floating-point CPU helpers, snapshots, debug server, windows, persistence.
