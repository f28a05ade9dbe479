# Verified models of the MII Apple //e emulator

MII emulates an enhanced Apple //e. These Dafny files model the parts of it, and of the libraries it
carries, in which the hard work is done by protocols, caches and invariants, and prove what those parts
are for. `dafny verify dfyconfig.toml` checks all of it.

- **Packet fifo of the audio library** (`AudioThreads.dfy`, `AudioFifo.dfy`). A writer and a reader thread
  share two rings of packet indices and a current packet. The step model interleaves them at every lock,
  ring operation and copied byte, and shows that each packet has one owner at every step, that the copy
  made without the lock is private, that the ring operations never meet a full or an empty ring, and that
  what the reads return is, in order, what the writes were given, as far as they returned that they took it.
  Every call ends within a bounded number of its own steps, and how much a write takes and a read brings
  is settled for every interleaving.
- **MD5** (`Md5Rfc.dfy`, `Md5.dfy`). RFC 1321 as the specification; the streaming context, its 29/32-bit
  byte counter and the unrolled rounds refine it. However a message is cut into updates, the digest is that
  of the RFC. `Bits.dfy` has the C operators this and other files need, `Basics.dfy` their common types.
- **Lock-free ring** (`LockFreeFifo.dfy`). One producer and one consumer, load by load and store by store,
  refine a bounded queue of one slot less than the ring. A single or bulk transfer moves what was free or
  queued when it looked at the cursors, whatever the other side does meanwhile, and in how many steps.
- **Signals** (`Signals.dfy`). Raising a signal is a recursive broadcast over any graph, cyclic or not. It
  ends, gives back all busy marks, and reaches exactly the signals that a path of free hooks leads to, with
  filters, or with inverted signals. The values it leaves, and those of the callbacks, are those that such
  paths bring, and each callback is called once for each walk that leads to it, in order.
- **Scatter-gather output** (`MishSend.dfy`). Vectors with holes into a sequence buffer that may move, and
  partial writes: what has been sent is always the front of what has been queued. This is part of the
  invariant `Valid` of the class, so it holds after any sequence of its methods.
- **Video** (`VideoCache.dfy`). A line whose dirty bit is clear shows what drawing it now would show, after
  any run of writes, timer ticks, switch accesses, block transfers and resets that keep it so. Writes, ticks
  and most accesses always do. Some accesses to 80COL, MIXED and 80STORE, some resets and some unaligned
  block transfers do not: exact conditions on the state before tell which, with failing inputs.
- **Memory** (`PageTable.dfy`, `Memory.dfy`, `Timers.dfy`). The lazily computed page table against a direct
  priority function, every switch and what each address means by the addresses accessed since reset,
  banked and RamWorks memory against one byte per cell: every byte read in a run is the last one written there. And the cycle timers.
- **65C02** (`Cpu.dfy`). Decimal arithmetic over numbers of any length, and subroutine calls over any
  balanced run.
- **Assembler and disassembler** (`Ops.dfy`, `Assembler.dfy`). One opcode table, a printer and a parser, and
  the exact condition under which printing and parsing are inverse.

Code that updates state in place is a class or a method here, proved to compute a value-level model of
its steps on which the main theorems stand: `Md5.Context` that of `Md5` and `Md5Rfc`, `Signals.Board` the
raises of `SignalGraph`, `MishSend.Output` the pending bytes of `MishSend.View`, `Video.Screen` the steps
of `VideoCache`, `Memory.Mii` the accesses of `PageTable` and the runs of `RamRuns`, `Timers.TimerSet`
those of `TimerRuns`, `Cpu65C02.Cpu` the functions of `Decimal` and `StackRuns`, and the methods of
`AsmProgram` those of `Assembler` and `Disassembler`. The two concurrent fifos have their steps interleaved
in `AudioThreads` and `FifoSteps`; `AudioFifo.Fifo` (which computes `AudioFifo.View`) and `RingFifo.Fifo`
are the same code run by one thread from start to finish, with contracts of their own. Words of the C code
are integers with the masks and wrap-arounds written out.

Where the code and its comments disagree, the code is modelled:

- `src/mii_vcd.c:473-475` says that callbacks can compare the old value with the new one. On a cycle a later
  hook of the outer raise already sees the new value; `SignalGraph.CallbacksSeeOldValue` says when they can.
- `src/mii_65c02_asm.c:78-81` reads decimal digits as hexadecimal ones (`RoundTrip.DecimalOperand`).
- `src/mii_video.c:251-252` speaks of seven lines; eight are marked.
- `src/mii_65c02.c:551-568`: after a decimal subtraction Z is that of a binary sum
  (`Decimal.SbcZeroFlag` says when it is right).

## Model

| member | source | states |
|---|---|---|
| AudioThreads.OneOwner | contrib/sokol_audio.h:1345-1419 | at every step of every interleaving each packet index is in exactly one place: write ring, read ring, the writer until it publishes, or the reader between its two ring calls |
| AudioThreads.RingCallsAreSafe | contrib/sokol_audio.h:1272-1283 | no enqueue meets a full ring and no dequeue an empty one: the asserts of the ring functions hold |
| AudioThreads.UnlockedCopyIsPrivate | contrib/sokol_audio.h:1363-1374 | while the writer copies without the mutex, its packet is on no ring and is not the one the reader is copying |
| AudioThreads.StepKeepsInv | contrib/sokol_audio.h:1345-1419 | every step of either thread, and the initialisation whenever it comes, keeps ownership, lock state and byte order |
| AudioThreads.WriterKeepsOwnership | contrib/sokol_audio.h:1352-1389 | no step of a write duplicates or drops a packet index, although the packet is published before cur_packet is cleared |
| AudioThreads.ReaderKeepsOwnership | contrib/sokol_audio.h:1406-1414 | no step of a read does, although the packet is put back before it is copied out |
| AudioThreads.RunKeepsInv | contrib/sokol_audio.h:1345-1419 | the invariant holds after every schedule of the two threads |
| AudioThreads.RunRecordsCalls | contrib/sokol_audio.h:1345-1419 | the calls on record are those of the schedule: each write with the bytes it was given, each read with what it asked for |
| AudioThreads.DeliveredInOrder | contrib/sokol_audio.h:1345-1419 | after any schedule what the reads have returned is a prefix of what its writes accepted: of each call the front it returned for, of one under way what it has copied; a read returns a full buffer or nothing |
| AudioThreads.ReadReturns | contrib/sokol_audio.h:1395-1419 | over any run, a read that finds the packets it needs when it checks returns the first of them in full, whatever the writer does meanwhile; otherwise it returns nothing |
| AudioThreads.WriterReturns | contrib/sokol_audio.h:1375-1391 | a write returns the number of bytes it has copied: all of them, or fewer when it looked for a packet and found none |
| AudioThreads.StarvedMeansFull | contrib/sokol_audio.h:1354-1357 | it finds none just when every packet is queued for reading |
| AudioThreads.LookFails | contrib/sokol_audio.h:1352-1380 | when it finds none it does return short, with its second step after that one, whatever the reader frees meanwhile |
| AudioThreads.WriteEnds | contrib/sokol_audio.h:1345-1392 | under any interleaving a write returns within eleven of its own steps for each byte, and one |
| AudioThreads.ReadEnds | contrib/sokol_audio.h:1395-1419 | a read within so many steps for each packet, and four |
| AudioThreads.NoDeadlock | contrib/sokol_audio.h:1345-1419 | of a thread in its call and the other one, one can always move |
| AudioThreads.WriteTakes | contrib/sokol_audio.h:1345-1392 | under any interleaving a write takes all it is given or at least what there was room for when it was called, and at most that and what the reader puts back meanwhile |
| AudioThreads.WriteAlone | contrib/sokol_audio.h:1345-1392 | with no read under way it ends, within that bound, with exactly the smaller of what it was given and the room |
| AudioThreads.WriteFits | contrib/sokol_audio.h:1333-1392 | so a write of no more than what there was room for when the writer last asked never returns short, whatever the reader does before and meanwhile |
| AudioThreads.NothingLost | contrib/sokol_audio.h:1345-1419 | with both threads idle, what the writes returned for is what the reads returned, the queued packets and the part of the current packet, in order |
| AudioRing.Ring.Enqueue | contrib/sokol_audio.h:1272-1276 | the value goes to the end of the queue |
| AudioRing.Ring.Dequeue | contrib/sokol_audio.h:1278-1283 | the first value comes off the queue |
| AudioRing.Ring.Full | contrib/sokol_audio.h:1252-1254 | full just when one slot is left |
| AudioRing.Ring.Empty | contrib/sokol_audio.h:1256-1258 | empty just when nothing is queued |
| AudioRing.Ring.Count | contrib/sokol_audio.h:1260-1270 | the number of queued values, either side of the wrap |
| AudioFifo.PendingAndRoom | contrib/sokol_audio.h:1333-1342 | what is pending and what can still be written always add up to the whole block of memory |
| AudioFifo.TakeKeeps | contrib/sokol_audio.h:1352-1358 | grabbing a packet changes neither what is pending nor the room |
| AudioFifo.AppendGrows | contrib/sokol_audio.h:1363-1374 | copying into the current packet appends to what is pending and disturbs no other packet |
| AudioFifo.PushKeeps | contrib/sokol_audio.h:1381-1387 | publishing a full packet changes neither what is pending nor the room |
| AudioFifo.RequeueGives | contrib/sokol_audio.h:1407-1410 | the packet pulled is the front of what is pending, and its room comes back |
| AudioFifo.Fifo.Init | contrib/sokol_audio.h:1301-1324 | nothing pending, all of the block writable |
| AudioFifo.Fifo.WritableBytes | contrib/sokol_audio.h:1333-1342 | the bytes the next write can take |
| AudioFifo.Fifo.Write | contrib/sokol_audio.h:1345-1392 | terminates; accepts exactly the smaller of what is offered and what was writable, and appends that much |
| AudioFifo.Fifo.Read | contrib/sokol_audio.h:1395-1420 | all of what is asked for or nothing, from the front of what is pending; nothing before the fifo is valid |
| Md5.RoundFunctions | contrib/md5.c:49-53 | the rewritten F, G, H, H2 and I are the functions of section 3.4 of RFC 1321 |
| Md5.Rotation | contrib/md5.c:58-61 | the two shifts of STEP are a 32-bit rotation |
| Md5.StepIsOperation | contrib/md5.c:58-61 | one STEP, with the registers renamed, is one operation of the RFC |
| Md5.GetIsWord | contrib/md5.c:79-95 | four bytes put together by shifts and ors are a little-endian word |
| Md5.Round1 | contrib/md5.c:117-133 | sixteen unrolled steps are operations 1 to 16 of the RFC |
| Md5.Round2 | contrib/md5.c:135-151 | operations 17 to 32 |
| Md5.Round3 | contrib/md5.c:153-169 | operations 33 to 48 |
| Md5.Round4 | contrib/md5.c:171-187 | operations 49 to 64 |
| Md5.Transform | contrib/md5.c:111-194 | one pass of the body is the compression of one block by the RFC |
| Md5.Context.Body | contrib/md5.c:98-203 | any number of blocks, in order |
| Md5.Context.Update | contrib/md5.c:216-248 | the context after an update is that of the longer message, whatever had been buffered |
| Md5.CountGrows | contrib/md5.c:221-224 | hi * 2^29 + lo is the byte count modulo 2^61 |
| Md5.LengthField | contrib/md5.c:273-275 | the two words written at the end are the 64-bit bit count of section 3.2 of RFC 1321 |
| Md5.PaddedBlocks | contrib/md5.c:256-277 | the final blocks are the padding of section 3.1 of RFC 1321 |
| Md5.Context.Final | contrib/md5.c:256-287 | the result is the digest of the whole message |
| Md5.HashInPieces | contrib/md5.c:205-287 | for every way of cutting a message into updates the digest is that of RFC 1321 |
| FifoCursor.MaskWraps | contrib/fifo_declare.h:116-133 | masking with size - 1 is one step round a ring of a power of two slots |
| FifoCursor.ReadSizeIsDistance | contrib/fifo_declare.h:125-128 | the read size is the number of slots between the cursors |
| FifoSteps.ProducerStepRefines | contrib/fifo_declare.h:175-193 | every load and store of a write leaves the queue alone but the last, which appends |
| FifoSteps.ConsumerStepRefines | contrib/fifo_declare.h:156-174 | every load and store of a read leaves the queue alone but the last, which removes what was read |
| FifoSteps.BulkWriteMoves | contrib/fifo_declare.h:175-193 | over any run after the call, a bulk write puts on the queue, at once, as many items as were free when it sampled the cursors, up to all, and returns that number; it ends with one step for each of them and one more |
| FifoSteps.BulkReadMoves | contrib/fifo_declare.h:156-174 | a bulk read takes off, at once, what was at the front when it sampled, as much as there was, up to the request, in as many steps and one more |
| FifoSteps.SingleWriteMoves | contrib/fifo_declare.h:201-212 | over any run, a single write looks once, at its first step: if the queue is full then it returns 0 at that step and puts nothing, otherwise it returns 1 with the second step after and puts its item once |
| FifoSteps.SingleReadMoves | contrib/fifo_declare.h:213-231 | a single read likewise: nothing if the queue is empty at its first step, otherwise the front of that moment, taken off once |
| FifoSteps.RunRecordsCalls | contrib/fifo_declare.h:116-235 | the calls on record are those of the schedule |
| FifoSteps.RunRefines | contrib/fifo_declare.h:116-235 | every interleaving is a run of a bounded queue |
| FifoSteps.NoLossNoDuplication | contrib/fifo_declare.h:116-235 | from the empty ring, what the reads brought followed by what is queued is what the writes took, of each call of the schedule the front it returned for; at most size - 1 are queued |
| RingFifo.Fifo.Write | contrib/fifo_declare.h:201-212 | appends unless size - 1 items are queued |
| RingFifo.Fifo.ReadIfNotEmpty | contrib/fifo_declare.h:222-231 | takes the oldest item, or says that there is none |
| RingFifo.Fifo.WriteCount | contrib/fifo_declare.h:175-193 | appends as much of the array as there is room for, in one piece or two |
| RingFifo.Fifo.ReadCount | contrib/fifo_declare.h:156-174 | takes as much as was asked for and is there, and leaves the rest of the array |
| RingFifo.Fifo.IsFull | contrib/fifo_declare.h:116-120 | full just when size - 1 items are queued |
| RingFifo.Fifo.IsEmpty | contrib/fifo_declare.h:121-124 | empty just when none is |
| SignalGraph.Raise | src/mii_vcd.c:444-477 | a raise ends on every graph and leaves every busy mark as it was |
| SignalGraph.RaiseEffect | src/mii_vcd.c:444-477 | without inversion, every hook of a signal that got past its filter is followed, but for those busy before |
| SignalGraph.RaiseReaches | src/mii_vcd.c:444-477 | exactly the signals that a path of free hooks through unblocked signals leads to end with the value, their flags set and the callbacks of their free hooks called; all others are untouched |
| SignalGraph.OnlyReachedAreCalled | src/mii_vcd.c:444-477 | no other callback is called: each new call is that of a free hook of such a signal, with the value raised |
| SignalGraph.ChainedSignalsGetTheValue | src/mii_vcd.c:444-477 | without filters every signal reachable through chains ends with the raised value, cycles included |
| SignalGraph.InvertedReaches | src/mii_vcd.c:444-477 | with inverted signals and no filters the signals reached are exactly those that chains of free hooks lead to; each ends with a value that such a chain brings, its flags set and its free hooks called |
| SignalGraph.AgreeingChains | src/mii_vcd.c:444-477 | so where all those chains bring the same value, it ends with that one |
| SignalGraph.RaisedByChains | src/mii_vcd.c:444-477 | on every graph, inverted and filtered signals together: what is raised ends with a value that a chain of free hooks brings it, inverted on the way as the chain says, all else is untouched, and each new call is that of a free hook of such a signal with a value so brought |
| SignalGraph.RaiseLists | src/mii_vcd.c:455-470 | on every graph the new calls are those at the ends of different walks over free hooks, one for each, in the order of the lists and a hook before what it is chained to, each with the value its walk brings; without filters every such walk makes its call |
| SignalGraph.NumberOfCalls | src/mii_vcd.c:455-470 | so without filters a callback is called exactly as often as there are walks to its hook: once where there is one |
| SignalGraph.UnchainedCalls | src/mii_vcd.c:455-470 | an unblocked signal with no chained hooks calls the callback of each free hook once, in the order of the list |
| SignalGraph.CallbacksSeeOldValue | src/mii_vcd.c:473-476 | the callbacks of the signal raised find its old value in it, unless a chain leads back to it |
| SignalGraph.PathIsFollowed | src/mii_vcd.c:455-470 | whatever a path leads to is raised |
| SignalGraph.RaisedHasPath | src/mii_vcd.c:455-470 | whatever is raised has a path leading to it |
| SignalGraph.ConnectedReaches | src/mii_vcd.c:488-504 | once connected, raising the source reaches all that raising the destination reached |
| Signals.Board.RaiseSignalFloat | src/mii_vcd.c:444-477 | the code on linked objects computes that raise, null signals ignored |
| Signals.Board.FollowHook | src/mii_vcd.c:456-469 | one turn of the loop: busy, notify, chain, not busy |
| Signals.Board.RaiseSignal | src/mii_vcd.c:480-485 | a raise keeps the floating flag |
| Signals.Board.ConnectSignal | src/mii_vcd.c:488-504 | refuses nothing, itself and a second connection; puts a new hook in front otherwise |
| Signals.Board.AllocHook | src/mii_vcd.c:358-367 | the new hook goes to the front of the list |
| Signals.Board.ListsAreDistinct | src/mii_vcd.c:358-367 | no hook is twice in a list, so that holds of every board |
| MishLine.Reserve | libmish/src/mish_line.c:34-59 | on success there is room for what was asked, the bytes kept; when it refuses, and that the line may have moved |
| MishPieces.BytesApart | libmish/src/mish_send.c:55-63 | holes are filled from the sequence buffer one after the other |
| MishSend.QueueSequence | libmish/src/mish_send.c:138-151 | a new hole, or a wider last one, appends exactly the bytes copied in |
| MishSend.QueueLine | libmish/src/mish_send.c:185-200 | a backlog line is appended whole |
| MishSend.LockKeeps | libmish/src/mish_send.c:45-64 | giving the holes their addresses changes no byte of what is to be sent |
| MishSend.SendSome | libmish/src/mish_send.c:92-101 | bytes that went out come off the front |
| MishSend.AllZeroIsNothing | libmish/src/mish_send.c:73-77 | all lengths zero means that nothing is left, and the other way round |
| MishSend.Output.Prep | libmish/src/mish_send.c:119-151 | room for the bytes and their zero, in a buffer that nothing points into yet |
| MishSend.Output.Queue | libmish/src/mish_send.c:156-166 | the string is appended to what is queued |
| MishSend.Output.QueueBacklog | libmish/src/mish_send.c:185-200 | so is a line, locked or not |
| MishSend.Output.Lock | libmish/src/mish_send.c:45-64 | locks the sequence buffer; what is pending stays the same |
| MishSend.Output.TakeOff | libmish/src/mish_send.c:73-101 | exactly the bytes written come off, over any number of vectors, empty ones included |
| MishSend.Output.Flush | libmish/src/mish_send.c:39-116 | sent bytes are the front of the queued ones; zero is returned only when all are gone (or given up on an error), with the list empty and the buffer unlocked unless there was nothing to send; a write of all that is pending ends it just when the last vector is not empty |
| VideoLines.TextMapsInverse | src/mii_video.c:225-237 | the row of a text address is the one whose 40 bytes contain it, holes having none |
| VideoLines.HiresMapsInverse | src/mii_video.c:214-223 | the line of a graphics address is the one whose 40 bytes contain it, holes having none |
| VideoLines.MarkMarks | src/mii_video.c:259-261 | setting the bit of a line marks that line only |
| VideoLines.ClearClears | src/mii_video.c:766-767 | clearing it clears that line only |
| VideoCache.CheckIsExact | src/mii_video.c:241-313 | a check marks the displayed lines that show the address, and no others, mixed mode included |
| VideoCache.LinePlace | src/mii_video.c:316-326 | where the bytes of a line lie: graphics lines at $2000, or $4000 with PAGE2 and not 80STORE, interleaved as on the Apple II; text and lores rows at $400 or $800; which lines are which by TEXT, MIXED and HIRES |
| VideoCache.LineStyle | src/mii_video.c:594-626 | how it is drawn: 40 or 80 columns, character set, flashing, hires, double hires in colour or not |
| VideoCache.WriteIsSeen | src/mii_video.c:849-851 | a processor write to those bytes marks the line, and drawing it shows the byte at its place |
| VideoCache.WriteKeepsInv | src/mii_video.c:241-313 | after any write every clean line is still right |
| VideoCache.DrawKeepsInv | src/mii_video.c:715-769 | drawing a line makes it clean and right |
| VideoCache.EndFrameKeepsInv | src/mii_video.c:791-797 | the flash phase changes only with all lines marked, or with no flashing characters |
| VideoCache.SwitchKeepsInv | src/mii_video.c:855-945 | accesses to the display switches keep clean lines right, but for three that change the picture without changing the renderer |
| VideoCache.UnmarkedAccessIsExact | src/mii_video.c:642-652 | an access to 80COL or MIXED keeps clean lines right just when it is harmless or every line it changes is dirty: those of the mixed area, and for 80COL all that do not show graphics |
| VideoCache.HarmlessIsExact | src/mii_video.c:642-652 | so with the screen drawn only the harmless ones do |
| VideoCache.Store80IsExact | src/mii.c:480-485 | an access to 80STORE moves no line just when it is harmless, and keeps clean lines right just when each has the same bytes where it was and where it is now |
| VideoCache.ResetIsExact | src/mii.c:776-776 | a reset, which looks for no renderer, keeps clean lines right just when the renderer in use is that of lores and each clean line was in 40 columns, outside the text area of mixed mode, and has the same bytes on the first page |
| VideoCache.ResetFromTextIsStale | src/mii.c:776-776 | an input for which it does not: any text screen; the renderer of text stays in use and no line is marked |
| VideoCache.Stale80Store | src/mii.c:480-485 | an input for which it does not: text on page 2, the pages differing in one shown byte |
| VideoCache.StepIsExact | src/mii_video.c:628-945 | of all events, namely writes, ticks, switch accesses, block transfers and resets, exactly the allowed ones keep clean lines right; which are allowed is said by switches, dirty bits and bytes before the event |
| VideoCache.CleanLinesAreCurrent | src/mii_video.c:694-813 | after any run of allowed events (all writes and ticks, and those accesses, transfers and resets that keep it so) every clean line shows what drawing it now would, and a changed picture has frame_dirty set |
| VideoCache.FullFrameIsRight | src/mii_video.c:711-809 | 192 ticks without a write leave all lines clean and right |
| VideoCache.FrameIsCounted | src/mii_video.c:771-798 | a frame is 193 ticks and is counted once; every sixteenth marks all lines unless the alternate character set is on |
| VideoCache.SeedMoves | src/mii_video.c:799-805 | frame_seed moves only at the start of a frame, and then whenever the picture is another one than when it last moved |
| VideoCache.OobMarks | src/mii_video.c:661-669 | sampling every 40 bytes marks the lines wholly in the range or containing its first byte; a touched line is missed just when it starts after the last sample |
| VideoCache.DmaIsExact | src/mii_video.c:654-669 | a block transfer keeps clean lines right just when it has put no new byte where a clean line that was missed shows it, the bank taken into account |
| VideoCache.DmaKeepsInv | src/mii_video.c:654-669 | so a transfer that misses no displayed line does, whatever its bytes |
| VideoCache.AlignedIsCovered | src/mii_video.c:654-669 | blocks of a multiple of 128 bytes at a multiple of 128 leave none |
| VideoCache.UnalignedDmaIsStale | src/mii_video.c:661-669 | an input that does: a disk block of 512 bytes at $0201, whose last byte is the first of line 0 |
| Video.Screen.CheckTextLores | src/mii_video.c:241-263 | the text check as code |
| Video.Screen.CheckHiresDhires | src/mii_video.c:277-313 | the graphics check as code |
| Video.Screen.Write | src/mii_video.c:849-851 | a processor write: check, then store |
| Video.Screen.OobWriteCheck | src/mii_video.c:661-669 | the sampling loop |
| Video.Screen.ModeChanged | src/mii_video.c:642-652 | marks all lines when the renderer changes |
| Video.Screen.AccessSwitch | src/mii_video.c:855-945 | the display switches |
| Video.Screen.DrawLine | src/mii_video.c:715-809 | one line of the timer, with the choice of the text renderer in mixed mode |
| Video.Screen.EndFrame | src/mii_video.c:791-798 | the end of a frame |
| Video.Screen.TimerCb | src/mii_video.c:693-813 | the coroutine from one yield to the next |
| SwitchBits.SetThenGet | src/mii_sw.h:138-142 | setting a switch sets that switch only |
| SwitchBits.Truncated | src/mii.c:368-368 | a 16-bit copy of the switches has the first sixteen of them |
| PageTable.ComputedIsDirect | src/mii.c:216-266 | the stretches of pages set one over the other come out as the priorities say |
| PageTable.TruncationMissesNothing | src/mii.c:430-430 | comparing with the 16-bit copy never misses a change of the map, whatever the two high switches |
| PageTable.LanguageCardBits | src/mii.c:409-429 | what a $C08x access does to the four switches of the card, and that it does nothing else |
| PageTable.AccessKeepsCoherent | src/mii.c:800-834 | after any memory access the table is what the priorities make of the switches, and no update is due |
| PageTable.TableFollowsSwitches | src/mii.c:760-834 | so it is after any run of accesses since reset |
| PageTable.LanguageCardTrace | src/mii.c:409-431 | high RAM is writable just when there was no even $C08x access since reset or two odd reads on end since the last; BSRREAD and BSRPAGE2 depend on the last access |
| PageTable.WriteSwitchBits | src/mii.c:478-521 | which write to $C000 to $C00B sets which mapping switch, and that it sets no other |
| PageTable.VideoSwitchBits | src/mii_video.c:855-945 | which access to $C00C to $C00F and $C050 to $C05F sets which display switch, and no other |
| PageTable.AccessBits | src/mii.c:800-834 | every switch after any access: set by its addresses, by the language card, or by $C3xx and $CFFF for the internal ROM; unchanged otherwise |
| PageTable.SwitchTrace | src/mii.c:760-834 | after any run since reset a display or mapping switch is on just when the last access that set it was to the address that turns it on |
| PageTable.RomTrace | src/mii.c:314-354 | the internal ROM at $C800 is selected just when some access to $C3xx that showed it has come since the last to $CFFF |
| PageTable.LowRamTrace | src/mii.c:216-243 | where reads and writes below $C000 go, main or auxiliary, by the addresses accessed since reset |
| PageTable.SlotTrace | src/mii.c:244-254 | whether reads of $C100 to $CFFF come from the internal ROM, by the addresses accessed since reset |
| PageTable.HighRamTrace | src/mii.c:255-266 | where reads and writes from $D000 up go, likewise |
| PageTable.VideoKeepsMap | src/mii.c:811-814 | the display switches that end in the video code are not part of the map |
| Cells.EntriesFit | src/mii.c:30-106 | an entry of the table stays within the block of its bank |
| Cells.CellsApart | src/mii.c:30-106 | under any switches no byte of RAM is seen at two addresses, even one for reading and one for writing |
| RamRuns.LastHitIsLast | src/mii.c:800-834 | the last access of a run that writes a cell, under the switches and the block of that moment |
| RamRuns.OtherAddressesKeep | src/mii.c:800-834 | a write leaves what every other address means, and its cell is not one that another address reads |
| RamRuns.RamworksSelects | src/mii.c:269-293 | a write to a RamWorks register selects the block it names if that is there and block 0 if not, and auxiliary addresses mean its bytes from then on |
| Memory.BankWrite | src/mii_bank.c:66-89 | the bytes go where the bank says, and nowhere else |
| Memory.BankRead | src/mii_bank.c:91-113 | the bytes come from there |
| Memory.Mii.SetPages | src/mii.c:169-183 | one stretch of pages |
| Memory.Mii.PageTableUpdate | src/mii.c:193-267 | the table computed in place |
| Memory.Mii.UpdateRamworks | src/mii.c:269-293 | a block that is not there is block 0; the bytes of the other blocks stay |
| Memory.Mii.DeselectCxrom | src/mii.c:314-337 | $CFFF ends the internal ROM at $C800 |
| Memory.Mii.SelectC3 | src/mii.c:339-354 | $C3xx begins it, unless SLOTC3ROM is on |
| Memory.Mii.AccessSoftSwitches | src/mii.c:356-596 | the generic soft switches, the update included |
| Memory.Mii.MemAccess | src/mii.c:800-834 | a read returns the byte of the cell its address means, a write changes that cell only, ROM never changes, and the table is up to date afterwards |
| Memory.Mii.RunBus | src/mii.c:800-834 | over any run of accesses, switch changes and block selections each byte read from RAM is the last one written before to that cell, or what it held at first; ROM stays |
| Memory.Mii.Reset | src/mii.c:760-793 | the switches after a reset, and the two bytes a cold one clears the vector with |
| TimerRuns.NoDrift | src/mii.c:921-939 | while every delay exceeds the overshoot, the remaining time is start plus delays minus cycles |
| TimerRuns.FiresWhenDue | src/mii.c:921-939 | the callback is called in the first run whose cycles reach its due time, once |
| TimerRuns.RunsJustWhenAhead | src/mii.c:929-935 | that condition is exact: otherwise the timer is at zero or below |
| TimerRuns.ShortDelayStops | src/mii.c:929-935 | and never runs again |
| Timers.TimerSet.Run | src/mii.c:921-939 | every registered timer once, lowest bit first |
| Decimal.AdcDigits | src/mii_65c02.c:229-247 | one decimal ADC: the two digits, the carry, and Z |
| Decimal.SbcDigits | src/mii_65c02.c:556-576 | one decimal SBC |
| Decimal.AdcDecimalFlags | src/mii_65c02.c:234-245 | N after a decimal ADC says that the number is 80 or more, V that just the operands or just the sum are |
| Decimal.SbcDecimalFlags | src/mii_65c02.c:556-576 | after a decimal SBC likewise, of the nines complement |
| Decimal.SbcZeroFlag | src/mii_65c02.c:559-562 | exactly when Z is right after a decimal SBC, by the operands |
| Decimal.EqualIsNotZero | src/mii_65c02.c:559-562 | it is not when equal numbers are subtracted |
| Decimal.AdcAllAdds | src/mii_65c02.c:224-249 | n bytes of ADC are addition of numbers of 2n digits with carry |
| Decimal.SbcAllSubtracts | src/mii_65c02.c:551-577 | n bytes of SBC are subtraction with borrow |
| Decimal.SbcUndoesAdc | src/mii_65c02.c:224-249 | subtracting what was added gives back the number, and the borrow is the carry |
| Decimal.AdcBinaryFlags | src/mii_65c02.c:250-257 | binary ADC: C is the carry, V says that the signed sum does not fit, N and Z are those of the result |
| Decimal.SbcBinaryFlags | src/mii_65c02.c:601-608 | binary SBC: likewise for the difference |
| StackRuns.JsrTarget | src/mii_65c02.c:403-412 | JSR jumps to its operand, unless the high byte lies where the return address goes |
| StackRuns.NextKeepsInv | src/mii_65c02.c:403-412 | each instruction of a well-behaved body keeps the live stack, S wrapping modulo 256 |
| StackRuns.FrameStays | src/mii_65c02.c:403-412 | a call keeps its return address while it is open |
| StackRuns.ReturnsAfterItsCall | src/mii_65c02.c:543-550 | every RTS of a balanced run resumes right after its JSR, with S and the live stack as before it |
| Cpu65C02.Cpu.Adc | src/mii_65c02.c:224-257 | ADC on the registers |
| Cpu65C02.Cpu.Sbc | src/mii_65c02.c:551-609 | SBC on the registers |
| Cpu65C02.Cpu.Jsr | src/mii_65c02.c:403-412 | JSR on registers and memory |
| Cpu65C02.Cpu.Rts | src/mii_65c02.c:543-550 | RTS |
| Cpu65C02.Cpu.Pha | src/mii_65c02.c:453-455 | PHA |
| Cpu65C02.Cpu.Pla | src/mii_65c02.c:472-476 | PLA |
| Ops.TableIsRegular | src/mii_65c02_ops.h:100-313 | name and mode give back the opcode, length goes with mode, branches by name |
| Ops.NameAndModeDecide | src/mii_65c02_ops.h:100-313 | a name and a mode belong to one opcode |
| AsmText.Hex2Reads | src/mii_65c02_asm.c:73-77 | what %02X prints is read back |
| RoundTrip.FindsIt | src/mii_65c02_asm.c:433-453 | the search through the table ends at the opcode that was printed |
| RoundTrip.FindsJsr | src/mii_65c02_asm.c:446-452 | JSR is found by its special case |
| RoundTrip.OperandReadsBack | src/mii_65c02_asm.c:261-385 | a printed operand is read back with its value, and in its mode but for the zero-page rule |
| RoundTrip.LineRoundTrip | src/mii_65c02_disasm.c:16-119 | the line of an instruction that is not a branch assembles to its bytes just when its operand is not below $100 with a zero-page form at hand |
| RoundTrip.ShortenedShrinks | src/mii_65c02_asm.c:338-349 | what a shortened line assembles to, if to anything, is shorter |
| RoundTrip.ProgramRoundTrip | src/mii_65c02_asm.c:124-533 | a sequence of such instructions, printed a line each, assembles back to its bytes just when none of them is shortened |
| RoundTrip.ShortOperandIsLost | src/mii_65c02_asm.c:338-349 | an input for which it does not: LDA $0012 |
| RoundTrip.DecimalOperand | src/mii_65c02_asm.c:78-81 | a decimal operand is read with the value of its digits just when that is below 10 |
| RoundTrip.CharacterOperand | src/mii_65c02_asm.c:82-88 | a character in quotes is read as its first place in the character set |
| AsmProgram.SearchOpcode | src/mii_65c02_asm.c:432-454 | the search loop |
| AsmProgram.SplitLines | src/mii_65c02_asm.c:124-147 | the text line by line |
| AsmProgram.JoinedIsAssembled | src/mii_65c02_asm.c:387-533 | the program is the bytes of its lines in order, unless one is an error |
| AsmProgram.SetAddresses | src/mii_65c02_asm.c:470-489 | the address of a line is the length of all before it |
| AsmProgram.Emit | src/mii_65c02_asm.c:524-532 | the bytes of every line at its address are the program |
| AsmProgram.Assemble | src/mii_65c02_asm.c:387-533 | the passes together give those bytes, or an error |
| AsmProgram.DisasmOne | src/mii_65c02_disasm.c:16-119 | prints the instruction whose bytes are there |

## Left out

- Signals.Board.RaiseSignalFloat: callbacks are recorded and do not raise or rewire signals; what they do is opaque here.
- SignalGraph.RaiseReaches: graphs with both inverted and filtered signals, where the order of the raises decides what is reached; of them `SignalGraph.RaisedByChains` says what a raise can do at most.
- SignalGraph.InvertedReaches: which value remains where chains bring different ones; it depends on the order of the hooks.
- MishSend.Output.Prep: sizes for which the reserve refuses; the C code goes on as if it had not.
- MishSend.Output.Queue: sequences beyond MISH_MAX_LINE_SIZE, for which the refusal of the reserve is ignored by its caller.
- MishSend.Output.Flush: the skip loop tests the count before the length; the C code looks at one vector past the end.
- MishSend.Output.Lock: the vectors point into lines of the backlog by their text; that lines stay allocated while queued is not shown.
- AudioThreads.StepKeepsInv: initialisation is one step, as it is under the mutex; shutdown is not modelled.
- FifoSteps.RunRefines: sequential consistency is assumed of FIFO_SYNC; weaker memory orders are not modelled.
- VideoCache.StepIsExact: a stale line is one drawn from other bytes, by another renderer or with other switches; its pixels may happen to be the same.
- VideoCache.DmaIsExact: blocks that run past $FFFF.
- VideoCache.CleanLinesAreCurrent: pixels and palettes; a drawn line is the record of what the renderer read. Palette and monochrome changes of the user interface are not modelled.
- Video.Screen.TimerCb: the cycles it asks to wait for, and the VBL flag.
- Memory.BankWrite: the page callbacks, which may take the access over; of them only that of page $C3 is modelled, in `Memory.Mii.Callback`.
- Memory.BankRead: the page callbacks, likewise.
- Memory.Mii.AccessSoftSwitches: the bytes it returns, and those kept in the soft switch page.
- Memory.Mii.Reset: the resets of the slots, and the bytes set in the soft switch page.
- Memory.Mii.RunBus: what the memory of a RamWorks block holds before its first write.
- Memory.Mii.MemAccess: the bytes that reads of $C000 to $CFFF return, and those kept in the soft switch page.
- PageTable.AccessKeepsCoherent: //c mode, soft switch overrides, and slot drivers that touch the switches or install callbacks.
- Timers.TimerSet.Run: callbacks that set timers; 64-bit overflow of the counts.
- Cpu65C02.Cpu.Jsr: the dummy read of the stack and the cycle counts.
- StackRuns.ReturnsAfterItsCall: which opcode bytes are in memory; a run is a sequence of instructions.
- RoundTrip.ProgramRoundTrip: branches, labels, EQUs, directives, the .db and .asc data lines, and undefined opcodes.
- RoundTrip.DecimalOperand: numbers that do not fit the int of the C code.
- AsmProgram.SetAddresses: .org directives; a program starts at 0.
- AsmProgram.Assemble: a line is taken apart on values (Assembler.AssembleLine), not in the fields of a line record; lines with labels or directives are not assembled.
- AsmProgram.DisasmOne: the address and hex dump columns, and branches.
- Interrupts, traps, the addressing modes and the other instructions of the 65C02.
- The audio backends, the user interfaces and libmui: input, output and foreign libraries.
- Floating point: speaker ramps, colours, joystick, polygon clipping.
- The ROM list, configuration files, containers and queues, which would only add easy members.
