# Verified models of the small Linux drivers

Nine of the repository's drivers hold a state machine, an interleaving protocol or a
buffer algorithm that stands on its own once the kernel calls around it get small
contracts. This project models them in Dafny and proves what they promise.
`dafny verify dfyconfig.toml` checks everything.

Every size is a parameter: thread, iteration and round counts, disk, ring, FIFO and
partition sizes, panel geometry, HZ, device counts. Nothing is a finite check.

| module | driver | in one line |
|---|---|---|
| `LockedCounter` | 12.并发控制 | n threads, one counter, three lock modes: exclusion, exact totals, bounds, round isolation, termination |
| `RacyOutcomes` | 12.并发控制 | without a lock, for all n and m, exactly which lists of values the experiment can print |
| `VirtDisk` | 25.块设备 | request-queue path and bio path both refine one disk and end up equal |
| `ButtonWait` | 09.阻塞与非阻塞IO | no lost wake-up, debounce law, what a sole reader gets |
| `LoopbackUart` | 24.串口 | ring drain: FIFO over whole runs, counts, progress |
| `VirtMtd` | 31.mtd | flash-and-verify tool on the RAM flash: success exactly when it fits |
| `Ssd1306` | 28.Framebuffer | panel RAM equals video memory over whole runs |
| `SoftWatchdog` | 14.watchdog | references are pending fire timers; when reboots can come |
| `FakeIio`, `FakeIioInterleaving` | 22.iio | event counts in closed form; consistent snapshots |
| `CharDevice` | 01.字符设备 | one memory, many cursors; chunked round trip |

`Memory` holds bytes and the kernel's copy primitives, `Kernel` error numbers and word
width, `Arithmetic` a few facts about products and remainders.

## How the code is rendered

Drivers that run one call at a time are classes over arrays with loops where the
source has loops: the disk, the UART, the flash and its tool, the framebuffer, the
watchdog, the sensor's handlers and the character device. Each method is tied to a
function on values (`Model()` or `State()` before and after), and the statements
about whole runs are about that function.

Protocols whose point is interleaving are state machines with one step per atomic
action, and a run is any sequence of enabled steps: the counter experiment
(`ThreadStep` follows 12.并发控制/driver/concurrency_control.c lines 33-55 with `result++`
split into its load and its store, `MainStep` follows lines 57-84), the button
(`ReadStep` follows 09.阻塞与非阻塞IO/driver/block_io.c lines 37-71 with
`wait_event_interruptible` spelled out, `PollStep` follows nonblock_io.c lines 74-87,
`Next` the timer callback and the interrupt, lines 87-107), and the sensor's bytes
(`TickStep`, `TrigStep`, `WriteStep` in `FakeIioInterleaving`).

Assumptions about the kernel, each part of the model's text:

- spinlocks and mutexes exclude, completions count, a wake-up under the queue lock
  is one step, a timer runs at or after its expiry and in expiry order, one timer's
  callback never runs twice at once; time does not wrap;
- the block layer hands over requests with at least one segment, no empty segment,
  all on the disk; `__blk_end_request_cur` moves on by the segment's whole sectors;
- the MTD core checks ranges and adds the partition offset, the MTD character device
  cuts a transfer off at the end; reading the file to flash returns between one byte
  and what was asked for and is left, and never fails;
- the serial core's `uart_put_char` (`LoopbackUart.UartPort.PutChar`) stores a byte if the
  ring has a free cell besides the one it keeps empty;
- the watchdog core takes a timeout from 1 to 65535, drops a pretimeout that is not below
  a new timeout, and refuses a pretimeout that is not below the timeout unless that is 0;
- the SSD1306 data sheet's addressing commands (20h, 21h, 22h), I2C transfers succeed;
- `copy_from_user` that stops early clears the rest of its target.

Where the code does something a reader might not expect, the model does the same:

- `char_dev_read` of the button drivers returns what `copy_to_user` returns, so 0 on
  success; the value itself is what the model records.
- A framebuffer write that faults changes video memory and returns without a push, so a
  clean display can be out of date: `FaultedWriteBreaks` has the input, and
  `FaultedWriteCoherentIff` and `AlwaysCoherentIff` say exactly when it stays up to date.
- The sensor's frequency check sets an error and carries on (`FakeIioDev.WriteRaw`).
- A cursor of the character device can stand at the end of memory, but no seek may
  go there, not even a relative seek by 0 (`CharFile.Llseek`, `SeekBackIff`).
- A watchdog ping reads the clock once for each timer. If a whole pretimeout passes in
  between, the warning comes no earlier than the reboot, and the module's last reference
  can go while the warning timer is armed: `SlowPingBreaksQuiet` has the run,
  `QuietIffPrompt` and `WarnsFirstIffPrompt` the exact condition. No statement about runs
  assumes prompt pings unless it says so.
- An out-of-range watchdog margin leaves the timeout at 0 (`InitialTimeout`). Then a
  pretimeout makes the difference of the two wrap, and even an instant ping arms a late
  warning (`ZeroTimeoutBreaksQuiet`); the condition covers this.

## Model

| member | source | states |
|---|---|---|
| LockedCounter.MutualExclusion | 12.并发控制/driver/concurrency_control.c:40-50 | for any n, m, rounds and every interleaving, in both locked modes at most one of all threads ever started is between lock and unlock |
| LockedCounter.LockedTotal | 12.并发控制/driver/concurrency_control.c:38-52 | in both locked modes, and with a single thread in any mode, every printed value is n*m as a 32-bit word, and n*m itself when that fits |
| LockedCounter.RacyBounds | 12.并发控制/driver/concurrency_control.c:45 | in every mode, with n at least 1 and m at least 2 and n*m below 2^32, each printed value lies between 2 and n*m |
| RacyOutcomes.BoundsIffFits | 12.并发控制/driver/concurrency_control.c:28-45 | without a lock, for all n and m, every run prints only possible values if and only if n*m is below 2^32 |
| RacyOutcomes.RacyOutcomesExactly | 12.并发控制/driver/concurrency_control.c:68-80 | without a lock and for all n and m that fit, some interleaving of the whole experiment prints a given list if and only if it has one possible value per round: n*m alone for at most one thread, 1 to n for m = 1, 2 to n*m otherwise |
| RacyOutcomes.AnyValueNext | 12.并发控制/driver/concurrency_control.c:68-80 | from any round boundary an interleaving of that round prints any chosen possible value, modulo 2^32 |
| RacyOutcomes.Advance | 12.并发控制/driver/concurrency_control.c:38-51 | without a lock any number of permitted iterations can run undisturbed, and the counter grows by exactly that number |
| RacyOutcomes.LoseFirst | 12.并发控制/driver/concurrency_control.c:45 | one stale store by a thread in its first iteration wipes out any x iterations of the others |
| RacyOutcomes.LoseSecond | 12.并发控制/driver/concurrency_control.c:45 | a second stale store leaves the counter at 2 whatever the first thread did in between |
| RacyOutcomes.FinishRound | 12.并发控制/driver/concurrency_control.c:77-80 | once all loops are done the round can complete, be waited for slot by slot, and print the counter as it stands |
| LockedCounter.RoundIsolation | 12.并发控制/driver/concurrency_control.c:69-79 | whenever the main thread is about to reset the counter every completion count is 0 and no move of any other thread can touch counter, locks or completions |
| LockedCounter.StragglersAreHarmless | 12.并发控制/driver/concurrency_control.c:52-54 | at any time a thread left over from an earlier round changes nothing shared |
| LockedCounter.DeadlockFreedom | 12.并发控制/driver/concurrency_control.c:40-52 | in all lock modes a state that keeps the invariant and is not final has an enabled step |
| LockedCounter.StepMeasure | 12.并发控制/driver/concurrency_control.c:38-80 | every step of every thread lowers the measure over rounds, iterations and program points by exactly 1 |
| LockedCounter.MeasureAtEnd | 12.并发控制/driver/concurrency_control.c:83 | the measure, a natural number, is 0 exactly when the main thread is done and all threads have exited |
| LockedCounter.WholeRunLength | 12.并发控制/driver/concurrency_control.c:68-83 | no run is longer than a number fixed by the constants, and a run is complete exactly when it has that length, whatever the schedule |
| LockedCounter.RoundStepsIs | 12.并发控制/driver/concurrency_control.c:68-80 | that number counts 3 + 2n + n*(4m+2) steps for each round |
| LockedCounter.RunExperiment | 12.并发控制/driver/concurrency_control.c:57-84 | under a scheduler that picks any enabled step the experiment ends and prints one value per round, exact if locked, within bounds if it fits |
| LockedCounter.StepKeepsInv | 12.并发控制/driver/concurrency_control.c:33-84 | every step of every thread keeps control flow, completions, exclusion, exact count, bounds and the facts about printed values |
| LockedCounter.ReachedInv | 12.并发控制/driver/concurrency_control.c:33-84 | every state any interleaving reaches satisfies that invariant |
| VirtDisk.VirtDisk.DrainQueue | 25.块设备/driver/virt-disk.c:25-50 | the queue loop ends with the queue empty, having made exactly the sector-driven copies of every segment of every request in order |
| VirtDisk.VirtDisk.MakeRequest | 25.块设备/driver/virt-disk.c:52-77 | the bio loop makes exactly the byte-cursor copies of the bio's segments in order |
| VirtDisk.VirtDisk.Transfer | 25.块设备/driver/virt-disk.c:40-46 | one segment is copied in the direction of the transfer and nothing else changes |
| VirtDisk.RequestQueue.EndCur | 25.块设备/driver/virt-disk.c:47 | the held request moves on by its segment's whole sectors; the result tells whether segments remain |
| VirtDisk.RequestQueue.Fetch | 25.块设备/driver/virt-disk.c:33 | the first pending request becomes the held one, or none is held when nothing is pending |
| VirtDisk.QueueStep | 25.块设备/driver/virt-disk.c:35-48 | ending one segment leaves exactly the rest of the plan to do, within a request and across to the next |
| VirtDisk.CursorsAgree | 25.块设备/driver/virt-disk.c:37-72 | sector counter and byte cursor put every segment in the same place if and only if all segments but the last cover whole sectors |
| VirtDisk.MergedPlan | 25.块设备/driver/virt-disk.c:61-73 | contiguous bios merged into one transfer go where they would go one by one |
| VirtDisk.PathsEquivalent | 25.块设备/driver/virt-disk.c:33-73 | bios merged into aligned requests in any way and drained from the queue give the same copies in the same order as the bios submitted one by one |
| VirtDisk.QueueCursorsAgree | 25.块设备/driver/virt-disk.c:33-73 | over a whole queue the sector counter makes the byte cursor's copies if and only if every request is aligned |
| VirtDisk.QueueRefines | 25.块设备/driver/virt-disk.c:33-49 | draining any queue of aligned requests amounts to applying the requests one after the other to an abstract disk |
| VirtDisk.BiosRefine | 25.块设备/driver/virt-disk.c:61-73 | submitting any bios amounts to applying them one after the other to the same abstract disk |
| VirtDisk.MergedReady | 25.块设备/driver/virt-disk.c:33-37 | requests merged from contiguous bios that fit the disk and have no empty segment are ones the queue loop can be handed |
| VirtDisk.BothPaths | 25.块设备/driver/virt-disk.c:25-77 | end to end: the same bios through the queue on one disk and one by one on an equal one leave equal disks and memories, as the abstract disk says |
| VirtDisk.SubmitAll | 25.块设备/driver/virt-disk.c:52-77 | bios submitted one by one leave disk and memory as the concatenated bio plans say |
| VirtDisk.RefinesDisk | 25.块设备/driver/virt-disk.c:61-73 | the copies of one transfer amount to one write of the gathered segments, or one layout of a stretch of disk over them |
| VirtDisk.WriteRefines | 25.块设备/driver/virt-disk.c:70 | after a write the disk holds the segments end to end, the rest of the disk and all memory unchanged |
| VirtDisk.GatherLoaded | 25.块设备/driver/virt-disk.c:67 | after a read, segments that do not overlap hold the stretch of disk that was read |
| VirtDisk.LoadedFrame | 25.块设备/driver/virt-disk.c:67 | a read changes no memory outside its segments |
| VirtDisk.ReadAfterWrite | 25.块设备/driver/virt-disk.c:33-73 | round trip: what is written from any segments is read back into any others that do not overlap, on the bio path always, on the queue path for aligned requests |
| ButtonWait.NoLostWakeup | 09.阻塞与非阻塞IO/driver/block_io.c:43-96 | with any number of readers and pollers and any interleaving, none is asleep while the flag is set and the callback has done its wake-up |
| ButtonWait.StepKeepsWait | 09.阻塞与非阻塞IO/driver/nonblock_io.c:74-112 | every step keeps the reason: a sleeping reader is queued, a testing poller is registered, and either saw the flag clear since |
| ButtonWait.NonblockNeverWaits | 09.阻塞与非阻塞IO/driver/block_io.c:43-47 | an O_NONBLOCK reader is always runnable and returns at once from a clear flag |
| ButtonWait.BlocksUntilWoken | 09.阻塞与非阻塞IO/driver/block_io.c:43-60 | a blocking reader that finds the flag clear goes through the wait macro to sleep, changing nothing else, and the wake-up lets it run again |
| ButtonWait.ReadReturns | 09.阻塞与非阻塞IO/driver/block_io.c:43-70 | with the flag set, a read under way anywhere, a woken sleeper six steps from its end included, returns the flag's value to user space, clears the flag and is out of the queue; everything else stays |
| ButtonWait.ReadCall | 09.阻塞与非阻塞IO/driver/block_io.c:37-71 | a call of `read`: the flag's value if it is set; otherwise -EAGAIN at once if it must not block, and sleep in the queue if it may and no signal is pending |
| ButtonWait.ReadBlocks | 09.阻塞与非阻塞IO/driver/block_io.c:43-60 | with the flag clear a read ends with -EAGAIN, or -ERESTARTSYS on a pending signal, or sleeps, and nothing else changes |
| ButtonWait.ReadEnds | 09.阻塞与非阻塞IO/driver/block_io.c:43-70 | in any reached state a read ends in one of three ways: with a value and the flag cleared, on a clear flag with O_NONBLOCK, or on a clear flag with a signal that it uses up |
| ButtonWait.SignalEndsSleep | 09.阻塞与非阻塞IO/driver/block_io.c:49-59 | a signal gets a sleeping reader out of the queue and back to user space in three steps, without a value |
| ButtonWait.CallbackDoes | 09.阻塞与非阻塞IO/driver/block_io.c:87-96 | a callback that finds the pin low sets the flag, counts itself and leaves nobody asleep; one that finds it high does nothing |
| ButtonWait.InterruptDecidesLater | 09.阻塞与非阻塞IO/driver/block_io.c:87-107 | an interrupt fires the callback d later, and the pin as it is then decides whether the flag is set |
| ButtonWait.PressReachesSleeper | 09.阻塞与非阻塞IO/driver/block_io.c:43-96 | a reader asleep on a clear flag, a callback that finds the pin low, six steps of the reader: `read` returns 1 and the flag is clear again |
| ButtonWait.PollEnds | 09.阻塞与非阻塞IO/driver/nonblock_io.c:74-87 | a poll on a set flag reports it within two steps and leaves the queue, on a clear flag it goes to sleep; it never ends on a clear flag |
| ButtonWait.DebounceLaw | 09.阻塞与非阻塞IO/driver/block_io.c:87-107 | every callback runs at least d after the latest interrupt, callbacks are at least d apart, low callbacks are no more than callbacks and those no more than interrupts |
| ButtonWait.StepKeepsTrace | 09.阻塞与非阻塞IO/driver/block_io.c:104 | every step keeps the timed trace: an armed timer is set for d after the latest interrupt |
| ButtonWait.SoleReaderCounts | 09.阻塞与非阻塞IO/driver/block_io.c:43-70 | with at most one reader every successful read yields 1 and successful reads are no more than low callbacks, which are no more than interrupts |
| ButtonWait.StepKeepsSole | 09.阻塞与非阻塞IO/driver/block_io.c:67-68 | with at most one reader the flag stays set from the test to the clear |
| ButtonWait.ZeroReadIffRivals | 09.阻塞与非阻塞IO/driver/block_io.c:43-68 | a successful read can yield 0 in some run if and only if there are two readers or more |
| LoopbackUart.MaskIsMod | 24.串口/driver/serial-virt.c:50 | bitwise and with size minus one is the remainder, for every power of two |
| LoopbackUart.MaskedDifference | 24.串口/driver/serial-virt.c:56 | the masked difference of two ints, negative ones included, is the remainder |
| LoopbackUart.RingMasks | 24.串口/driver/serial-virt.c:50-56 | the masks of the driver and of the ring macros give next position, characters pending and characters free |
| LoopbackUart.UartPort.StartTx | 24.串口/driver/serial-virt.c:28-61 | one call sends a pending x_char alone and forgets it, or changes nothing if stopped or empty, or moves the first bytes in order, as many as the FIFO holds and at least one; counts, wake-up and push to match |
| LoopbackUart.UartPort.SendLoop | 24.串口/driver/serial-virt.c:44-54 | the do-while loop ends after min(pending, max(1, fifosize)) bytes |
| LoopbackUart.UartPort.SendOne | 24.串口/driver/serial-virt.c:46-51 | the byte at the tail moves from the ring to the receive side |
| LoopbackUart.UartPort.TxEmpty | 24.串口/driver/serial-virt.c:15-21 | true exactly when nothing waits |
| LoopbackUart.UartPort.CharsPending | 24.串口/driver/serial-virt.c:56 | the masked count is the number of bytes that wait |
| LoopbackUart.FifoOverRun | 24.串口/driver/serial-virt.c:34-54 | over any run, looped bytes followed by waiting bytes are the earlier ones followed by every accepted byte in order |
| LoopbackUart.TxOverRun | 24.串口/driver/serial-virt.c:35-51 | over any run the transmit count grows by bytes looped back plus x_chars sent, modulo 2^32 |
| LoopbackUart.DrainProgress | 24.串口/driver/serial-virt.c:40-54 | n calls without pushes send exactly the first min(pending, n * max(1, fifosize)) bytes |
| LoopbackUart.XSentOnce | 24.串口/driver/serial-virt.c:34-38 | over any run the x_chars sent, with the one that may still wait, are no more than those handed over and the one that waited before |
| LoopbackUart.XCharFirst | 24.串口/driver/serial-virt.c:34-54 | a pending x_char takes one call of its own, also on a stopped port: n + 1 calls then do what n calls do without it |
| LoopbackUart.SendXGoesFirst | 24.串口/driver/serial-virt.c:34-38 | an x_char handed over goes out with the next call, ahead of all that waits |
| LoopbackUart.StopAndGo | 24.串口/driver/serial-virt.c:40-42 | a stopped port keeps everything for any number of calls, and sends as usual once it is let go on |
| VirtMtd.MtdChip.Erase | 31.mtd/driver/virt_mtd.c:25-46 | unaligned address or length is refused and changes nothing, otherwise the range becomes 0xff and nothing else |
| VirtMtd.MtdChip.Read | 31.mtd/driver/virt_mtd.c:48-56 | the range of the chip arrives in the buffer |
| VirtMtd.MtdChip.Write | 31.mtd/driver/virt_mtd.c:58-66 | the buffer replaces the range of the chip and nothing else |
| VirtMtd.TableTiles | 31.mtd/driver/virt_mtd.c:12-23 | the partition table cuts any chip of 16K or more into two adjacent partitions that cover it, block-aligned if the chip is |
| VirtMtd.MtdFile.MemErase | 31.mtd/test/mtdchar_test.c:62 | the erase request succeeds exactly on an aligned range inside the partition |
| VirtMtd.EraseLengthIsLeast | 31.mtd/test/mtdchar_test.c:59-61 | the erase length is the least multiple of the block size that covers the file |
| VirtMtd.WriteAll | 31.mtd/test/mtdchar_test.c:68-82 | for any chunk sizes the writing loop ends with the file at the start of the partition and the rest of the chip unchanged |
| VirtMtd.VerifyAll | 31.mtd/test/mtdchar_test.c:85-106 | for any chunk sizes the verifying loop returns 0 if and only if the partition starts with the file |
| VirtMtd.FlashAndVerify | 31.mtd/test/mtdchar_test.c:52-108 | on a partition of whole erase blocks the tool returns 0 if and only if the file is no larger than the partition; on any other, if and only if the partition is non-empty, starts on a block (or the file is empty) and the file's least cover in whole blocks fits; then file, 0xff up to that cover, everything else unchanged; otherwise nothing changes |
| VirtMtd.Flash | 31.mtd/test/mtdchar_test.c:52-108 | the same of the code itself, with the erase length as the tool computes it |
| VirtMtd.LeastCoverIs | 31.mtd/test/mtdchar_test.c:59-61 | the erase length is the one multiple of the block size that covers the file with less than a block to spare |
| Ssd1306.PushFrame | 28.Framebuffer/driver/ssd1306fb.c:48-54 | a push of w*h/8 bytes from the origin fills the window cell by cell and brings the pointer back to the origin |
| Ssd1306.PointerMoves | 28.Framebuffer/driver/ssd1306fb.c:228-261 | in the programmed window the pointer goes along the row, to the next page, and from the last cell to the first |
| Ssd1306.RangeCommands | 28.Framebuffer/driver/ssd1306fb.c:237-261 | the three bytes of a range command set that range and put the pointer at its start |
| Ssd1306.DisplayCoheres | 28.Framebuffer/driver/ssd1306fb.c:48-54 | after any push panel RAM is video memory and the panel is ready for the next push |
| Ssd1306.CoherentOverRun | 28.Framebuffer/driver/ssd1306fb.c:56-106 | over every run of writes, blits, mmap stores, deferred i/o and blanking: no dirty page and no faulted write since the last push means panel RAM is video memory |
| Ssd1306.AlwaysCoherentIff | 28.Framebuffer/driver/ssd1306fb.c:56-106 | in every state of a run panel RAM is video memory whenever no page is dirty, if and only if every write that faulted with no page dirty was harmless |
| Ssd1306.OpKeepsInv | 28.Framebuffer/driver/ssd1306fb.c:56-106 | each call keeps that |
| Ssd1306.FaultedWriteCoherentIff | 28.Framebuffer/driver/ssd1306fb.c:76-79 | a write that faults leaves a coherent panel coherent if and only if video memory already held the readable bytes followed by zeros |
| Ssd1306.FaultedWriteBreaks | 28.Framebuffer/driver/ssd1306fb.c:76-79 | a two-byte write that faults after the first leaves the panel out of date with no page dirty |
| Ssd1306.Ssd1306Fb.Init | 28.Framebuffer/driver/ssd1306fb.c:141-272 | from any panel state, a command half received included, the init sequence leaves the window programmed, the pointer at the origin, video memory shown, the multiplex ratio set and the display on |
| Ssd1306.Ssd1306Fb.Contrast | 28.Framebuffer/driver/ssd1306fb.c:146-152 | the first two bytes sent leave no command open, whatever the panel was waiting for |
| Ssd1306.Ssd1306Fb.DisplaySettings | 28.Framebuffer/driver/ssd1306fb.c:146-226 | the settings commands leave no command open and, on a panel with none open, leave addressing mode, window and pointer alone |
| Ssd1306.Ssd1306Fb.AddressingMode | 28.Framebuffer/driver/ssd1306fb.c:228-235 | horizontal addressing is selected, nothing else changes |
| Ssd1306.Ssd1306Fb.ColumnRange | 28.Framebuffer/driver/ssd1306fb.c:237-248 | the columns are 0 to width-1 and the column pointer is 0 |
| Ssd1306.Ssd1306Fb.PageRange | 28.Framebuffer/driver/ssd1306fb.c:250-261 | the pages are 0 to height/8-1 and the page pointer is 0 |
| Ssd1306.Ssd1306Fb.Display | 28.Framebuffer/driver/ssd1306fb.c:48-54 | the whole of video memory is sent as one data message |
| Ssd1306.Ssd1306Fb.Write | 28.Framebuffer/driver/ssd1306fb.c:62-85 | a positive result counts the bytes up to the end of video memory, which are stored, passed over and shown on the panel; no room is -EINVAL, a faulting buffer -EFAULT with the readable bytes and zeros stored and no push; all other bytes stay |
| Ssd1306.WrittenStores | 28.Framebuffer/driver/ssd1306fb.c:62-85 | the same of the function that writes are reasoned with |
| Ssd1306.ChunksAsOne | 28.Framebuffer/driver/ssd1306fb.c:62-85 | writes in any chunks through the file position store what one write of the whole stores, cut off at the end, and the panel shows it |
| Ssd1306.StoreReachesPanel | 28.Framebuffer/driver/ssd1306fb.c:56-60 | a byte stored through mmap is in its place on the panel after the next deferred i/o, whatever is written elsewhere, pushed or blanked in between |
| Ssd1306.BlitShows | 28.Framebuffer/driver/ssd1306fb.c:100-106 | after a blit every cell of the panel shows its byte of the image |
| Ssd1306.Ssd1306Fb.WriteCmd | 28.Framebuffer/driver/ssd1306fb.c:17-30 | the panel receives one command byte |
| Ssd1306.Ssd1306Fb.WriteData | 28.Framebuffer/driver/ssd1306fb.c:32-46 | the panel receives the data behind one control byte |
| Ssd1306.Ssd1306Fb.DeferredIo | 28.Framebuffer/driver/ssd1306fb.c:56-60 | no page is dirty any more and the panel shows video memory |
| Ssd1306.Ssd1306Fb.ImageBlit | 28.Framebuffer/driver/ssd1306fb.c:100-106 | video memory is the image and the panel shows it |
| Ssd1306.Ssd1306Fb.Blank | 28.Framebuffer/driver/ssd1306fb.c:87-98 | the display is switched on or off and nothing else changes |
| SoftWatchdog.RefsAreTimers | 14.watchdog/driver/soft_wdt.c:38-79 | every ping, stop, fire, warning and field change keeps the driver's module references equal to its pending fire timers |
| SoftWatchdog.QuietWhenUnreferenced | 14.watchdog/driver/soft_wdt.c:38-79 | over any run, with any number of devices and any module parameters, the references are the pending fire timers; and if all pings were prompt, no reference left means no timer of either kind is armed |
| SoftWatchdog.QuietIffPrompt | 14.watchdog/driver/soft_wdt.c:53-79 | the last reference can never go before the last timer, at any point of a run and whatever follows short of another ping, if and only if all pings of the run were prompt |
| SoftWatchdog.QuietAheadIff | 14.watchdog/driver/soft_wdt.c:38-79 | in any state that holds if and only if every pending warning comes before its reboot |
| SoftWatchdog.SlowPingBreaksQuiet | 14.watchdog/driver/soft_wdt.c:57-64 | a ping of one device held up for a second ends in a reboot timer gone, no reference left and a warning timer armed |
| SoftWatchdog.ZeroTimeoutBreaksQuiet | 14.watchdog/driver/soft_wdt.c:57-117 | so does an instant ping when an out-of-range margin left the timeout at 0 |
| SoftWatchdog.WarnsFirstIffPrompt | 14.watchdog/driver/soft_wdt.c:53-67 | in every state of a run all pending warnings come before their reboots, whatever became of the fields, if and only if all pings of the run were prompt |
| SoftWatchdog.WarningFirstIff | 14.watchdog/driver/soft_wdt.c:57-64 | a ping leaves a warning pending exactly when there is a pretimeout, and before the reboot if and only if there is a timeout and less than the pretimeout passes between the two clock reads |
| SoftWatchdog.TimingOverRun | 14.watchdog/driver/soft_wdt.c:53-67 | over any run every reboot comes at least the ping-time timeout after that device's last ping; and if all pings were prompt, a pending warning expires before its reboot |
| SoftWatchdog.RecordedExactly | 14.watchdog/driver/soft_wdt.c:38-51 | over any run the reboots on record are exactly one for each fire timer that went off, and the notifications one for each pre timer, in order, by that device at that time |
| SoftWatchdog.RebootAfterLastPing | 14.watchdog/driver/soft_wdt.c:38-79 | every reboot on record was set off by a ping of its device, with no ping, stop or reboot of it in between and at least timeout*HZ as it was at that ping gone by |
| SoftWatchdog.WarningAfterLastPing | 14.watchdog/driver/soft_wdt.c:46-66 | every notification on record was set off by a ping of its device that found a pretimeout, with no ping, stop or notification in between and at least (timeout-pretimeout)*HZ gone by |
| SoftWatchdog.SetThenPing | 14.watchdog/driver/soft_wdt.c:57-66 | a new timeout counts from the next ping on, with the pretimeout only if that is below |
| SoftWatchdog.FedNeverReboots | 14.watchdog/driver/soft_wdt.c:38-67 | over any run a device whose last ping is never its timeout ago causes none of the reboots |
| SoftWatchdog.StoppedStaysQuiet | 14.watchdog/driver/soft_wdt.c:69-79 | over any run, a device with no timer armed causes neither reboot nor notification until it is pinged again |
| SoftWatchdog.StopDisarms | 14.watchdog/driver/soft_wdt.c:69-79 | a stop leaves the device without timers and gives back the reference its pending fire timer held, if any |
| SoftWatchdog.StepKeepsInv | 14.watchdog/driver/soft_wdt.c:38-79 | every event keeps reference count, field ranges, expiry of fire timers and reboot times |
| SoftWatchdog.Softdog.PingDev | 14.watchdog/driver/soft_wdt.c:53-67 | both timers re-armed or the warning dropped, a reference taken exactly if no fire timer was pending |
| SoftWatchdog.Softdog.StopDev | 14.watchdog/driver/soft_wdt.c:69-79 | both timers gone, the reference given back exactly if the fire timer was pending |
| SoftWatchdog.Softdog.FireDev | 14.watchdog/driver/soft_wdt.c:38-44 | the reference is given back and one reboot, by this device and now, is on record |
| SoftWatchdog.Softdog.WarnDev | 14.watchdog/driver/soft_wdt.c:46-51 | the warning timer is used up and one notification, by this device and now, is on record |
| SoftWatchdog.Softdog.Init | 14.watchdog/driver/soft_wdt.c:94-144 | all devices end up registered, or after any failure none and the memory is freed, with the error passed on |
| SoftWatchdog.Softdog.Exit | 14.watchdog/driver/soft_wdt.c:148-158 | every device is unregistered; the memory freed holds no fire timer, and no timer at all if and only if every pending warning precedes its reboot |
| FakeIio.Channel0Closed | 22.iio/driver/fake_iiodev.c:230-250 | from any counter value over any n ticks channel 0 raises a closed-form number of events in either direction, between n/256 and n/256+1 |
| FakeIio.Channel1Cycles | 22.iio/driver/fake_iiodev.c:231-250 | over 256k ticks channel 1 raises exactly 2k events if its threshold is at most 127 and none otherwise |
| FakeIio.Channel0Events | 22.iio/driver/fake_iiodev.c:235-250 | channel 0 raises one event for each value met among the n after the start |
| FakeIio.Channel1Events | 22.iio/driver/fake_iiodev.c:235-250 | channel 1 raises one event for each value whose half is met |
| FakeIio.TickCount | 22.iio/driver/fake_iiodev.c:235-250 | a tick raises an event of a channel and direction exactly if the channel is enabled and meets that threshold, and at most one |
| FakeIio.TickedDone | 22.iio/driver/fake_iiodev.c:229-250 | the counter steps and wraps, its half follows, and the events come in order: channel 0 rising, falling, channel 1 rising, falling |
| FakeIio.FakeIioDev.LuxAutoChange | 22.iio/driver/fake_iiodev.c:222-262 | the counter steps and wraps, the second channel is its half, the events of both channels follow in order, the timer is set for the next tick |
| FakeIio.FakeIioDev.TriggerHandler | 22.iio/driver/fake_iiodev.c:264-282 | the sample is both channels followed by zeros |
| FakeIio.FakeIioDev.WriteEventConfig | 22.iio/driver/fake_iiodev.c:142-155 | one channel's enable is set, nothing else changes |
| FakeIio.FakeIioDev.WriteEventValue | 22.iio/driver/fake_iiodev.c:185-209 | one threshold is set to the low byte of the value; an unknown direction is refused |
| FakeIio.FakeIioDev.WriteRaw | 22.iio/driver/fake_iiodev.c:101-120 | only the integration time can be written; any value of it is stored and the timer moved |
| FakeIioInterleaving.SnapshotsConsistent | 22.iio/driver/fake_iiodev.c:229-277 | in every byte-level interleaving each pushed sample has its second byte half its first, belongs to one tick, and samples follow tick order modulo 256 |
| FakeIioInterleaving.Serialised | 22.iio/driver/fake_iiodev.c:185-262 | every byte-level interleaving of ticks, writers and the trigger handler is equivalent to whole ticks and whole threshold writes one after the other: counter, half, thresholds and event count agree whenever no tick is under way |
| FakeIioInterleaving.WholeTick | 22.iio/driver/fake_iiodev.c:229-259 | an undisturbed tick steps both channels and compares both, in six moves, and changes nothing else |
| FakeIioInterleaving.WriterStores | 22.iio/driver/fake_iiodev.c:194-207 | an undisturbed writer stores its byte, in three moves, and changes nothing else |
| FakeIioInterleaving.TriggerTakesSample | 22.iio/driver/fake_iiodev.c:272-277 | a trigger handler that finds the mutex free pushes, in five moves of its own, exactly the current pair of bytes and leaves the mutex free |
| FakeIioInterleaving.StepKeepsInv | 22.iio/driver/fake_iiodev.c:229-277 | every step keeps the mutex exclusive and the two bytes consistent outside the tick handler's two stores |
| FakeIioInterleaving.NeverStuck | 22.iio/driver/fake_iiodev.c:229-277 | some handler can always take a step |
| CharDevice.CharFile.constructor | 01.字符设备/driver/c-drv.c:40-52 | opening clears the memory and starts at 0 |
| CharDevice.CharFile.Write | 01.字符设备/driver/c-drv.c:54-79 | the bytes up to the end of the memory are stored, counted and passed over; after a fault the readable ones are stored with zeros behind, the result is -EFAULT and the cursor stays |
| CharDevice.WrittenStores | 01.字符设备/driver/c-drv.c:64-76 | the same of the function that writes are reasoned with |
| CharDevice.CharFile.Read | 01.字符设备/driver/c-drv.c:81-106 | the bytes from the cursor up to the end of the memory are returned, counted and passed over; after a fault the result is -EFAULT and the cursor stays |
| CharDevice.CharFile.Llseek | 01.字符设备/driver/c-drv.c:108-130 | a seek succeeds if and only if its origin is known and its target lies inside the memory, the end excluded; then it returns the new cursor, otherwise -EINVAL and the cursor stays |
| CharDevice.CursorsStayInside | 01.字符设备/driver/c-drv.c:64-127 | over any run of any calls on any number of files every cursor stays between 0 and the memory size |
| CharDevice.SeeksAddUp | 01.字符设备/driver/c-drv.c:119-124 | any run of relative seeks that succeed moves the cursor by their sum and changes nothing else |
| CharDevice.SeekBackIff | 01.字符设备/driver/c-drv.c:119-124 | one seek by minus their sum restores the state if and only if the cursor did not start at the very end |
| CharDevice.OthersInvisible | 01.字符设备/driver/c-drv.c:81-130 | reads and seeks of other files change nothing a file can see |
| CharDevice.WritesAsOne | 01.字符设备/driver/c-drv.c:64-72 | writing in any chunks is writing the whole, cut off at the end of the memory |
| CharDevice.ReadsAsOne | 01.字符设备/driver/c-drv.c:91-99 | reading in any chunks returns one stretch of memory from the cursor on |
| CharDevice.ZerosAfterOpen | 01.字符设备/driver/c-drv.c:50 | whatever was stored before, reads straight after any open return only zeros |
| CharDevice.RoundTrip | 01.字符设备/driver/c-drv.c:54-130 | a file that writes in any chunks, seeks to 0 and reads in any chunks gets back what it wrote up to the memory's end, while other files read and seek in between |

## Left out

- The counter experiment, the button and the sensor's interleavings are state machines
  on values, because their subject is the order of atomic steps of several threads;
  update in place inside one step is not modelled.
- `kthread_run` failing halfway (concurrency_control.c:73-75).
- The fasync variants of the button driver (10.异步IO, 11.misc): their callback does not
  wake the queue when a subscriber exists, so the wake-up statement is not theirs.
- Memory ordering weaker than sequential consistency.
- Events between the two clock reads of one ping are not interleaved with it; only the
  time that passes is modelled.
- Samples pushed by the tick handler itself when the driver is built without a triggered
  buffer (fake_iiodev.c:252-257).
- In the interleaved sensor both channels are enabled and compare with their rising
  thresholds; enables and falling thresholds are in `FakeIio`.
- Watchdog events during `softdog_init`, before all devices are registered.
- Early end of file and failing reads in the flash tool, and its open and ioctl error
  paths (mtdchar_test.c:31-49).
- Flip-buffer overflow and ignored characters in the UART, jiffies and time wrap-around.
- Failing I2C transfers, and mmap stores that race with a push in progress.
- Commands of the SSD1306 that the driver does not send.
- Probe, remove and registration code, device trees, sysfs, and the other drivers of the
  repository: calls into libraries not shown, with no property beyond the calls.
- TMP75 and DS1340 conversions: finite domains.
