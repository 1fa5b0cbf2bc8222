# Verified model of the serial, character-device and board-support logic

A Dafny project that models the stateful core of the board support package and
proves what its code and documentation promise. `dafny verify dfyconfig.toml`
checks all of it.

| files | models |
|---|---|
| `DmaModel`, `UartModel` | the Rust UART with DMA: every section under the port lock as a function, and all actors as one step relation |
| `ReceiveHistory` | honest accounts of the bytes that leave the receive FIFO |
| `UartInvariant`, `UartSteps` | the inductive invariant and its preservation by every step |
| `PioLaws`, `StepLaws` | what each step does to output, input, modes and budget, stated without the functions that do it |
| `Interrupts` | one call of the interrupt handler: its turns and its budget |
| `LossWitnesses` | inputs on which each way of losing a received byte happens |
| `UartTheorems`, `ReceiveTheorems`, `ProtocolTheorems`, `SessionTheorem`, `HazardTheorem` | what holds of every run: exactly-once output, receive conservation, ownership, quiescence, progress, directions given up, and the one interleaving that breaks exactly-once output |
| `DriverChannel`, `DriverState`, `DriverPort`, `DriverDma`, `DriverUart` | the driver's objects as classes; each method is proved to compute the step it stands for, so the theorems hold of these methods |
| `Divisor`, `Rates`, `Configure`, `Termios` | baud-rate arithmetic; the input clock asked for; the divisor/LCR programming sequence with DLAB aliasing and rollback; a whole termios change over them |
| `Lines` | the lock-free allocator of TTY lines |
| `Crc`, `Transport`, `Framing` | CRC-32 and its burst detection; fragmented I/O; the RS485 frame protocol over it |
| `Gf2` | division of polynomials over GF(2), shift registers, and CRC-32 as the remainder defined in clause 3.2.9 of IEEE Std 802.3 |
| `Ring`, `Chardev`, `ChardevThreads` | ring indices, the byte FIFO over them, and any number of threads sharing it |
| `InFormats` | the parser of the kernel's IN_FORMATS blob, against a serializer |
| `Cpio` | the newc archive writer, against a reader |
| `Common`, `Arithmetic`, `Octets` | shared vocabulary; multiplication and division; numbers in bytes |

## How the UART is modelled

A `World` holds the driver's state and everything around it: the transmit queue
and TTY data of serial core, interrupt enables and receive FIFO of the
controller, both DMA channels, the delayed worker with its unlocked window, the
termios change with its unlocked window, and the open/close life cycle. About
thirty kinds of `Step` interleave freely; one step is one section under the port
lock or one action of the environment. Histories record what was written, handed
to the controller, received and delivered. Each turn of the interrupt loop is a
step of its own, which allows more interleavings than the lock does.

What the environment is relied on for:

- A DMA descriptor moves bytes one at a time and yields at most one callback,
  after its last byte. `terminate_async` may leave a dispatched callback
  pending, `terminate_sync` leaves neither transfer nor callback. A pause may be
  refused or followed by an impossible residue; otherwise it freezes the
  position and the residue is what is left.
- At most one instance of the worker runs. It may be armed again while it runs;
  cancelling it waits for it.
- Serial core writes, kicks, flushes, stops and changes termios only inside an
  open session, serializes termios changes with each other and with close, and
  calls `start_tx` once for every write and every resume.
- The identification register never reports a masked source. While DLAB is left
  set, the enables the driver reads and writes are in DLH and the controller's own
  are zero, so it reports none of them.
- An LCR write that the controller ignores may happen at any time (`configure`,
  `set_break`, `shutdown`); each is followed by a reset of the receive FIFO and a
  read of the data register, between which bytes may arrive. A byte arrives when it
  enters the FIFO.
- Nothing is assumed about rejected termios changes: one may leave the registers,
  the input clock, both or neither as they were, and may leave DLAB set.
  `Termios.dfy` derives from the code which of these happens when.

Three behaviours of the code needed a condition, and the condition is proved exact:

- `cancel_tx` also returns true for a direction that is Stopping already, so a
  second flush can arm the worker again after `configure_sync` has cancelled it.
  That worker may later reset a transfer that was started in between.
  `FlushIsSafeIff` shows that such a flush, and no other, can make the driver
  hand a byte over twice; `HazardIsReachable` shows that it can occur. The safety
  theorems are about the runs without it. The documentation's sentence that
  termios changes quiesce DMA (linux/docs/rust-uart-rs485.rst:221-224) does not
  mention this exception; the model follows the code.
- Received bytes are lost in four ways, and no others. After a receive timeout that
  read nothing the interrupt handler reads the data register once without looking:
  `receive` also reads nothing when the interrupt budget is used up, and then that
  read takes a byte that waits (`Starved`); and a byte that arrives between the last
  look at LSR and that read is taken as well (`Late`). A retried LCR write resets
  the FIFO (`Discards`) and reads the data register (`Skips`). A refused or
  nonsensical pause gives up what is in the DMA buffer (`FailedPause`).
  `LossesExactly` and `SessionConservesIff` state this as an equivalence, and
  `LossWitnesses` has a reachable state for each; `BudgetStarves` shows how one call
  of the handler gets there. The
  documentation says the remaining FIFO is drained
  (linux/docs/rust-uart-rs485.rst:207-209); the model follows the code. What is still
  in the buffer or the FIFO when the port is closed is dropped with the session.
- A rejected termios change is reported as if the previous settings were back.
  `RejectedRestoresIff` says when they are: exactly when the controller took the two
  LCR writes of the rollback and the clock came back. With a clock that honours
  set_rate the registers alone decide (`RejectedIsTuned`), over any series of changes
  too (`BelievedWhenRollbacksTake`). A warning speaks of the clock only, so a garbled
  divisor can be silent (`SilentlyGarbled`). `BelievedIsInForce` gives the condition on
  series of changes over registers and clock, and `ReportedIsProgrammed` carries it over
  to runs of the whole port. A trait comment says that a failing `configure` leaves the
  previous configuration intact (linux/overlay/rust/kernel/serial.rs:107); the model
  follows the code.

Likewise the archive reader gives the entries back exactly when no name contains a
NUL (`RecoversIff`). The theorems about what a failing `configure` restores start from
DLAB clear, since there is nothing to restore otherwise; those about what succeeds,
about the enables and about DLAB itself start from anything.

The environment's choices (the provider's answer to a submit or a pause, whether
a dispatched callback survives, free FIFO slots, pending interrupts, what a poll
and a read return, how far a user copy gets) are parameters of the methods and
steps, and every theorem quantifies over all of them.

## Model

| member | source | states |
|---|---|---|
| UartTheorems.TransmitExactlyOnce | linux/overlay/rust/kernel/serial/dma.rs:209-289 | In every reachable state, under any interleaving of writes, interrupts, callbacks, worker, flushes, termios changes and PIO: per flush epoch the ordinary bytes given to the controller are an in-order prefix of those written, and in the open session sent ++ unsent = written, counting the DMA position inside a Running block |
| UartTheorems.AdvanceNeverClamped | linux/overlay/rust/kernel/serial.rs:171-176 | The completed block is always exactly the head of the queue, so the clamp of advance_tx never binds |
| UartTheorems.HistoryGrows | linux/overlay/rust/kernel/serial/dma.rs:209-289 | Every step either closes an epoch as it stands (flush, open) or only extends the histories at their ends; on a stopped line nothing beyond the issued block is handed over |
| UartTheorems.StopLetsOneBlockFinish | linux/docs/rust-uart-rs485.rst:198-201 | Over any run without resume, flush or reopen, a software stop lets the issued block complete and chains nothing after it |
| UartTheorems.ReachesLineIff | linux/drivers/rust_dw_uart.rs:137-150 | Over any run from the start of an epoch: all bytes handed over reached the transmit register, in order, if and only if none was handed over while DLAB was left set |
| ProtocolTheorems.ReachesLine | linux/drivers/rust_dw_uart.rs:272-282 | As long as no rejected change of the run leaves DLAB set, no byte misses the transmit register |
| StepLaws.TransmitLaw | linux/drivers/rust_dw_uart.rs:206-218 | For every step from any state: a call of start_tx either finds DMA owning the path, and then nothing is handed over, the transmit interrupt is masked and, when the channel is free, the first 256 queued bytes (or all) are submitted; or it gives the free slots the XON/XOFF byte and the head of the queue, and the interrupt stays enabled exactly when no slot is left over; every other step leaves output and queue alone but for writes, DMA moves, flush and open |
| StepLaws.NeverOverfills | linux/drivers/rust_dw_uart.rs:137-150 | No step but a DMA move hands over more bytes, the XON/XOFF byte included, than there were free slots |
| ReceiveTheorems.ReceiveInOrder | linux/overlay/rust/kernel/serial/dma.rs:301-411 | Every byte that entered the FIFO since the open is accounted for once and in order (settled fates ++ entries of the running transfer ++ FIFO), whatever was delivered, lost, read unseen or reset; the TTY data is a subsequence of the arrivals: the deliveries before and after one contiguous stretch of the account that holds every byte lost to DMA and in which nothing was delivered; each counter counts its fate; at most 512 bytes are lost to DMA, and only after the channel was given up |
| ReceiveTheorems.OneGap | linux/overlay/rust/kernel/serial/dma.rs:368-411 | Unless a byte was read unseen or reset, TTY ++ in-flight ++ FIFO is the arrivals minus one contiguous gap |
| ReceiveTheorems.ConservedIff | linux/overlay/rust/kernel/serial/dma.rs:348-411 | TTY ++ in-flight ++ FIFO equals everything that ever entered the FIFO in the session if and only if no gap was opened, no byte read unseen and no byte reset |
| ReceiveTheorems.LossesExactly | linux/drivers/rust_dw_uart.rs:302-318 | For every step from any state of the invariant: one byte is read unseen exactly at a starved dummy read (budget used up, a byte waiting), a late one (a byte arrived after the last LSR read) or the data register read of a retried LCR write that finds a byte; bytes are reset exactly by the FIFO reset of such a retry, all that the FIFO holds; the DMA buffer is lost exactly at a failed pause; arrivals are never taken back |
| ReceiveTheorems.LossesAccumulate | linux/drivers/rust_dw_uart.rs:124-135 | Over any run within a session the three loss counters never fall and stand still exactly when no step of the run met one of these causes |
| ReceiveTheorems.SessionConservesIff | linux/overlay/rust/kernel/serial/dma.rs:368-411 | Over any run from an open: every byte that entered the FIFO is in the TTY or still in the buffer or the FIFO, in order, if and only if no dummy read was starved or late, no LCR write had to be retried over a byte and no pause failed |
| StepLaws.ReceiveLaw | linux/drivers/rust_dw_uart.rs:302-320 | For every step from any state, what the TTY gets and what stays in the FIFO: a receive turn with budget b delivers what DMA hands over and then the first min(b, FIFO) bytes whenever the CPU may read, the worker's drain the first 256, a completion the whole buffer; nothing else delivers anything |
| LossWitnesses.BudgetStarves | linux/drivers/rust_dw_uart.rs:288-318 | Wherever a byte waits and a timeout gets past DMA, there are register readings with which one call of the handler spends its budget, whatever it is, turn by turn down to 0 and then takes the byte unseen |
| LossWitnesses.StarvedHappens | linux/drivers/rust_dw_uart.rs:312-317 | A reachable open port on which the handler, called once with its 256, does that |
| LossWitnesses.LateHappens | linux/drivers/rust_dw_uart.rs:312-317 | A reachable open port on which the dummy read takes a byte that arrived after the last look at LSR |
| LossWitnesses.DiscardHappens | linux/drivers/rust_dw_uart.rs:124-135 | A reachable port inside apply_termios on which the FIFO reset of a retried LCR write throws a byte away |
| LossWitnesses.SkipHappens | linux/drivers/rust_dw_uart.rs:124-135 | A reachable port inside apply_termios on which the read after that reset takes a byte that came in between |
| LossWitnesses.FailedPauseHappens | linux/overlay/rust/kernel/serial/dma.rs:381-397 | A reachable open port on which a refused pause gives up a byte in the DMA buffer |
| ProtocolTheorems.OwnershipByPhase | linux/overlay/rust/kernel/serial/dma.rs:423-469 | Idle means no transfer and no pending callback; a live transfer means Running with no callback; in an open session Running is never stuck |
| ProtocolTheorems.OwnershipByStep | linux/overlay/rust/kernel/serial/dma.rs:423-469 | A descriptor is submitted only to a channel with no transfer and no foreign callback, and but for retried LCR writes the CPU takes bytes from the receive FIFO only while no receive transfer can |
| ProtocolTheorems.TermiosQuiescent | linux/overlay/rust/kernel/serial.rs:831-834 | When apply_termios runs there is no transfer, no callback, no armed or running worker in either direction |
| ProtocolTheorems.NothingStartsWhileQuiescing | linux/overlay/rust/kernel/serial/dma.rs:488-494 | Between the worker's cancellation and configure_end no step but the hazardous flush starts a transfer or arms the worker |
| ProtocolTheorems.FlushBreaksQuiescenceIff | linux/overlay/rust/kernel/serial/dma.rs:274-289 | A flush inside that window re-arms the worker, and breaks the invariant, exactly when it finds TX Stopping |
| ProtocolTheorems.LineChangesOnlyQuiesced | linux/overlay/rust/kernel/serial.rs:855-935 | The only step that changes the programmed settings is apply_termios with both channels and the worker quiet |
| StepLaws.ControlLaw | linux/overlay/rust/kernel/serial/dma.rs:160-528 | For every step from any state: exactly which steps change the session's modes, the two phases, the receive enables and the worker's arming, and to what |
| StepLaws.ChannelsLaw | linux/overlay/rust/kernel/serial/dma.rs:301-411 | A submitted receive block offers all 512 bytes from the start, and a flushed direction's transfer stands still |
| TermiosApply.AcceptedIsInForce | linux/overlay/rust/kernel/serial.rs:864-932 | An accepted change, from any start, for every pick and every clock that ends below 2^32: the registers decode to the framing asked for, the rate reported is the one divisor and clock produce and within two percent of the one picked, the enables are kept and the recorded clock is the true one |
| TermiosApply.AcceptedIff | linux/overlay/rust/kernel/serial.rs:899-902 | A change is reported as accepted if and only if configure programmed it: its rate is never zero |
| TermiosApply.LimitsIff | linux/overlay/rust/kernel/serial.rs:874-880 | The limits given to the pick let a requested rate through exactly when it is at least fifty and either a sixteenth of the reference clock covers it or its own clock fits 32 bits |
| TermiosApply.PickedIsProgrammed | linux/overlay/rust/kernel/serial.rs:867-932 | With a clock that honours set_rate and a controller that never ignores a thousand writes in a row, every rate picked within the limits is accepted, in force, and within two percent |
| TermiosApply.RequestedIsProgrammed | linux/overlay/rust/kernel/serial.rs:867-884 | In particular a requested rate within its limits that is picked as it is |
| TermiosApply.RejectedRestoresIff | linux/overlay/rust/kernel/serial.rs:933-955 | A rejected change leaves the registers as they were if and only if it never got past its first LCR write or the rollback's writes are taken, and the clock if and only if it had not moved (no previous settings) or their clock is the old one or set_rate brings it back |
| TermiosApply.SilentIff | linux/overlay/rust/kernel/serial.rs:942-955 | The absence of the clock warning means that the clock is back, except exactly when it stands above 32 bits and the rate last read equals the one on file |
| TermiosApply.AcceptedIsTuned | linux/overlay/rust/kernel/serial.rs:864-932 | With a clock that honours set_rate the clock after an accepted change is the one that asking again for the reported rate asks for |
| TermiosApply.RejectedIsTuned | linux/overlay/rust/kernel/serial.rs:942-955 | With such a clock a rejected change gets its old clock back, silently, and what is in force depends on the registers alone |
| TermiosApply.BelievedIsInForce | linux/overlay/rust/kernel/serial.rs:855-957 | After any series of changes, each naming what serial core believes in force, on any clock that answers a request below 2^32 with a rate below 2^32: if no rejection since the last accepted change was left unrestored, registers and clock produce the settings believed; the same fold over verdicts as in ReportedIsProgrammed |
| TermiosApply.BelievedWhenRollbacksTake | linux/overlay/rust/kernel/serial.rs:855-957 | With a clock that honours set_rate the registers alone decide: after any series of changes whose rejections all stop at the first LCR write or get the rollback's writes through, the settings believed are in force, on the clock they ask for |
| TermiosApply.SilentlyGarbled | linux/overlay/rust/kernel/serial.rs:942-955 | A concrete controller that stays busy after one write, with a clock that honours set_rate: the rejection is silent although DLAB stays set and the settings are not in force |
| TermiosApply.KeepsPreviousMisleads | linux/overlay/rust/kernel/serial.rs:933-941 | A concrete rejected change without previous settings: the log says the line keeps its settings while the clock has moved |
| TermiosApply.DwPort.ApplyTermios | linux/overlay/rust/kernel/serial.rs:855-957 | The whole of apply_termios equals the model's function, on every path |
| ReaskedRate.SameClockAgain | linux/drivers/rust_dw_uart.rs:239-248 | For every rate from fifty up and up to 16 fraction bits: the rate an accepted divisor really produces asks for the very input clock it was accepted with |
| ProtocolTheorems.ReportedIsProgrammed | linux/overlay/rust/kernel/serial.rs:831-843 | The same over runs of the whole port, as bookkeeping over the verdicts above: if termios calls fall back to what serial core believes in force, what it believes is what the controller is programmed to if and only if no rejection since the last accepted change was left unrestored; giving up on a slow transfer changes neither; DLAB is left set only by such a rejection |
| ProtocolTheorems.LatchMeansGarbled | linux/drivers/rust_dw_uart.rs:272-282 | Over any run, DLAB is left set only while the programmed settings are a mixture nobody asked for |
| ProtocolTheorems.NothingReceivedWhileLatched | linux/drivers/rust_dw_uart.rs:272-282 | While a failed rollback leaves DLAB set, no step reads the divisor latch as data: nothing is delivered and the FIFO changes only by arrivals and resets |
| ProtocolTheorems.GiveUpKeepsTransfer | linux/overlay/rust/kernel/serial.rs:835-843 | A change given up on a slow transfer leaves that transfer, its length, the queue and the settings alone, so the block still completes and is counted once |
| ProtocolTheorems.ClosingChangesNothing | linux/overlay/rust/kernel/serial/dma.rs:173-181 | Over any run after deactivate, late callbacks and worker sections included, and up to the next open: nothing is submitted to either channel, the worker is not re-armed, queue and TTY data stay as they were, and what leaves the FIFO leaves it through a retried LCR write |
| ProtocolTheorems.ClosedIsQuiet | linux/overlay/rust/kernel/serial/dma.rs:160-195 | After close no transfer, callback or work survives, so the blind reset in activate is sound |
| ProtocolTheorems.NoStrandedCancellation | linux/overlay/rust/kernel/serial/dma.rs:199-205 | While open, a Stopping direction has the worker armed, in flight and covering it, or a drained termios change about to reset it; a Running receive block has its poll armed or about to sample it |
| ProtocolTheorems.KickNeverLost | linux/drivers/rust_dw_uart.rs:210-217 | While open, a non-empty queue on a running line implies a transfer, a termios change that will restart it, a start_tx call still owed, or the transmit interrupt enabled; the enabled interrupt can be raised if and only if no rejected change left DLAB set, which it does only together with garbled settings |
| SessionTheorem.GivenUpForTheSession | linux/overlay/rust/kernel/serial/dma.rs:510-514 | From any state in which a direction is marked as failed or no longer receiving, no run within the session submits to it |
| SessionTheorem.GivesUpForTheSession | linux/overlay/rust/kernel/serial/dma.rs:209-256 | A step gives the receive direction up exactly when it is a line error, a failed pause, a refused submit, stop_receive or deactivate, and the transmit direction exactly when the call of start_tx it makes (kick, interrupt, completion callback, worker, either end of a termios change) offers a block that is refused; after such a step no run of the session submits to that direction again |
| HazardTheorem.FlushIsSafeIff | linux/overlay/rust/kernel/serial/dma.rs:488-494 | After a flush, some hazard-free continuation hands a byte over twice if and only if the flush found TX Stopping inside the quiescing window of a termios change |
| HazardTheorem.HazardIsReachable | linux/overlay/rust/kernel/serial/dma/state.rs:37-44 | A concrete run reaches a state in which that flush is possible |
| UartSteps.StepKeeps | linux/overlay/rust/kernel/serial/dma.rs:160-528 | Every enabled step other than the hazardous flush keeps the inductive invariant |
| UartSteps.FlushKeepsIff | linux/overlay/rust/kernel/serial/dma.rs:272-289 | An output flush keeps the invariant exactly when it is not the hazardous one |
| UartSteps.RunKeeps | linux/overlay/rust/kernel/serial/dma.rs:160-528 | Every run without a hazardous flush keeps the invariant |
| UartSteps.TxCallbackKeeps | linux/overlay/rust/kernel/serial.rs:734-744 | A transmit completion, expected or late, keeps the invariant |
| UartSteps.RxCallbackKeeps | linux/overlay/rust/kernel/serial.rs:748-758 | A receive completion racing a flush keeps the invariant |
| UartSteps.IrqKeeps | linux/drivers/rust_dw_uart.rs:302-326 | Every interrupt turn keeps the invariant for every budget left |
| UartSteps.WorkFinishKeeps | linux/overlay/rust/kernel/serial.rs:773-784 | The worker's second section keeps the invariant whatever happened in the unlocked window |
| UartSteps.CfgEndKeeps | linux/overlay/rust/kernel/serial.rs:844-850 | The end of a termios change, drained or not, keeps the invariant |
| UartInvariant.RxFlushKeeps | linux/overlay/rust/kernel/serial/dma.rs:368-411 | A receive flush keeps the receive ledger for every answer of the pause |
| UartInvariant.StartTxKeeps | linux/drivers/rust_dw_uart.rs:210-217 | start_tx keeps the transmit ledger and never leaves a waiting byte without a kick |
| DriverChannel.Channel.Submit | linux/overlay/rust/kernel/dmaengine.rs:126-163 | A length out of bounds or a provider without a descriptor changes nothing; otherwise the channel carries the descriptor |
| DriverChannel.Channel.Status | linux/overlay/rust/kernel/dmaengine.rs:175-181 | Residue of the named transfer is size minus position, or the provider's impossible answer |
| DriverState.State.CompleteTx | linux/overlay/rust/kernel/serial/dma/state.rs:27-35 | Yields the length of a Running block once and leaves it Idle; nothing for a late completion |
| DriverState.State.CancelTx | linux/overlay/rust/kernel/serial/dma/state.rs:37-44 | Cancels anything but Idle, Stopping included |
| DriverState.State.CompleteRx | linux/overlay/rust/kernel/serial/dma/state.rs:46-53 | Ends a Running block once and returns the buffer to the CPU |
| DriverPort.LockedPort.ReceiveDma | linux/overlay/rust/kernel/serial.rs:177-199 | Appends the bytes of an ended transfer to the TTY data and settles their history |
| DriverPort.LockedPort.Receive | linux/overlay/rust/kernel/serial.rs:229-260 | Appends one byte read by PIO |
| DriverPort.LockedPort.NextTx | linux/overlay/rust/kernel/serial.rs:201-216 | The XON/XOFF byte first, then, unless stopped, the head of the queue |
| DriverDma.StateMachine.TxStart | linux/overlay/rust/kernel/serial/dma.rs:209-256 | Computes the transmit start of the model: same owner answer, same next state, for every answer of the provider |
| DriverDma.StateMachine.TxComplete | linux/overlay/rust/kernel/serial/dma.rs:260-270 | Computes the transmit completion: advances the queue by the block once, or nothing when late |
| DriverDma.StateMachine.TxFlush | linux/overlay/rust/kernel/serial/dma.rs:274-289 | Computes the transmit flush: cancels, stops asynchronously and arms the worker |
| DriverDma.StateMachine.RxStart | linux/overlay/rust/kernel/serial/dma.rs:301-346 | Computes the receive start in every phase |
| DriverDma.StateMachine.RxComplete | linux/overlay/rust/kernel/serial/dma.rs:350-363 | Computes the receive completion: delivers the whole block once |
| DriverDma.StateMachine.RxTakePrefix | linux/overlay/rust/kernel/serial/dma.rs:381-397 | Delivers the written prefix after a stable pause, gives the channel up otherwise |
| DriverDma.StateMachine.RxFlush | linux/overlay/rust/kernel/serial/dma.rs:368-411 | Computes the receive flush: prefix or gap, Stopping, the worker armed on request |
| DriverDma.StateMachine.StopReceive | linux/overlay/rust/kernel/serial/dma.rs:415-421 | Receiving ends and the block is flushed |
| DriverDma.StateMachine.RxError | linux/overlay/rust/kernel/serial/dma.rs:514-528 | Receive DMA is given up for the session and the block is flushed |
| DriverDma.StateMachine.WorkPrepare | linux/overlay/rust/kernel/serial/dma.rs:425-438 | Flushes and returns the snapshot of Stopping directions |
| DriverDma.StateMachine.Synchronize | linux/overlay/rust/kernel/serial/dma.rs:441-454 | Stops exactly the chosen channels |
| DriverDma.StateMachine.WorkFinish | linux/overlay/rust/kernel/serial/dma.rs:458-469 | Exactly the synchronized directions become Idle; resumes only if active and not configuring |
| DriverDma.StateMachine.ConfigureBegin | linux/overlay/rust/kernel/serial/dma.rs:473-479 | Blocks submissions and flushes the receive block |
| DriverDma.StateMachine.ConfigureEnd | linux/overlay/rust/kernel/serial/dma.rs:498-508 | After a synchronization both directions are Idle; otherwise the phases stay |
| DriverUart.DwUart.Startup | linux/drivers/rust_dw_uart.rs:192-202 | Empty FIFOs, receive and line-status interrupts enabled |
| DriverUart.DwUart.Transmit | linux/drivers/rust_dw_uart.rs:137-150 | With room free slots: the XON/XOFF byte takes the first one, the next min(free slots left, sendable bytes) bytes of the queue leave it in order, the rest stays queued, and the transmit interrupt is masked exactly when a slot is left over |
| DriverUart.DwUart.Receive | linux/drivers/rust_dw_uart.rs:153-168 | The first min(budget, FIFO) bytes leave the FIFO and are appended to the TTY in order, the others stay; each costs one, a break without data costs one, and it answers true exactly when the budget was positive and a byte or break was there |
| DriverUart.DwUart.DummyRead | linux/drivers/rust_dw_uart.rs:314-317 | Takes one byte, if any, out of the FIFO unseen |
| DriverUart.DwUart.Identify | linux/drivers/rust_dw_uart.rs:297-300 | A masked source reads as no interrupt, and while DLAB is left set all data and line sources do |
| DriverUart.UartPort.StartTx | linux/drivers/rust_dw_uart.rs:210-217 | DMA if it owns the path, else the transmit interrupt and PIO; equals the model's section, whose effect TransmitLaw states |
| DriverUart.UartPort.TxEmpty | linux/overlay/rust/kernel/serial.rs:592-603 | An empty answer in an open session means that no transfer or callback is outstanding and that every byte written is handed over or still queued; with TEMT set the answer is no only while a block is Running or being cancelled |
| DriverUart.UartPort.ServeReceive | linux/drivers/rust_dw_uart.rs:304-318 | One receive source: DMA, flush or error first, then PIO when safe, then the dummy read when a timeout read nothing, with or without a byte arriving just before it |
| DriverUart.UartPort.Serve | linux/drivers/rust_dw_uart.rs:302-326 | One identified source equals one interrupt step of the model |
| DriverUart.UartPort.Interrupt | linux/drivers/rust_dw_uart.rs:288-332 | For all readings of the identification register the budgeted loop takes exactly the steps of the trace: what each turn serves, what it costs and when it stops; handled exactly when one was served |
| InterruptLoop.TraceIsRun | linux/drivers/rust_dw_uart.rs:288-332 | That trace is a run of the port's interrupt steps, so every theorem about runs covers it |
| InterruptLoop.TraceSpends | linux/drivers/rust_dw_uart.rs:294-297 | The budget falls by at least one at every turn and never below zero, so a call takes at most 256 turns |
| StepLaws.TurnCosts | linux/drivers/rust_dw_uart.rs:294-320 | Beyond itself a served turn costs one for each byte it reads by PIO and one for a break without data; the loop goes on after turns 0, 2 and 7 and after receive turns that leave the FIFO to the CPU, and stops after all others |
| DriverUart.UartPort.Startup | linux/overlay/rust/kernel/serial.rs:693-697 | Opening equals the model's step |
| DriverUart.UartPort.Shutdown | linux/overlay/rust/kernel/serial.rs:718-723 | The first section of shutdown equals the model's step |
| DriverUart.UartPort.FlushBuffer | linux/overlay/rust/kernel/serial.rs:640-645 | flush_buffer together with serial core's queue reset equals the model's step |
| DriverUart.UartPort.StopReceive | linux/overlay/rust/kernel/serial.rs:650-660 | stop_rx equals the model's step |
| DriverUart.UartPort.DmaTxComplete | linux/overlay/rust/kernel/serial.rs:734-744 | The transmit callback equals the model's step |
| DriverUart.UartPort.DmaRxComplete | linux/overlay/rust/kernel/serial.rs:748-758 | The receive callback, at any time of the life cycle, equals the model's step, followed by the interrupt loop's trace exactly when the completion was expected |
| DriverUart.UartPort.WorkPrepareSection | linux/overlay/rust/kernel/serial.rs:768-771 | The worker's first section equals the model's step |
| DriverUart.UartPort.WorkFinishSection | linux/overlay/rust/kernel/serial.rs:773-784 | The worker's second section equals the model's step, followed by the interrupt loop's trace exactly when it resumes |
| DriverUart.UartPort.SetTermiosPoll | linux/overlay/rust/kernel/serial.rs:819-825 | A poll succeeds exactly when no transmit block is Running |
| DriverUart.UartPort.SetTermiosEnd | linux/overlay/rust/kernel/serial.rs:844-850 | The end of a drained change equals the model's step followed by a run of interrupt steps |
| DriverUart.UartPort.SetTermiosGiveUp | linux/overlay/rust/kernel/serial.rs:835-850 | The end of an abandoned change restores the reported settings and keeps the transfer |
| BaudDivisor.DivisorIsNearest | linux/drivers/rust_dw_uart/config.rs:13-33 | Of all fixed-point divisors the returned one is nearest to clock / (16 baud); integer in 1..65535, fraction below 2^bits |
| BaudDivisor.ActualIsNearest | linux/drivers/rust_dw_uart/config.rs:24-27 | The reported rate is the nearest integer rate and within two percent of the requested one |
| BaudDivisor.NoOverflow | linux/drivers/rust_dw_uart/config.rs:17-31 | For all 32-bit clocks and rates and up to 16 fraction bits no 64-bit intermediate overflows and both casts are lossless |
| ReaskedRate.DivisorIff | linux/drivers/rust_dw_uart/config.rs:13-33 | With the divisor and the produced rate given by rounding alone: it is accepted exactly when its integer part is in 1..65535 and the rate within two percent, and is split into integer part and fraction |
| BaudDivisor.SixteenfoldIsExact | linux/drivers/rust_dw_uart/config.rs:37-43 | A clock of sixteen times the rate gives divisor one, no fraction, no error |
| BaudDivisor.BaudClockAccepted | linux/drivers/rust_dw_uart/config.rs:37-43 | The chosen clock is accepted by divisor for every rate from 1 to (2^32-1)/16 |
| BaudDivisor.LineControlDecodes | linux/drivers/rust_dw_uart/config.rs:45-50 | Decoding the register as a 16550 does gives back the framing; break and DLAB stay clear |
| DwConfigure.TryLcrIff | linux/drivers/rust_dw_uart.rs:124-135 | write_lcr succeeds exactly when the value is there already or one of its bounded attempts meets an idle controller, and changes nothing but LCR |
| DwConfigure.TryLcrResetsIff | linux/drivers/rust_dw_uart.rs:124-135 | write_lcr resets the receive FIFO exactly when its first attempt is needed and ignored |
| DwConfigure.AppliedExactly | linux/drivers/rust_dw_uart.rs:250-286 | Success, from any start and for every pattern of ignored writes: framing, divisor and fraction as requested, DLAB clear, and in IER the enables that the driver had, even if an earlier failure had left them in DLH |
| DwConfigure.BusyMeansIgnored | linux/drivers/rust_dw_uart.rs:250-286 | With any positive number of tries a change with a divisor is refused only if that many successive writes were ignored, and otherwise programs the divisor's rate |
| DwConfigure.ThousandTries | linux/drivers/rust_dw_uart.rs:124-135 | With the driver's own number of tries a write that is needed survives 999 ignored attempts and not 1000 |
| DwConfigure.MaskedMeanwhile | linux/drivers/rust_dw_uart.rs:254-271 | From DLAB clear, no interrupt is enabled while divisor and framing are written |
| DwConfigure.LatchLeftOpenIff | linux/drivers/rust_dw_uart.rs:259-285 | From any start configure ends with DLAB set if and only if the rollback's last LCR write is refused, or DLAB was set before and neither the first write nor the one after it is taken; the enables read before the change are then in DLH, and otherwise in IER |
| DwConfigure.FirstFailureRestores | linux/drivers/rust_dw_uart.rs:261-265 | A framing write that never takes leaves every setting as before |
| DwConfigure.FailedRestoresIff | linux/drivers/rust_dw_uart.rs:272-282 | A failed change restores everything if and only if it never got past the first LCR write or the controller takes the rollback's two LCR writes (the first of them only if the divisor changed) |
| DwConfigure.RolledBackIff | linux/drivers/rust_dw_uart.rs:272-282 | The rollback restores the settings exactly when its LCR writes take; otherwise DLAB stays set and the interrupt enables land in DLH |
| DwConfigure.BusyForeverCorrupts | linux/drivers/rust_dw_uart.rs:272-282 | A concrete controller that takes one write and then stays busy is left with DLAB set and its interrupt enables lost |
| DwConfigure.DwRegisters.WriteLcr | linux/drivers/rust_dw_uart.rs:124-135 | The retry loop computes the bounded attempts of the model |
| DwConfigure.DwRegisters.Program | linux/drivers/rust_dw_uart.rs:254-271 | Opens DLAB, saves the old divisor and writes the new one through the aliased offsets |
| DwConfigure.DwRegisters.RollBack | linux/drivers/rust_dw_uart.rs:274-279 | Restores divisor and framing through the aliased offsets |
| DwConfigure.DwRegisters.Configure | linux/drivers/rust_dw_uart.rs:250-286 | The whole sequence equals the model's, on every path and from any register contents; as constructed, with 1000 tries a write, it answers Busy only after 1000 successive ignored writes, invalid exactly without a divisor, and otherwise the rate of the divisor |
| LineAllocator.StepKeeps | linux/overlay/rust/kernel/serial.rs:411-438 | Every load and every compare-exchange with a stale snapshot keeps the bitmap equal to the held lines |
| LineAllocator.RunKeeps | linux/overlay/rust/kernel/serial.rs:411-438 | So does every interleaving of any number of threads |
| LineAllocator.LinesAreExclusive | linux/overlay/rust/kernel/serial.rs:411-438 | After any interleaving the bitmap is exactly the set of held lines, each below the limit, none held twice |
| LineAllocator.TurnEffect | linux/overlay/rust/kernel/serial.rs:412-424 | A successful allocation takes the lowest free line at its compare-exchange, EBUSY only when the snapshot was full, a drop clears only its own bit |
| LineAllocator.FailureMeansProgress | linux/overlay/rust/kernel/serial.rs:419-422 | A turn fails only because another thread's exchange succeeded since the snapshot |
| LineAllocator.AtomicWord.AllocateTurn | linux/overlay/rust/kernel/serial.rs:414-423 | One turn of allocate's loop equals the model's action |
| LineAllocator.AtomicWord.DropTurn | linux/overlay/rust/kernel/serial.rs:430-436 | One turn of drop's loop equals the model's action |
| Crc.ComputeCrc32 | app/rs485-test/src/lib.rs:21-30 | The nested loop computes Crc32, which Crc32IsRemainder characterizes |
| Crc.MixByte | app/rs485-test/src/lib.rs:24-27 | Eight branch-free shifts equal one byte step |
| Crc.BitStepLinear | app/rs485-test/src/lib.rs:26-26 | The shift register's step is linear over exclusive or |
| Crc.WordFeed | app/rs485-test/src/lib.rs:23-28 | Four bytes drive the register to zero exactly from the word they spell |
| CrcRemainder.Crc32IsRemainder | app/rs485-test/src/lib.rs:21-30 | A word is the CRC-32 of a message if and only if its complement, reflected, is a remainder over GF(2) of the message bits times x^32 with the first 32 places inverted, modulo the polynomial with exponents 32, 26, 23, 22, 16, 12, 11, 10, 8, 7, 5, 4, 2, 1, 0 |
| CrcRemainder.KnownAnswer | app/rs485-test/src/lib.rs:275-278 | The CRC-32 of the nine digits is 0xcbf43926 |
| Gf2.RemainderUnique | app/rs485-test/src/lib.rs:21-30 | Remainders below the degree of the divisor are unique |
| ShiftRegister.FeedDivides | app/rs485-test/src/lib.rs:23-28 | Any linear feedback register that starts at all ones holds the remainder of the bits fed into it |
| LinearCheck.BurstIsZero | app/rs485-test/src/lib.rs:21-30 | For any linear check: a difference confined to four consecutive bytes that leaves a zero register at zero is all zero |
| Crc.BurstDetected | app/rs485-test/src/lib.rs:21-43 | No non-zero change confined to four consecutive bytes, across the payload/CRC boundary included, turns one guarded message of any length into another |
| Framing.Encode | app/rs485-test/src/lib.rs:32-43 | Rejects payloads over 1024 bytes; otherwise builds the frame |
| Framing.WireLayout | app/rs485-test/src/lib.rs:36-42 | A frame is the bytes of RU48, the sequence number, the payload length and the payload, then the CRC-32 of all of these, each number low byte first |
| Framing.RestIff | app/rs485-test/src/lib.rs:146-156 | After ten bytes the reader reports lost synchronization, then an oversized length over 1024, and otherwise reads the payload and four more bytes |
| Framing.DecodeIff | app/rs485-test/src/lib.rs:45-64 | A byte string decodes to a message exactly when it is that message's frame: encode and decode are mutual inverses |
| Framing.PrefixFree | app/rs485-test/src/lib.rs:291-305 | Every proper prefix and every extension of a valid frame is rejected |
| Framing.BurstRejected | app/rs485-test/src/lib.rs:45-64 | decode rejects every frame obtained from a valid one by a non-zero change inside four consecutive bytes, header, length and CRC fields included |
| Framing.StreamFidelity | app/rs485-test/src/lib.rs:109-161 | For any messages and any schedules of short transfers, EINTR, EAGAIN, failures and deadlines on both sides: the receiver decodes the first messages sent, in order; only the transport can fail; a receiver that does not fail has every message and has consumed every byte; and when neither schedule fails and each has a productive turn for every byte, nothing fails and every message arrives |
| FramedStream.ReadsBack | app/rs485-test/src/lib.rs:143-161 | On any cut or whole stream of frames each read returns the next frame and stops exactly at its end |
| FramedStream.WritesPrefix | app/rs485-test/src/lib.rs:109-124 | What was sent is a prefix of the stream of frames, and all of it exactly when no write failed |
| Framing.ReadFrame | app/rs485-test/src/lib.rs:143-161 | Header, synchronization, length, rest and decode in this order, with the error of the first that fails, consuming exactly the bytes read |
| Transport.File.WriteDeadline | app/rs485-test/src/lib.rs:109-124 | Sends a prefix; succeeds exactly when all bytes were accepted |
| Transport.File.ReadDeadline | app/rs485-test/src/lib.rs:126-141 | Fills the buffer in order with the bytes taken off the stream; succeeds exactly when it is full |
| Transport.TransferEnds | app/rs485-test/src/lib.rs:109-141 | A transfer ends at the first answer that breaks it, with that answer's error, or when everything has moved, with the bytes of the answers before it |
| Transport.TransferCompletes | app/rs485-test/src/lib.rs:109-141 | Interruptions and short counts never fail a transfer: one byte per productive turn is enough, and it leaves the schedule of the next transfer at most one turn shorter for each byte |
| Transport.ResumeExact | app/rs485-test/src/lib.rs:109-141 | A transfer moves at most what was asked for and available, and succeeds exactly when it moved all of it |
| RingIndices.Ring.Readable | linux/drivers/rust_chardev/ring.rs:30-32 | The contiguous run of the oldest elements within the limit: inside the storage, in queue order, empty only if the ring or the limit is; no index overflows |
| RingIndices.Ring.Writable | linux/drivers/rust_chardev/ring.rs:34-45 | The contiguous run of free slots behind the newest element; empty only if the ring is full or the limit zero; no index overflows even at usize::MAX |
| RingIndices.Ring.Consume | linux/drivers/rust_chardev/ring.rs:52-56 | The head moves to the slot of the first remaining element |
| RingIndices.ConsumedQueue | linux/drivers/rust_chardev/ring.rs:52-56 | Consuming drops exactly the oldest elements of the represented queue |
| RingIndices.AppendedQueue | linux/drivers/rust_chardev/ring.rs:47-50 | Copying into the start of the writable range appends exactly the copied bytes and disturbs no queued one, whatever happens to the rest of the range |
| CharFifo.Buffer.TakeOldest | linux/drivers/rust_chardev.rs:114-120 | Hands out and removes exactly the oldest bytes the user could take |
| CharFifo.Buffer.AppendOffered | linux/drivers/rust_chardev.rs:142-147 | Appends exactly the bytes the user delivered |
| CharFifo.Buffer.AwaitData | linux/drivers/rust_chardev.rs:106-113 | Returns at once on a non-empty FIFO or with EAGAIN for a nonblocking reader, and otherwise ends at the first signal or the first wakeup that brought a byte |
| CharFifo.Buffer.AwaitRoom | linux/drivers/rust_chardev.rs:134-141 | The same for a full FIFO and a wakeup that brought room |
| CharFifo.Buffer.ReadIter | linux/drivers/rust_chardev.rs:98-125 | A non-empty FIFO is read at once: the oldest bytes, as many as limit, user, contents and storage end allow, leave it, and EFAULT exactly when that is none; an empty one refuses a nonblocking reader with EAGAIN, nothing waited for; a blocking one consumes waits up to the first signal (ERESTARTSYS) or the first wakeup to a non-empty FIFO, and then reads that; refusals leave the FIFO alone |
| CharFifo.Buffer.WriteIter | linux/drivers/rust_chardev.rs:127-151 | The same for a write with full in place of empty: the first bytes offered are appended, never beyond the capacity |
| CharDevice.StepKeeps | linux/drivers/rust_chardev.rs:98-165 | Every step of any thread keeps: no overlooked sleeper without a notification to come, bytes conserved, one lock holder |
| CharDevice.ServedExactly | linux/drivers/rust_chardev.rs:106-124 | Holding the lock, a thread sleeps exactly when it is blocked and may block, goes on to notify exactly when it moved bytes, and moves the oldest bytes or appends its first ones |
| CharDevice.NotifiedAll | linux/drivers/rust_chardev.rs:122-123 | A notification wakes every sleeper of either kind |
| CharDevice.NoWakeupLost | linux/drivers/rust_chardev.rs:98-165 | For any number of threads and any run: a thread asleep (or about to be) although its bytes or space are there has a notification coming; in a quiet state readers sleep only on an empty FIFO and writers only on a full one; bytes read are a prefix of bytes written |
| CharDevice.OneHolder | linux/drivers/rust_chardev.rs:106-119 | Never two threads in the section that looks at the FIFO |
| InFormats.ModifiersForFormat | app/slint-dashboard/patches/0001-gbm-negotiate-scanout-modifiers.patch:19-52 | None exactly when the header is short or unsupported or a table leaves the blob; otherwise the meaning of the blob; no overflow and no out-of-range read |
| InFormats.FindFormat | app/slint-dashboard/patches/0001-gbm-negotiate-scanout-modifiers.patch:39-41 | The first index of the format, or none |
| InFormats.CollectModifiers | app/slint-dashboard/patches/0001-gbm-negotiate-scanout-modifiers.patch:42-51 | The modifiers of the covering records, in record order |
| Octets.ByteOrder | app/slint-dashboard/patches/0001-gbm-negotiate-scanout-modifiers.patch:20-29 | Byte i of a number has the weight 256^i |
| InFormats.SelectedIff | app/slint-dashboard/patches/0001-gbm-negotiate-scanout-modifiers.patch:43-50 | A modifier is returned exactly when a record carries it whose 64-bit window covers the index |
| InFormats.RoundTrip | app/slint-dashboard/patches/0001-gbm-negotiate-scanout-modifiers.patch:19-52 | Parsing gives back the formats and records of any description serialized with its two tables in either order and any filling before, between and after them |
| InFormats.NegotiatedExactly | app/slint-dashboard/patches/0001-gbm-negotiate-scanout-modifiers.patch:19-52 | End to end: what is negotiated is exactly the sequence of modifiers of the windows that support the format's first index, in record order, and nothing when the format is not listed |
| InFormats.NegotiatedIff | app/slint-dashboard/patches/0001-gbm-negotiate-scanout-modifiers.patch:19-52 | End to end: a modifier is negotiated exactly when the format is listed and a window supports its first index |
| Cpio.Archive | tests/qemu-test.py:28-38 | The loop computes the archive of the model |
| Cpio.HeaderLayout | tests/qemu-test.py:31-35 | Each entry's header reads 070701, then its number from 1, its mode, one link, the sizes of data and name in their fields and zeros in the others, then the name and a NUL |
| Cpio.Places | tests/qemu-test.py:34-37 | The data starts at the next multiple of four after the name, and the next header after the data |
| Cpio.GapsAreZero | tests/qemu-test.py:35-37 | All padding is zero |
| Cpio.Alignment | tests/qemu-test.py:35-37 | Every header and every data block starts on a 4-byte boundary, the data lies there, and the whole archive is a multiple of four |
| Cpio.HexReads | tests/qemu-test.py:33-33 | A field below 16^width prints as exactly width digits that read back |
| Cpio.ReaderFindsEntries | tests/qemu-test.py:28-38 | An independent newc reader finds every entry in order, with all thirteen fields, its data and its name up to the first NUL, through hexadecimal fields and total-length padding |
| Cpio.RecoversIff | tests/qemu-test.py:28-38 | The reader gives back exactly the entries if and only if no name contains a NUL |

Lemmas that are not listed are steps of these proofs or small facts beside them.

## Left out

- Kernel bindings, unsafe pointers, pinned initialization, probing, registration, reference counts and memory barriers: they are replaced by the environment's obligations above.
- Time: the 20 ms receive poll, the pacing of the 512 polls before a termios change gives up, turnaround delays and poll timeouts. The worker is shown to be armed, not to be soon; when to give up is a free choice.
- Wakeups of TTY writers, statistics counters and `icount`: no proved property depends on them.
- Accessors, setters and constructors of the classes are verified but have no row of their own.
- Line-status error bits: `receive` drops bits when no data is ready or the budget is used up, so nothing is claimed about them.
- Delivery of an XON/XOFF byte across a flush: `flush_tx` masks the transmit interrupt whatever is pending, so `KickNeverLost` speaks of queued bytes only.
- `set_break` (but for the LCR write it may retry), loopback and modem lines: one-branch register accesses.
- `uart_get_baud_rate`, `uart_insert_char`, the clock controller and the PL330 are not part of this model; the rate the first picks within its limits and what a set_rate makes of the clock are parameters, and that the first may also edit the requested settings is not modelled.
- TermiosApply.DwPort.ApplyTermios: status masks, timeout and the removal of CRTSCTS and CMSPAR are not modelled.
- TermiosApply.BelievedIsInForce: one direction only, because a mixture of registers may by chance produce the settings believed in.
- The transmit FIFO behind the controller: a byte counts as sent when it is handed over, and a flush or a retried LCR write may still discard it there. A byte that finds the receive FIFO full does not enter it and is not an arrival.
- UartTheorems.TransmitExactlyOnce: while a failed rollback leaves DLAB set, a byte handed over reaches the divisor latch instead of the line; such bytes count as sent, and `ReachesLineIff` says exactly when there are any.
- DriverPort.LockedPort.ReceiveDma: the ignore mask, and bytes a short `tty_insert_flip_string` has no room for, are dropped by the source and count as delivered here.
- DriverPort.LockedPort.Receive: status filtering, break handling and flags; every byte is delivered as it is.
- DriverUart.DwUart.Receive: line-status bits, and the NUL that stands for a break without data, are not delivered; such a break is a marker that consumes budget. Bytes that arrive during one call of the handler arrive between its turns or just before the dummy read.
- DriverChannel.Channel.constructor: requesting the channel, its capability checks and the buffer's allocation.
- DriverUart.UartPort.ApplyTermios: records a verdict that `Termios.dfy` computes; the two classes are not one object, and `VerdictConsistent` shows that every verdict fits.
- DriverChannel.Channel.Submit: the descriptor's callback pointers are not modelled, only that one callback may follow.
- Octets: conversions between numbers and bytes are defined by counting instead of by casts, so that bit vectors and integers never meet in one proof; IN_FORMATS masks are numbers whose bits are taken by division.
- InFormats.ModifiersForFormat: native byte order is little-endian, as on the ARM64 target, and `usize` has 64 bits.
- CharFifo.Buffer.WaitInterruptible: what other threads do during a wait is given as the state they leave; `ChardevThreads` models the threads themselves, over the bounded queue that this class refines.
- CharFifo.Buffer.CopyFromIter: bytes of the offered range beyond those copied may end up anything; nothing depends on them.
- LineAllocator.AtomicWord.AllocateTurn: one turn of the source's loop, because other threads act between turns; the loops are the runs of `RunKeeps`.
- LineAllocator.AtomicWord.DropTurn: one turn likewise.
- The lock as such: sections under a spinlock are atomic steps. Only the character device's mutex is explicit, because a wait releases it.
- `wait_ready` is reduced to its outcome; the computation of the poll timeout is time.
- Termios and ioctl handling, option parsing and the test scenarios of rs485-test.
- Compression and the selection of files around the cpio writer; names are given as encoded bytes.
- The DSI2, VOP2, GEM and clock patches, the panel driver, device trees, U-Boot, scripts, the dashboard's user interface and the board tools.
