# Verified model of the BDN9 USB machine

The device rehost answers a real macropad's firmware with modelled hardware: a USB host that
drives the STM32F072's USB block, a pump and three breakpoint handlers that deliver its
interrupts, a tickless clock, an encoder injector and a line bridge. These files model those
parts in Dafny 4.11 and prove what they keep over every run. The firmware is an adversary: it may
write any value to any register or to packet memory at any time.

Check the project with `dafny verify dfyconfig.toml`.

## How it is laid out

| file | what it holds |
|---|---|
| Prelude.dfy | Option, byte |
| GuestClock.dfy | the 32-bit counter and the unbounded time it refines |
| EndpointRegister.dfy | one endpoint register, as a word and as fields, and the refinement between them |
| UsbBlock.dfy | register block, ISTR, packet memory, the firmware's interrupt loop |
| UsbHost.dfy | the host's nine-phase machine |
| HostRuns.dfy | laws of all host runs: exclusion, order, conservation |
| HostProgress.dfy | bounds, patience, stalls |
| HostQueue.dfy | how long a queued transfer waits |
| HostReassembly.dfy | packets both ways, the IN data stage, and half-done steps |
| HostReports.dfy | what is published of the interrupt endpoints |
| Timer.dfy | TIM2's one-shot compare |
| Delivery.dfy | pump, idle seam, context switch |
| DeliveryRuns.dfy | laws of all histories of the whole machine |
| DeliveryCounters.dfy | what the pump's and the handlers' own records tell |
| Witnesses.dfy | histories from power-on in which the code does not keep a comment's promise |
| Encoder.dfy | switches, pads, the derived IDR |
| EncoderReader.dfy | QMK's polling reader, and what it decodes of one turn |
| EncoderTurns.dfy | and of any turns, overlapping ones included |
| Bridge.dfy | publisher and acceptor threads |
| Descriptors.dfy | the configuration walker |

Each object of the source is a class whose fields are the source's. A method's contract equates
the state it leaves with a specification function of the state it found, and the laws are lemmas
about those functions over runs. A run is a list of events in any order. A history function reads
a quantity off a run, such as the flags raised, the tags enqueued or the times of the SOFs.

Two things a host step may meet are results of the step. `acted` is the source's return value.
`fault` is the `struct.error` the source raises when a buffer descriptor does not lie inside
packet memory. The exception leaves the step half done and so does the model. Only one such step
does lasting harm (`HostRuns.FaultKeeps`, `HostRuns.StepKeepsShape`): a start that fails between
taking a transfer off the queue and sending its SETUP. The laws it breaks are stated for runs
without a failed start; `HostReassembly.TableInsideIsFaultFree` says which firmware has only such
runs, `HostReassembly.LostIffOutside` what becomes of the transfer otherwise, and
`HostRuns.TransfersAccounted` is the conservation law of all runs. `DeliveryRuns.PowerOnMeetsLaws`
says that the constructed machine meets what the laws ask of the state a run starts from.

## Where the code departs from its comments, or from what they suggest

The model follows the code in each case.

* The handlers' comments say an interrupt held back in the context-switch window is latched in its
  peripheral and raised again by the next pump call (chibios_pump.py lines 74-79 and 273-274). For
  TIM2 this is false: `Witnesses.TickCanBeLost` is a history from power-on that loses a tick,
  `DeliveryRuns.DroppedTickIsGone` says it stays lost until the compare is armed anew, and
  `DeliveryRuns.IdleInjectsIff` says of every state when an idle visit injects a tick. For USB a
  latched CTR flag raises nothing by itself: `DeliveryRuns.IrqRaisedIff` says exactly when a pump
  call queues IRQ 31, namely when a SOF is due or its host step drives the wire, on whatever
  endpoint. While the flag is EP0's own and no interrupt endpoint has a packet, only a SOF is left
  (`DeliveryRuns.LatchedFlagWaitsForSof`), and `Witnesses.FlagCanWait` is a history from power-on
  whose next pump call raises nothing.
* guest_clock.py describes catch_up_to as reaching a future deadline. A deadline exactly 2^31 ticks
  ahead is not reached (`Clock.CatchUpReaches`), and it then blocks the idle seam's clock as well:
  `DeliveryRuns.HalfwayAlarmHangs`, with a history from power-on in `Witnesses.AlarmCanHang`.
* encoder_turn is documented as queueing detents. Queued against phases still owed the other way,
  it also turns those round: `Encoder.TurnRedirectsOwed`, and `Encoder.TurnCanRedirect` from
  power-on. Turns that do not reverse one another may overlap:
  `EncoderTurns.NetTurnsDecodeExactly`.
* Backlog and live lines are both sent outside the lock, so a live line can overtake the backlog:
  `Bridge.LiveLineOvertakes`. `Bridge.ExactSequence` gives the sequence every client
  gets, and `Bridge.InOrderIff` when it is in order.
* A transfer is lost when its start fails on a descriptor outside packet memory:
  `HostReassembly.LostIffOutside`, and `Witnesses.TransferCanBeLost` from power-on.
* The configuration walker tests how many bytes are left, not the length a descriptor states, so a
  short descriptor is filled from the next one: `Descriptors.OwnedIff`.
* Interrupt endpoints are drained before EP0 is looked at, so a device that keeps one armed holds
  EP0 back. The bounds of `HostProgress` therefore count EP0's own steps, and
  `HostProgress.StepProgress` says that a pre-empted step uses up none of them.
* Patience is described as ending a transfer that the device never answers. Between two transfers
  it ends nothing: while the firmware leaves EP0's flag set, the queue waits for ever
  (`HostQueue.UnservicedStarves`). `HostQueue.WaitingIsAnswered` bounds the wait otherwise.

## Model

| member | source | states |
|---|---|---|
| Clock.ActivityIsExact | src/rehostry_bdn9/peripheral_models/guest_clock.py:68-103 | over every run the 32-bit counter is an unbounded monotone time modulo 2^32, and 64 times that time plus the remainder equals accesses plus 64 times the idle jumps: batching loses and invents nothing |
| Clock.ActivitySplits | src/rehostry_bdn9/peripheral_models/guest_clock.py:76-86 | reporting a burst of accesses in two calls leaves the same state as in one |
| Clock.ElapsedGeDecides | src/rehostry_bdn9/peripheral_models/guest_clock.py:113-115 | for times up to 2^31 apart the masked comparison is the true `T >= D` iff the deadline was not passed by exactly 2^31 |
| Clock.CatchUpReaches | src/rehostry_bdn9/peripheral_models/guest_clock.py:88-99 | after catch_up_to(d) the deadline counts as reached iff it did not lie exactly 2^31 ahead |
| Clock.CatchUpStopsAt | src/rehostry_bdn9/peripheral_models/guest_clock.py:88-99 | catch_up_to stops at the first moment the counter shows the deadline, never past it, if that is less than 2^31 away, and does not move otherwise |
| Clock.GuestClock.AdvanceFromActivity | src/rehostry_bdn9/peripheral_models/guest_clock.py:76-86 | the object's update is the batching the laws are about, and keeps counter and unbounded time congruent |
| Clock.GuestClock.CatchUpTo | src/rehostry_bdn9/peripheral_models/guest_clock.py:88-99 | jumps exactly by the lead of a future deadline, and reports a move iff time moved |
| Clock.GuestClock.AdvanceBy | src/rehostry_bdn9/peripheral_models/guest_clock.py:101-103 | adds n ticks of unbounded time |
| EndpointRegister.WriteRefines | src/rehostry_bdn9/peripheral_models/stm32f0_usb.py:318-325 | the masked 16-bit write is, field by field, XOR on toggles, clear-only on CTR flags, assignment on plain bits, SETUP kept, for all register and written values |
| EndpointRegister.RaiseRxRefines | src/rehostry_bdn9/peripheral_models/stm32f0_usb.py:229-238 | the word operation sets CTR_RX, sets or clears SETUP, leaves STAT_RX at NAK and no other field changed |
| EndpointRegister.RaiseTxRefines | src/rehostry_bdn9/peripheral_models/stm32f0_usb.py:240-243 | the word operation sets CTR_TX, leaves STAT_TX at NAK and no other field changed |
| EndpointRegister.ReadXorWrite | src/rehostry_bdn9/peripheral_models/stm32f0_usb.py:318-325 | the firmware's read, XOR and write sets exactly the toggle and plain fields it wants, from every value of the register |
| EndpointRegister.WriteAcknowledges | src/rehostry_bdn9/peripheral_models/stm32f0_usb.py:46-53 | writing 0 to one CTR flag, 1 to the other and 0 to the toggles clears that flag and nothing else |
| EndpointRegister.DecodeInjective | src/rehostry_bdn9/peripheral_models/stm32f0_usb.py:76-89 | the fields determine the word: the field view loses nothing |
| EndpointRegister.StatReads | src/rehostry_bdn9/peripheral_models/stm32f0_usb.py:223-227 | the masked-and-shifted status reads are the status fields |
| UsbBlock.UsbRegs.HwWrite | src/rehostry_bdn9/peripheral_models/stm32f0_usb.py:309-369 | a CPU write to any register of the block leaves exactly the state of the field-level specification |
| UsbBlock.UsbRegs.RaiseCtrRx | src/rehostry_bdn9/peripheral_models/stm32f0_usb.py:229-238 | changes one endpoint, to the received-packet fields |
| UsbBlock.UsbRegs.RaiseCtrTx | src/rehostry_bdn9/peripheral_models/stm32f0_usb.py:240-243 | changes one endpoint, to the taken-packet fields |
| UsbBlock.UsbRegs.Istr | src/rehostry_bdn9/peripheral_models/stm32f0_usb.py:268-282 | CTR is set iff some endpoint has a flag, EP_ID is the lowest such endpoint, DIR its RX flag, and the latched events show through |
| UsbBlock.ServingDrains | src/rehostry_bdn9/peripheral_models/stm32f0_usb.py:317-331 | a write that clears the flag ISTR names leaves strictly fewer flags set, whatever else it writes |
| UsbBlock.ServeInterrupts | src/rehostry_bdn9/peripheral_models/stm32f0_usb.py:46-53 | the firmware loop `while CTR: clear the named flag` terminates on every state with no flag set, and disturbs neither events nor other registers |
| UsbBlock.DeliveryFrame | src/rehostry_bdn9/peripheral_models/usb_host.py:191-206 | delivering a packet changes the RX buffer bytes and the low ten bits of COUNT_RX and nothing else in packet memory |
| UsbBlock.DeliveryGrows | src/rehostry_bdn9/peripheral_models/usb_host.py:199-206 | beyond packet memory a delivery makes the memory longer, by exactly what Python's slice assignment adds |
| UsbBlock.FilledIsFound | src/rehostry_bdn9/peripheral_models/usb_host.py:208-213 | the packet the host finds is the one the firmware stored in the TX buffer and described, whatever its store sizes |
| UsbBlock.LowByteFirst | src/rehostry_bdn9/peripheral_models/stm32f0_usb.py:148-173 | a store puts the low byte first |
| UsbBlock.DeliveredBytesReadBack | src/rehostry_bdn9/peripheral_models/stm32f0_usb.py:148-173 | a CPU copy loop with any mix of little-endian load sizes that covers a delivered packet reads back exactly its bytes first, also when the last load reaches past them |
| HostReassembly.PacketReadsBack | src/rehostry_bdn9/peripheral_models/stm32f0_usb.py:148-173 | and it does so in every run until the firmware clears CTR_RX or writes to packet memory itself, whatever the host and the other registers do meanwhile |
| HostReassembly.SetupBitTells | src/rehostry_bdn9/peripheral_models/usb_host.py:199-206 | in every run EP0's SETUP bit says whether the last packet given to EP0 started a transfer, whatever the firmware has written since |
| UsbBlock.UsbPma.HwWrite | src/rehostry_bdn9/peripheral_models/stm32f0_usb.py:165-173 | stores the value's low bytes little-endian inside the 1 KB, and leaves packet memory alone beyond it |
| UsbBlock.UsbPma.DeliverPacket | src/rehostry_bdn9/peripheral_models/usb_host.py:191-204 | the object's two writes produce the specified packet memory |
| UsbHostModel.UsbHost.RunStep | src/rehostry_bdn9/peripheral_models/usb_host.py:216-304 | one step of the nine-phase machine leaves host, registers and packet memory, and returns acted and fault, as specified, on every state |
| UsbHostModel.UsbHost.DataInStep | src/rehostry_bdn9/peripheral_models/usb_host.py:325-340 | the IN data stage: believed stall, fruitless step, or one packet appended and the stage left on the last |
| UsbHostModel.UsbHost.DataOutStep | src/rehostry_bdn9/peripheral_models/usb_host.py:342-351 | the OUT data stage: believed stall, fruitless step, or the data given and the stage left |
| UsbHostModel.UsbHost.StatusStep | src/rehostry_bdn9/peripheral_models/usb_host.py:279-297 | both status stages |
| UsbHostModel.UsbHost.StartNextTransfer | src/rehostry_bdn9/peripheral_models/usb_host.py:353-372 | pops the queue's head and sends its SETUP, or fails between the two when the descriptor is outside packet memory |
| UsbHostModel.UsbHost.SetupStep | src/rehostry_bdn9/peripheral_models/usb_host.py:237-266 | the phases before EP0 is known to be open |
| UsbHostModel.UsbHost.DrainStep | src/rehostry_bdn9/peripheral_models/usb_host.py:227-235 | takes one packet of the lowest ready interrupt endpoint, if any is ready |
| UsbHostModel.UsbHost.FinishTransfer | src/rehostry_bdn9/peripheral_models/usb_host.py:374-396 | clears the current transfer and both counters and publishes one RESP line, or none if there was no transfer |
| UsbHostModel.UsbHost.GivePacket | src/rehostry_bdn9/peripheral_models/usb_host.py:199-206 | gives a packet, or faults with nothing changed |
| UsbHostModel.UsbHost.TakePacket | src/rehostry_bdn9/peripheral_models/usb_host.py:208-213 | takes a packet, or faults with nothing changed |
| UsbHostModel.UsbHost.Request | src/rehostry_bdn9/peripheral_models/usb_host.py:462-466 | queues exactly the packable requests, at the tail |
| UsbHostModel.RequestSaysWhat | src/rehostry_bdn9/peripheral_models/usb_host.py:125-135 | the eight SETUP bytes hold the request's fields in the order of USB 2.0, section 9.3; data is wanted of IN requests only and sent with OUT requests only |
| UsbHostModel.DecideDrives | src/rehostry_bdn9/peripheral_models/usb_host.py:177-183 | whatever is seen, a step acts on EP0 only when EP0 owes its handler nothing, and takes from it only when STAT_TX is VALID |
| HostRuns.NeverBothFlags | src/rehostry_bdn9/peripheral_models/usb_host.py:177-183 | in every interleaving with arbitrary CPU writes no endpoint ever has CTR_RX and CTR_TX set together, and the next host step sets at most one flag in all |
| HostRuns.ServedInOrder | src/rehostry_bdn9/peripheral_models/usb_host.py:36-50 | on every endpoint, in every run: transactions completed are those acknowledged followed by the one outstanding, so the firmware sees them in the order they happened |
| HostRuns.StepTouchesOne | src/rehostry_bdn9/peripheral_models/usb_host.py:216-304 | a host step changes at most one endpoint register, only one with no flag pending, and never clears a flag |
| HostRuns.PacketsConserved | src/rehostry_bdn9/peripheral_models/usb_host.py:199-235 | per endpoint and direction, armings of STAT equal packets moved plus withdrawals plus the one still standing: none is moved twice or invented |
| HostRuns.StepOnlyNaks | src/rehostry_bdn9/peripheral_models/usb_host.py:199-213 | besides CTR and SETUP a host step changes of a register only the STAT of the direction a packet moved in, to NAK |
| HostRuns.PacketIsTxBuffer | src/rehostry_bdn9/peripheral_models/usb_host.py:208-213 | the packet a step takes is the bytes the TX descriptor of its endpoint points at |
| HostRuns.EventsLatch | src/rehostry_bdn9/peripheral_models/stm32f0_usb.py:245-266 | RESET is latched exactly by the host's bus reset and SOF by a start-of-frame, and each stays until the firmware writes 0 to it |
| HostRuns.RegistersRemember | src/rehostry_bdn9/peripheral_models/stm32f0_usb.py:333-369 | each other register holds what was last written, and CNTR and BCDR decide enabled and attached by their own bits |
| HostRuns.SetupInOrder | src/rehostry_bdn9/peripheral_models/usb_host.py:237-266 | from power-on the host resets the bus exactly after it found the device attached and enabled, and starts its script exactly after it then found EP0 open |
| HostRuns.InterruptsFirst | src/rehostry_bdn9/peripheral_models/usb_host.py:218-235 | in every later phase a step takes the packet of the lowest interrupt endpoint that offers one, and EP0 has to wait |
| HostRuns.Ep0HasItsTurn | src/rehostry_bdn9/peripheral_models/usb_host.py:218-235 | without such an endpoint, or before that, EP0 has its turn |
| HostRuns.ActedTells | src/rehostry_bdn9/peripheral_models/usb_host.py:216-304 | a step returns true iff it drives the wire or runs out of patience, both told beforehand |
| HostRuns.ShapeHolds | src/rehostry_bdn9/peripheral_models/usb_host.py:315-396 | in every run in which no start failed a transfer is current exactly in the four transfer phases, and each phase has the request that belongs in it |
| HostRuns.StepKeepsShape | src/rehostry_bdn9/peripheral_models/usb_host.py:353-372 | a host step keeps that shape iff it is not a start that fails |
| HostRuns.FaultKeeps | src/rehostry_bdn9/peripheral_models/usb_host.py:185-213 | any other step that meets a descriptor outside packet memory leaves registers, memory and the host as they were, but for the STALL run |
| HostRuns.StepForeseen | src/rehostry_bdn9/peripheral_models/usb_host.py:216-304 | whether a step drives the wire, and whether it fails, is decided by phase, queue, endpoint registers and descriptor table, as two checks that can be made before it |
| HostRuns.TransfersConserved | src/rehostry_bdn9/peripheral_models/usb_host.py:353-396 | in every run in which no start failed answered tags, then the current one, then the queue are exactly the tags enqueued, in order, and completed plus stalls counts the RESP lines |
| HostRuns.TransfersAccounted | src/rehostry_bdn9/peripheral_models/usb_host.py:315-396 | in every run whatever, failed starts included, each transfer enqueued is answered, current, waiting, or displaced by a later start, exactly once; the first three kinds are in FIFO order; and completed plus stalls counts the RESP lines |
| HostProgress.TransferIsAnswered | src/rehostry_bdn9/peripheral_models/usb_host.py:315-351 | in every run, whatever the device does, a current transfer has its answer once its rank's number of EP0 steps has gone by; a step that fails on a descriptor outside packet memory uses up no patience and is not counted |
| HostProgress.RankRunsOut | src/rehostry_bdn9/peripheral_models/usb_host.py:315-372 | in every run, until the answer, rank plus EP0 steps that did not fail never exceeds the starting rank |
| HostProgress.StartedRank | src/rehostry_bdn9/peripheral_models/usb_host.py:353-366 | a transfer just started has rank 4001*(ceil(want/64)+1), 2*4001 or 4001, for the IN, OUT and no-data shapes |
| HostQueue.WaitingIsAnswered | src/rehostry_bdn9/peripheral_models/usb_host.py:268-323 | in every run in which no start failed, a waiting transfer and those before it are answered once so many EP0 steps have gone by: the start and bound of each, what is left of the current one, or the step that wakes an idle host |
| HostQueue.WorkRunsOut | src/rehostry_bdn9/peripheral_models/usb_host.py:268-323 | until m more transfers are answered, the work left plus the effective steps taken never exceeds the work at the start |
| HostQueue.IdleWakes | src/rehostry_bdn9/peripheral_models/usb_host.py:299-304 | an idle host takes up the queue with its next EP0 step iff something is queued |
| HostQueue.UnservicedStarves | src/rehostry_bdn9/peripheral_models/usb_host.py:268-271 | between two transfers, with EP0's flag never cleared, nothing is started or answered in any run however long |
| HostProgress.CountersAreObservations | src/rehostry_bdn9/peripheral_models/usb_host.py:307-328 | a stage is entered when the phase changes or a packet moves; the patience counter is the number of EP0 steps since then that did not fail, the stall counter the length of the trailing run of STALLs seen since then |
| HostProgress.StallNeedsEvidence | src/rehostry_bdn9/peripheral_models/usb_host.py:279-328 | a step reports a stall iff the last 24 observations of the stage were STALL, or more than 4000 steps of it have passed and EP0 is still not ready |
| HostReassembly.DataIsThePackets | src/rehostry_bdn9/peripheral_models/usb_host.py:325-340 | the current transfer holds exactly the packets taken since its SETUP, and leaves the data stage exactly at the first short or sufficient one |
| HostReassembly.FragmentsClose | src/rehostry_bdn9/peripheral_models/usb_host.py:338-339 | no proper prefix of a device's fragmentation ends the data stage, and the whole ends it with exactly the payload |
| HostReassembly.ReassemblyIsIdentity | src/rehostry_bdn9/peripheral_models/usb_host.py:325-340 | fragment then reassemble is the identity: the stage is left exactly on the last fragment, with exactly the first min(length of D, want) bytes |
| HostReassembly.AnswerIsPayload | src/rehostry_bdn9/peripheral_models/usb_host.py:279-286 | the RESP line published for a completed IN transfer carries exactly that payload |
| HostReassembly.TableInsideIsFaultFree | src/rehostry_bdn9/peripheral_models/usb_host.py:185-197 | firmware that keeps its descriptor table inside the 1 KB never makes a step fail, so every law of runs without a failed start holds of it |
| HostReassembly.LostIffOutside | src/rehostry_bdn9/peripheral_models/usb_host.py:353-372 | a transfer about to be started, in every continuation: iff EP0's descriptor lies inside packet memory it goes on the wire, and is answered within its bound; otherwise it meets the fate below |
| HostReassembly.OrphanMeetsFate | src/rehostry_bdn9/peripheral_models/usb_host.py:315-372 | in every run from a failed start the transfer stays current but off the wire until the next start displaces it, unless patience runs out first and it is the next transfer answered, as stalled |
| HostReassembly.OrphanGivenUp | src/rehostry_bdn9/peripheral_models/usb_host.py:268-271 | with EP0's flag never cleared the orphan is reported stalled after 4001 EP0 steps |
| HostReports.ReportsAreThePackets | src/rehostry_bdn9/peripheral_models/usb_host.py:218-235 | in every run the reports published are exactly the non-empty packets taken from the three interrupt endpoints, in order, with the bytes of their TX buffers |
| Timer.Tim2.PollCompare | src/rehostry_bdn9/peripheral_models/stm32f0_timers.py:191-207 | fires iff armed, not fired for this CCR1, and reached |
| Timer.Tim2.Deadline | src/rehostry_bdn9/peripheral_models/stm32f0_timers.py:183-189 | the compare value waited for, or none |
| Timer.Tim2.HwWrite | src/rehostry_bdn9/peripheral_models/stm32f0_timers.py:241-270 | re-arms on every CCR1 write and on a DIER enabling edge only |
| Delivery.UsbPump.Pump | src/rehostry_bdn9/peripheral_models/usb_pump.py:117-187 | one pump call: budget, throttle, SOF, host step, and the line raised only when wanted, uninhibited, alone and wired up |
| Delivery.UsbPump.Inhibit | src/rehostry_bdn9/peripheral_models/usb_pump.py:82-106 | sets or clears the budget and nothing else |
| Delivery.IdlePump.Idle | src/rehostry_bdn9/bp_handlers/chibios_pump.py:158-227 | one idle visit: inhibit lifted, pump forced, then the deferred or newly reached compare delivered if nothing is queued |
| Delivery.IdlePump.Tick | src/rehostry_bdn9/bp_handlers/chibios_pump.py:176-227 | the timer half of an idle visit |
| Delivery.NmiSwitch.Entering | src/rehostry_bdn9/bp_handlers/chibios_pump.py:285-301 | opens the inhibit and drops what is foreign |
| Delivery.NmiSwitch.Switch | src/rehostry_bdn9/bp_handlers/chibios_pump.py:253-282 | drops what is foreign, injects the NMI and closes the inhibit, unless the NMI is queued already |
| DeliveryRuns.BusIsARun | src/rehostry_bdn9/peripheral_models/usb_pump.py:126-153 | the bus inside the whole machine always is the end of a bus run, so every law of host runs holds of the machine |
| DeliveryRuns.MachineKeepsExclusion | src/rehostry_bdn9/peripheral_models/usb_pump.py:117-187 | one unserviced transaction per endpoint, over every history of the whole machine |
| DeliveryRuns.MachineConservesTransfers | src/rehostry_bdn9/peripheral_models/usb_pump.py:117-187 | transfers conserved in order, over every history of the whole machine in which no start failed |
| DeliveryRuns.MachineAccountsTransfers | src/rehostry_bdn9/peripheral_models/usb_pump.py:117-187 | every transfer accounted for once, and those not displaced in FIFO order, over every history of the whole machine |
| DeliveryRuns.PowerOnMeetsLaws | src/rehostry_bdn9/peripheral_models/usb_host.py:141-161 | the machine as constructed meets the start conditions of every law of runs and histories |
| DeliveryRuns.PendingAtMostOne | src/rehostry_bdn9/bp_handlers/chibios_pump.py:202-211 | in every interleaving of pump, idle, entering, switch and drain the pending list holds at most one entry |
| DeliveryRuns.WindowHoldsNoPeripheral | src/rehostry_bdn9/bp_handlers/chibios_pump.py:285-301 | from entering on, through at most 63 pump calls and no idle visit, no peripheral interrupt is pending |
| DeliveryRuns.NmiArrivesAlone | src/rehostry_bdn9/bp_handlers/chibios_pump.py:253-301 | end to end: nothing foreign through the window, exactly the NMI after the spin, and nothing joins it until it is drained |
| DeliveryRuns.TicksConserved | src/rehostry_bdn9/bp_handlers/chibios_pump.py:187-215 | compares fired are exactly ticks injected plus the one pending, while TIM2's vector is live |
| DeliveryRuns.CompareIsOneShot | src/rehostry_bdn9/peripheral_models/stm32f0_timers.py:183-207 | compares never exceed CCR1 writes plus DIER enabling edges |
| DeliveryRuns.Cc1ifTells | src/rehostry_bdn9/peripheral_models/stm32f0_timers.py:191-256 | CC1IF is set by each compare and cleared exactly by writing 0 to it |
| DeliveryRuns.DisarmedNeverFires | src/rehostry_bdn9/peripheral_models/stm32f0_timers.py:257-266 | once DIER switches the compare off no compare fires until DIER switches it on |
| DeliveryCounters.AlarmIsAsWritten | src/rehostry_bdn9/peripheral_models/stm32f0_timers.py:241-270 | the alarm stands at the last CCR1 written, while the last DIER written has the compare bit |
| DeliveryCounters.IdleMovesTime | src/rehostry_bdn9/bp_handlers/chibios_pump.py:196-226 | an idle visit moves time by one tick with no alarm, to an alarm less than 2^31 ahead, and not at all otherwise; the jump and late-tick counters count exactly those visits |
| DeliveryRuns.DeferredTickIsInjected | src/rehostry_bdn9/bp_handlers/chibios_pump.py:187-195 | a deferred compare is injected by an idle visit iff its forced pump leaves the queue empty, and otherwise stays as it was |
| DeliveryRuns.DeferredTickWaits | src/rehostry_bdn9/bp_handlers/chibios_pump.py:177-187 | a deferred compare stays pending until a tick is injected |
| DeliveryRuns.IdleReachesDeadline | src/rehostry_bdn9/bp_handlers/chibios_pump.py:197-214 | an idle visit delivers an armed compare at once iff its deadline is not exactly 2^31 ticks ahead |
| DeliveryRuns.DroppedTickIsGone | src/rehostry_bdn9/bp_handlers/chibios_pump.py:253-301 | a TIM2 tick dropped by entering or by switch is never queued again in any history that does not arm the compare anew, although it is counted as held back |
| DeliveryRuns.IdleInjectsIff | src/rehostry_bdn9/bp_handlers/chibios_pump.py:158-226 | for every state, told before the visit: an idle visit injects one tick, alone, iff nothing is queued, the vector is live, the host step will not fail and IRQ 31 will not be raised, and a compare waits or an alarm's lead is not 2^31 |
| DeliveryRuns.NextIdleVisitInjects | src/rehostry_bdn9/bp_handlers/chibios_pump.py:158-226 | an alarm, or a compare that waits, stands through every event but a TIM2 write and an idle visit, so the same holds of the next idle visit however late it comes |
| DeliveryRuns.RearmedTickReturns | src/rehostry_bdn9/bp_handlers/chibios_pump.py:172-226 | once armed anew, by CCR1 or by a DIER edge, the next idle visit after any such events injects the tick iff it may inject and the deadline is then not 2^31 ahead |
| DeliveryRuns.HalfwayAlarmHangs | src/rehostry_bdn9/bp_handlers/chibios_pump.py:197-226 | with an alarm exactly 2^31 ahead no idle visit, drain, breakpoint, count read, packet-memory write or client request ever moves the clock or delivers the tick |
| Witnesses.TickCanBeLost | src/rehostry_bdn9/bp_handlers/chibios_pump.py:285-301 | from power-on: DIER, CCR1, an idle visit and entering lose the one compare that fired, for every continuation that arms nothing |
| Witnesses.AlarmCanHang | src/rehostry_bdn9/peripheral_models/guest_clock.py:88-99 | from power-on: DIER and CCR1 set an alarm 2^31 ahead that no number of idle visits reaches |
| Witnesses.FlagCanWait | src/rehostry_bdn9/bp_handlers/chibios_pump.py:253-282 | from power-on: EP0's CTR_RX is raised while the NMI is queued, and with the list drained and no inhibit the next forced pump queues nothing |
| Witnesses.TransferCanBeLost | src/rehostry_bdn9/peripheral_models/usb_host.py:353-372 | from power-on: a stray BTABLE in the advance phase fails a start, and the next start displaces that transfer |
| DeliveryRuns.BudgetRunsOut | src/rehostry_bdn9/peripheral_models/usb_pump.py:64-75 | one opening of the inhibit is spent by 64 pump calls: it withholds the line for at most 63 |
| DeliveryRuns.DeafnessEnds | src/rehostry_bdn9/peripheral_models/usb_pump.py:117-187 | after 63 pump calls any event that calls the pump queues IRQ 31 exactly when it would have without the inhibit, so at the latest on the first unthrottled call at or past the SOF deadline whose step does not fail |
| DeliveryRuns.SpinEndsDeafness | src/rehostry_bdn9/bp_handlers/chibios_pump.py:276-282 | from the spin's handler on, until the next entry, no pump call is held back by the inhibit |
| DeliveryRuns.IrqRaisedIff | src/rehostry_bdn9/peripheral_models/usb_pump.py:117-187 | for every state: a pump call queues IRQ 31 iff unthrottled, enabled, uninhibited, alone and wired up, and a SOF is due on a step that does not fail or the step drives the wire; no latched flag has a part in it |
| DeliveryRuns.LatchedFlagWaitsForSof | src/rehostry_bdn9/peripheral_models/usb_pump.py:142-159 | while EP0's own flag is latched and no interrupt endpoint is ready, in every phase but the bus reset's, an unthrottled pump call raises the line iff a SOF is due |
| DeliveryRuns.FlagsStayLatched | src/rehostry_bdn9/peripheral_models/usb_pump.py:94-96 | no event but a CPU register write clears a CTR flag |
| DeliveryRuns.ThrottleCounts | src/rehostry_bdn9/peripheral_models/usb_pump.py:131-135 | in every history exactly every 48th unforced pump call goes on |
| DeliveryRuns.HostKeepsPace | src/rehostry_bdn9/peripheral_models/usb_pump.py:126-153 | with the block enabled the host takes exactly one step for each idle visit and for every 48th other pump call |
| DeliveryCounters.CountersTell | src/rehostry_bdn9/bp_handlers/chibios_pump.py:187-300 | in every history the counters of delivered, TIM2 and NMI interrupts count those queued, and the deferred counter those held back |
| DeliveryCounters.HoldsBackTheForeign | src/rehostry_bdn9/bp_handlers/chibios_pump.py:261-276 | on any list: a handler of the context switch drops and counts every entry but the NMI, and empties the list if there was one |
| DeliveryCounters.FirstVerdictStands | src/rehostry_bdn9/peripheral_models/usb_pump.py:164-187 | the verdict on the USB vector is that of the first call that needed it and could read it, and is never taken back |
| DeliveryRuns.SofsAreSpaced | src/rehostry_bdn9/peripheral_models/usb_pump.py:142-148 | consecutive SOFs are at least a period apart in unbounded time, over every history and wrap |
| DeliveryRuns.SofExactly | src/rehostry_bdn9/peripheral_models/usb_pump.py:142-148 | a call that goes on latches a SOF iff the device is attached and a period has passed since the last, for any gap under 2^31 ticks more |
| DeliveryRuns.SofLatched | src/rehostry_bdn9/peripheral_models/usb_pump.py:142-148 | on every state, when a pump call latches a SOF, and the deadline it then sets |
| Encoder.HeldLowIsRight | src/rehostry_bdn9/peripheral_models/stm32f0_gpio.py:156-211 | in every run the pins held low are exactly the pressed switches' pins and the pads at Gray level 0 |
| Encoder.IdrBitIsLevel | src/rehostry_bdn9/peripheral_models/stm32f0_gpio.py:236-248 | the firmware's bit of a derived IDR is that pin's level |
| Encoder.RolesAreTables | src/rehostry_bdn9/peripheral_models/stm32f0_gpio.py:88-96 | the fifteen pins are distinct, and the tables name the pins of their roles |
| Encoder.TurnRedirectsOwed | src/rehostry_bdn9/peripheral_models/stm32f0_gpio.py:198-199 | a turn adds the phases asked for iff nothing was owed in the other direction |
| Encoder.TurnCanRedirect | src/rehostry_bdn9/peripheral_models/stm32f0_gpio.py:180-200 | from power-on: one detent each way leaves eight phases owed the second way |
| Encoder.TurnIsOwed | src/rehostry_bdn9/peripheral_models/stm32f0_gpio.py:180-200 | a turn adds phases to its own encoder only, at least one detent's worth, and moves no pad by itself |
| Encoder.GpioPage.IdrValue | src/rehostry_bdn9/peripheral_models/stm32f0_gpio.py:236-248 | the accumulating loop builds the number whose bits are the pin levels |
| Encoder.GpioPage.AdvanceEncoders | src/rehostry_bdn9/peripheral_models/stm32f0_gpio.py:213-223 | walks each encoder that owes a phase by exactly one |
| Encoder.GpioPage.ReadInput | src/rehostry_bdn9/peripheral_models/stm32f0_gpio.py:251-264 | an IDR read: clock, pump, a phase on every sixteenth read, then the derived value |
| Encoder.AccessIsActivity | src/rehostry_bdn9/peripheral_models/stm32f0_gpio.py:251-264 | one access is worth exactly one sixty-fourth of a tick |
| Encoder.GpioPage.EncoderTurn | src/rehostry_bdn9/peripheral_models/stm32f0_gpio.py:180-200 | queues four phases a detent, at least one detent, for a known encoder only |
| Encoder.GpioPage.PressSwitch | src/rehostry_bdn9/peripheral_models/stm32f0_gpio.py:156-166 | holds the switch's own pin low, for a known switch only |
| Encoder.GpioPage.ReleaseSwitch | src/rehostry_bdn9/peripheral_models/stm32f0_gpio.py:168-178 | releases one switch or all of them |
| Encoder.PressShows | src/rehostry_bdn9/peripheral_models/stm32f0_gpio.py:156-166 | pressing a switch pulls its own pin low and no other |
| Encoder.ReleaseShows | src/rehostry_bdn9/peripheral_models/stm32f0_gpio.py:168-178 | releasing one pressed switch, or all, lets exactly their pins go high |
| Encoder.OutputReadsBack | src/rehostry_bdn9/peripheral_models/stm32f0_gpio.py:236-248 | an output pin reads back what was last stored for it |
| Encoder.InputReadsLevel | src/rehostry_bdn9/peripheral_models/stm32f0_gpio.py:236-248 | an input reads low iff it is pulled down or held low |
| EncoderReader.LutCountsSteps | STATUS.md:740-743 | QMK's sixteen-entry table counts a phase step as one pulse and no step as none, in every phase |
| EncoderReader.TornSample | src/rehostry_bdn9/peripheral_models/stm32f0_gpio.py:202-211 | a sample torn by one phase step equals the old phase or the new one |
| EncoderReader.ReaderKeepsUp | src/rehostry_bdn9/peripheral_models/stm32f0_gpio.py:213-264 | through every fair run the reader's counters are the phase steps its samples have seen |
| EncoderReader.TurnDecodesExactly | src/rehostry_bdn9/peripheral_models/stm32f0_gpio.py:180-200 | a turn of k detents from rest decodes to exactly k events in one direction and none in the other, for every reader whose consecutive samples span at most 16 reads; the direction is the asked one iff pad A is the higher bit |
| EncoderReader.TurnNeverOvershoots | src/rehostry_bdn9/peripheral_models/stm32f0_gpio.py:180-200 | and at no earlier moment has it reported more than k, or any in the other direction |
| EncoderReader.PollsAreFair | src/rehostry_bdn9/peripheral_models/stm32f0_gpio.py:73-77 | the firmware's poll of fifteen reads meets that span |
| EncoderReader.LateTurnFallsShort | src/rehostry_bdn9/peripheral_models/stm32f0_gpio.py:213-223 | the span is tight: with samples seventeen reads apart two phases can pass unseen, and then a turn of k detents is decoded to k - 1 events, however well the reader keeps up later |
| EncoderReader.LateReaderExists | src/rehostry_bdn9/peripheral_models/stm32f0_gpio.py:73-77 | such a reader exists from power-on, for every encoder, bit order and number of detents |
| EncoderReader.FirmwareLoopDecodes | src/rehostry_bdn9/peripheral_models/stm32f0_gpio.py:73-77 | on the firmware's own polling loop every turn is decoded exactly once 64k+32 reads have been made |
| EncoderTurns.TurnsAddUp | src/rehostry_bdn9/peripheral_models/stm32f0_gpio.py:180-264 | through every run with close enough samples, however and whenever the encoder is turned, four times the net events plus the pulses is the net displacement the last sample saw, and all of it once that sample was taken at rest |
| EncoderTurns.NetTurnsDecodeExactly | src/rehostry_bdn9/peripheral_models/stm32f0_gpio.py:180-264 | turns that do not reverse phases still owed, overlapping or not, decode to exactly the net number of detents asked for |
| Bridge.ExactSequence | src/rehostry_bdn9/peripheral_models/usb_host.py:489-535 | in every interleaving, line for line: a connected client gets the live lines that overtook its backlog, the backlog, and the live lines after those, each in the order published |
| Bridge.EveryLineOnce | src/rehostry_bdn9/peripheral_models/usb_host.py:489-535 | in every interleaving of publisher and acceptor, what a connected client has received and what is on its way are each line it is meant to get, once |
| Bridge.DeliveredExactlyOnce | src/rehostry_bdn9/peripheral_models/usb_host.py:489-535 | with both threads outside their sections, a client has line i exactly once iff it is among the last 600 before it joined or later, and otherwise not at all |
| Bridge.InOrderIff | src/rehostry_bdn9/peripheral_models/usb_host.py:489-535 | those lines are in order iff no live line was sent to the client before its backlog, or the backlog was empty |
| Bridge.ClientsInOrder | src/rehostry_bdn9/peripheral_models/usb_host.py:489-535 | a line is sent to the connected clients in the order in which they connected, without those that have left |
| Bridge.OnlyItsOwn | src/rehostry_bdn9/peripheral_models/usb_host.py:494-535 | an event sends a client at most its backlog or the line being published, and one that has left nothing |
| Bridge.LiveLineOvertakes | src/rehostry_bdn9/peripheral_models/usb_host.py:489-535 | a run in which the second line arrives before the first |
| Bridge.BridgeHub.PublishLocked | src/rehostry_bdn9/peripheral_models/usb_host.py:489-492 | backlog extended and clients snapshot in one locked section |
| Bridge.BridgeHub.AcceptLocked | src/rehostry_bdn9/peripheral_models/usb_host.py:529-531 | client registered and backlog snapshot in one locked section |
| Bridge.BridgeHub.SendToNext | src/rehostry_bdn9/peripheral_models/usb_host.py:494-498 | one live send, outside the lock |
| Bridge.BridgeHub.SendGreeting | src/rehostry_bdn9/peripheral_models/usb_host.py:532-535 | the backlog send, outside the lock |
| Descriptors.ParseInterfaces | src/rehostry_bdn9/attack.py:304-336 | on any bytes the loop terminates, never reads out of range, and computes the walk |
| Descriptors.OwnedIff | src/rehostry_bdn9/attack.py:321-335 | at any descriptor of any bytes: what the walker records depends on that descriptor's own bytes alone iff its stated length holds the fields that are read |
| Descriptors.OthersAreSkipped | src/rehostry_bdn9/attack.py:321-335 | a descriptor of any other type is passed over by the length it states, even a length of 1; a length of 0 ends the walk |
| Descriptors.ParseInvertsEncode | src/rehostry_bdn9/attack.py:304-336 | walking a serialised configuration returns exactly the interfaces it declares, however their descriptors are interspersed, whatever precedes the first and whatever follows a zero length |
| Descriptors.RoundTrip | src/rehostry_bdn9/attack.py:304-336 | every list of interfaces has a serialisation, and parsing it returns the list |

## Left out

- The greeting line in front of a client's backlog.
- Lock objects, sockets, threads as such, logging, environment variables and the web panel: I/O. The environment-tunable constants have their default values.
- The bridge's command parser, JSON, `snapshot`, `_decode`, the `responses` dictionary, `in_reports` trimming and console text: side records that do not feed back into the machine.
- The sixteen rows of the enumeration script: `script` is a parameter, any list of fresh transfers.
- Counters that are only reported (`_steps`, `sofs`, `resets`, `visits`, `_inhibited`, `enc_steps_applied`); the others are in DeliveryCounters.
- Plain storage outside the modelled registers: the I2C part of the USB page, the CRS part of the packet-memory page, TIM2's other registers.
- GPIO output: BSRR and BRR appear as stores of the ODR value they produce.
- TIM3, TIM14, RCC and the other peripherals: only the clock activity they report.
- The pump before a backend or the peripherals exist, in which case it returns at once.
- The backend beyond its pending list: draining takes any number of entries from the front.
- A vector-slot read is a value handed in with the event that makes it: unreadable, or a word.
- `run_attack`, grading, spawning, the command line and the fuzzing tools: scripted orchestration.
- The walker's record is the last element of its result, not a separate object aliased with it.
- DeliveryRuns.TicksConserved: assumes TIM2's vector slot is never read as zero; with a zero slot the source drops the compare it takes.
- HostRuns.TransfersConserved: stated for runs without a failed start, which loses a transfer; HostRuns.TransfersAccounted covers all runs.
- UsbBlock.DeliveryFrame: assumes the RX buffer lies inside packet memory and misses this endpoint's COUNT_RX word; the model itself follows Python's slice assignment outside that range.
- Bridge.DeliveredExactlyOnce: sends to a connected client succeed.
