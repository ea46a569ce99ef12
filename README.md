# VT34xx SPI master and SDIO CIS parser, modelled in Dafny

This project models two independent parts of a Linux board-support tree.

**The SPI master driver** (`drivers/spi/vt34xx_spi.c`):
- *Register helpers.* Read-modify-write set and clear of control bits, and bounded polling of status bits.
- *Configuration.* The per-message register program: the clock divisor with its 5 MHz fallback, the clock mode with its mode-3 fallback, bit order, port mode and select-line drive.
- *Chip select.* Asserting and releasing the select line.
- *Polled engine.* A transfer moves through the 32-byte FIFO in full chunks and then a remainder.
- *DMA engine.* Modelled only as an abstract step.
- *Submission.* `vt34xx_spi_setup` validates and normalises a device. `vt34xx_spi_transfer` validates and normalises a message and queues it.
- *Worker.* `vt34xx_spi_work` drains the queue in order, picks DMA or polled transfer for each transfer, sums the byte counts and follows the chip-select discipline.

**The SDIO Card Information Structure (CIS) parser** (`drivers/mmc1/core/sdio_cis.c`). The CIS is a tag-length-value list, following chapter 16 of the SDIO Simplified Specification, Part E1 (the PC Card metaformat). The model covers:
- the 24-bit CIS pointer;
- the tuple walk: the 0x00 null tuple, 0xff end marks, and code/link/body;
- the decoders for VERS_1 (0x15), MANFID (0x20) and FUNCE (0x22), in both its common and its per-function form;
- the list of tuples that are queued for drivers, which a function's list shares with the card's list;
- the routines that free those lists.

## Layout

| file | module | contents |
|---|---|---|
| `common.dfy` | `Common` | `Option`, `Result`, the errno values used, zero-filled buffers |
| `spi_defs.dfy` | `SpiDefs` | register layout, driver constants, and the device, transfer, message, environment and controller-state datatypes |
| `spi_spec.dfy` | `SpiSpec` | register access, polling, FIFO reset, clock divisor and mode, `regs_config`, chip select: functions from one controller state to the next, with their lemmas |
| `spi_engine_spec.dfy` | `SpiEngine` | the polled engine (chunk loop, remainder) and the DMA step, as functions, with their lemmas |
| `spi_dispatch_spec.dfy` | `SpiDispatch` | support predicates, `setup`, `transfer` (submit), the per-transfer and per-message worker steps and the worker loop, with their lemmas |
| `spi_controller.dfy` | `SpiController` | class `Controller`: the register file and bus state updated in place, one method per driver helper, each proved against its function in `SpiSpec`/`SpiEngine` |
| `spi_master.dfy` | `SpiMaster` | class `Device` (`setup`), class `Master` (queue, `transfer`, `work`), each method proved against `SpiDispatch` |
| `sdio_decode.dfy` | `SdioDecode` | bytes, little-endian fields, the MANFID, FUNCE and VERS_1 decoders, the parser table, and the FUNCE finding |
| `sdio_walk.dfy` | `SdioWalk` | the CIS pointer, the tuple walk as a function over the card's byte space, and its lemmas |
| `sdio_cis.dfy` | `SdioCis` | classes `TupleNode`, `Card` and `Func`; the parser methods; the do-while walk `ReadCis`; read and free for the common and function CIS |

How the SPI environment is represented:
- The hardware is an environment value `Env`. It holds the input clock, the hardware description, the poll timeout, and three input streams: the values read by every polling loop, the bytes read from the receive FIFO port, and the DMA controller's answers (channel granted, transfer done in time).
- The controller state `Hw` holds the register map, a cursor into each stream, the two select pins, the transmit bursts sent so far, and the DMA channel and acknowledge flags.

How the SDIO card is represented:
- The card's register and CIS space is a byte sequence. A read outside it fails with -EIO.

## Model

| member | source | states |
|---|---|---|
| SpiSpec.WriteReg | drivers/spi/vt34xx_spi.c:58-61 | the written register reads back the value; every other register, the poll cursor and the bus are unchanged |
| SpiSpec.SetBit | drivers/spi/vt34xx_spi.c:81-87 | the register becomes old \| mask; no other register changes |
| SpiSpec.ClrBit | drivers/spi/vt34xx_spi.c:96-102 | the register becomes old & ~mask; no other register changes |
| SpiSpec.SetBitIdempotent | drivers/spi/vt34xx_spi.c:81-87 | setting the same bits twice reads back, in every register, the same as setting them once |
| SpiSpec.ClrBitIdempotent | drivers/spi/vt34xx_spi.c:96-102 | clearing the same bits twice reads back, in every register, the same as clearing them once |
| SpiSpec.PollReadsMeaning | drivers/spi/vt34xx_spi.c:191-200 | a `while (timeout--)` poll succeeds iff one of the first `timeout` reads meets the condition; it stops at the first such read and otherwise makes every read |
| SpiSpec.TxRxFinishImmediate | drivers/spi/vt34xx_spi.c:227-251 | because the flag is ORed in, the transmit- and receive-finished polls succeed on their first read, whatever the hardware reports |
| SpiSpec.IsBusy | drivers/spi/vt34xx_spi.c:191-200 | returns 0 or -EAGAIN and changes no register |
| SpiSpec.ResetFifoStatus | drivers/spi/vt34xx_spi.c:375-414 | a FIFO reset returns 0 iff the TFR bit is seen clear in time and then the RFR bit is too; otherwise it returns -EAGAIN |
| SpiSpec.ResetFifoControl | drivers/spi/vt34xx_spi.c:375-414 | a successful FIFO reset leaves the control register as it was, with both reset bits clear |
| SpiSpec.ResetFifoFrame | drivers/spi/vt34xx_spi.c:407-414 | a FIFO reset touches only the control register and never the bus |
| SpiSpec.ClockDivisorMeaning | drivers/spi/vt34xx_spi.c:305-327 | the divisor d fits the 11-bit field and 2·s·d ≤ f < 2·s·(d+1). Here f is the input clock and s is the requested speed, or 5 MHz when the request is 0 or its divisor overflows |
| SpiSpec.SetClockDivMeaning | drivers/spi/vt34xx_spi.c:305-327 | the TCD field holds the divisor and every other control bit is kept |
| SpiSpec.ClockModeValue | drivers/spi/vt34xx_spi.c:345-356 | modes 0–3 are kept; anything above 3 becomes 3 |
| SpiSpec.SetClockModeMeaning | drivers/spi/vt34xx_spi.c:345-356 | the CPHS field holds the mode, or 3 above 3; every other control bit is kept |
| SpiSpec.ConfigClockMode | drivers/spi/vt34xx_spi.c:471 | `regs_config` takes `mode & 3`, so the mode-3 fallback never fires from it |
| SpiSpec.ClearRegs | drivers/spi/vt34xx_spi.c:456-461 | CR = 0, SR = all ones, CRE = 0x20; DFCR is kept |
| SpiSpec.RegsConfigFailsOnlyOnFifoReset | drivers/spi/vt34xx_spi.c:444-503 | `regs_config` returns 0 or -EAGAIN, and fails iff the FIFO reset after clearing the registers fails. A clock-phase conflict is not a failure |
| SpiSpec.RegsConfigControlWord | drivers/spi/vt34xx_spi.c:456-480 | on success CR is exactly the divisor field for the device speed, ORed with the clock-mode field, in master mode with slave select 0 |
| SpiSpec.RegsConfigCre | drivers/spi/vt34xx_spi.c:461 | on success CRE holds 0x20 |
| SpiSpec.RegsConfigDataFormat | drivers/spi/vt34xx_spi.c:482-497 | on success DFCR gains SPM for a point-to-point port, the bit-order bits for LSB-first, and SC only under program-driven select without a phase conflict |
| SpiSpec.RegsConfigFrame | drivers/spi/vt34xx_spi.c:444-503 | `regs_config` never touches the bus or the select pins |
| SpiSpec.CsActive | drivers/spi/vt34xx_spi.c:258-270 | the select pin goes low and nothing else on the bus changes; every register but DFCR is kept; under program-driven select DFCR loses DSV and DSE, otherwise no register changes |
| SpiSpec.CsInactive | drivers/spi/vt34xx_spi.c:277-287 | the select pin goes high and nothing else on the bus changes; every register but DFCR is kept; under program-driven select DFCR gains DSV and DSE, otherwise no register changes |
| SpiSpec.CsActiveSelects | drivers/spi/vt34xx_spi.c:258-287 | `cs_active` asserts the select line (pin low, and DSV/DSE clear when the module drives it) and `cs_inactive` releases it |
| SpiSpec.CsActiveInactive | drivers/spi/vt34xx_spi.c:258-287 | assert then release sets DSV\|DSE in DFCR under program-driven select and otherwise changes no register; the pin ends high and everything else is unchanged |
| SpiEngine.LoadFifo | drivers/spi/vt34xx_spi.c:514-525 | loading the FIFO appends exactly the next n bytes of the transmit data as one burst |
| SpiEngine.ChunksMeaning | drivers/spi/vt34xx_spi.c:548-589 | the chunking splits the data into pieces of 1..32 bytes whose concatenation is the data |
| SpiEngine.ChunkStepBursts | drivers/spi/vt34xx_spi.c:548-574 | one full iteration that does not time out sends the next 32 bytes and lowers `cnt` by 32 |
| SpiEngine.ChunkStepRx | drivers/spi/vt34xx_spi.c:559-562 | with a receive buffer, an iteration appends the next 32 FIFO bytes, in order |
| SpiEngine.ChunkStepNoRx | drivers/spi/vt34xx_spi.c:559-562 | without a receive buffer, the full-chunk loop reads nothing from the FIFO |
| SpiEngine.ChunkLoopInv | drivers/spi/vt34xx_spi.c:548-574 | the loop invariant holds: bursts sent = the chunks of the bytes done, received = the FIFO bytes read, `cnt` = len − done |
| SpiEngine.RemainderMeaning | drivers/spi/vt34xx_spi.c:576-589 | after the remainder, all of the data has been sent in chunks and, with a receive buffer, all len bytes received |
| SpiEngine.WriteReadMeaning | drivers/spi/vt34xx_spi.c:536-592 | the count returned is ≤ len and is either len or a multiple of 32. The bursts sent are the chunks of the first `count` bytes, and the bytes received are the first `count` FIFO bytes |
| SpiEngine.WriteReadResetFails | drivers/spi/vt34xx_spi.c:544-546 | if the first reset fails, nothing is sent and 0 is returned |
| SpiEngine.QuietWriteRead | drivers/spi/vt34xx_spi.c:536-592 | on hardware whose registers always read 0, the whole length is transferred. This is the special case used by the message-level lemmas; WriteReadCount gives the general count |
| SpiEngine.LoopResets | drivers/spi/vt34xx_spi.c:548-574 | the outcomes, each 0 or -EAGAIN, of the FIFO resets that end the passes of the burst loop, in order |
| SpiEngine.ChunkStepReset | drivers/spi/vt34xx_spi.c:548-574 | with a nonzero timeout, a pass lowers cnt by 32 and stops exactly when its closing reset fails |
| SpiEngine.LoopResetsMeaning | drivers/spi/vt34xx_spi.c:548-574 | the loop runs to its end iff all its resets succeed. When it stops, only the last reset failed, and cnt went down by 32 for every pass, the failed one included |
| SpiEngine.WriteReadCount | drivers/spi/vt34xx_spi.c:536-592 | the count is 0 if the opening reset fails, len if every loop reset succeeds, and otherwise 32 × the number of passes up to the failed reset (cnt is lowered at line 568 before the reset at 572) |
| SpiEngine.WriteReadFullIffResets | drivers/spi/vt34xx_spi.c:536-592 | the count is len iff len is 0, or the opening reset succeeds and every loop reset succeeds except possibly the one after the last full burst |
| SpiEngine.WriteReadPins | drivers/spi/vt34xx_spi.c:536-592 | the polled engine never moves a select pin |
| SpiEngine.DmaAnswer | drivers/spi/vt34xx_spi.c:647-679 | each DMA-controller answer is the next value of the answer stream, and the cursor advances by one |
| SpiEngine.DmaPrepare | drivers/spi/vt34xx_spi.c:633-639 | before DMA the select line is released and CR gains DRC\|RFTS\|TFTS |
| SpiEngine.DmaPrepareClock | drivers/spi/vt34xx_spi.c:635-636 | above 15 MHz the divisor field holds the divisor for 15 MHz; otherwise it is kept |
| SpiEngine.DmaRequest | drivers/spi/vt34xx_spi.c:646-665 | succeeds iff the transmit channel and, with a receive buffer, the receive channel are granted. A refused receive channel frees the transmit one |
| SpiEngine.DmaFinish | drivers/spi/vt34xx_spi.c:676-689 | once acknowledged it returns len and the received bytes, frees the transmit channel and, when it was requested, the receive channel; on timeout it returns 0 and keeps both |
| SpiEngine.DmaRun | drivers/spi/vt34xx_spi.c:669-689 | on completion in time it returns len and the received bytes and frees both channels; on timeout it returns 0 and keeps them |
| SpiEngine.DmaExit | drivers/spi/vt34xx_spi.c:690-693 | every exit clears both acknowledge flags |
| SpiEngine.DmaWriteRead | drivers/spi/vt34xx_spi.c:624-694 | the DMA engine returns 0 or len |
| SpiEngine.DmaMeaning | drivers/spi/vt34xx_spi.c:624-694 | returns 0 or len, and len iff the reset succeeds and every channel is granted and completes in time, from any channel state, including channels left held by an earlier timeout. It then frees the transmit channel and, when it was requested, the receive channel, and returns the received bytes |
| SpiEngine.DmaTimeoutKeepsChannels | drivers/spi/vt34xx_spi.c:676-679 | on a completion timeout the count is 0 and the channels stay held |
| SpiEngine.DmaRxRefusedFreesTx | drivers/spi/vt34xx_spi.c:654-660 | a refused receive channel gives 0 and frees the transmit channel. The receive channel is as before |
| SpiDispatch.BitsPerWordIsSupport | drivers/spi/vt34xx_spi.c:777-800 | 0 iff (8 and BITS8 enabled) or (16 and BITS16 enabled), else -EINVAL |
| SpiDispatch.SpeedHzIsSupport | drivers/spi/vt34xx_spi.c:808-824 | 0 iff min ≤ speed ≤ max, else -EINVAL |
| SpiDispatch.ClampedSpeed | drivers/spi/vt34xx_spi.c:952-954 | a speed of 0 or above the maximum becomes the maximum; anything else is kept |
| SpiDispatch.Setup | drivers/spi/vt34xx_spi.c:915-967 | returns 0 or -EINVAL; on success bits_per_word is 0 or supported and min ≤ max_speed_hz ≤ max; mode and chip select are untouched |
| SpiDispatch.SetupRejectsMode | drivers/spi/vt34xx_spi.c:926-932 | a mode bit outside CPOL\|CPHA\|LOOP\|LSB_FIRST gives -EINVAL with the device unchanged |
| SpiDispatch.SetupOutcome | drivers/spi/vt34xx_spi.c:934-961 | the exact outcome. A requested width of 0 becomes the slave default; an unsupported one is replaced by the slave default, and setup fails iff that default is unsupported too or the clamped speed is below the minimum |
| SpiDispatch.SetupFailureChangesDevice | drivers/spi/vt34xx_spi.c:935-936 | the device is changed before the checks, so a failed setup is not a no-op |
| SpiDispatch.Normalize | drivers/spi/vt34xx_spi.c:882-889 | a transfer width or speed that is 0 or unsupported is replaced by the device's; a supported one is kept; nothing else changes |
| SpiDispatch.FirstBad | drivers/spi/vt34xx_spi.c:867-880 | the index of the first transfer with no buffer but a nonzero length, or longer than the maximum |
| SpiDispatch.Reject | drivers/spi/vt34xx_spi.c:899-903 | a rejection sets the status to -EINVAL, returns -EINVAL, queues nothing, and completes iff `complete` is set |
| SpiDispatch.SubmitMeaning | drivers/spi/vt34xx_spi.c:852-904 | returns -EINVAL iff the message is empty, has no `complete`, or holds a bad transfer. It queues iff it returns 0, resets `actual_length`, and on success normalises every transfer |
| SpiDispatch.SubmitPartial | drivers/spi/vt34xx_spi.c:867-890 | a rejected message keeps the normalisation already applied to the transfers before the bad one, and leaves the rest untouched |
| SpiDispatch.ResetTransferSpeed | drivers/spi/vt34xx_spi.c:431-436 | a transfer with its own speed puts its divisor in the TCD field and keeps every other control bit; without one nothing changes; no other register, the bus or the poll cursor changes |
| SpiDispatch.PreEngine | drivers/spi/vt34xx_spi.c:730-735 | before a transfer the control register is the one the transfer's own speed gives; the select line is then asserted (the device is `Selected`, only its pin is driven low) if it was not, and otherwise nothing else changes |
| SpiDispatch.PreEngineClock | drivers/spi/vt34xx_spi.c:730-735 | a transfer runs at its own speed (TCD field = its divisor, other control bits kept) when it has one, and at the device's configured clock otherwise |
| SpiDispatch.Engine | drivers/spi/vt34xx_spi.c:738-745 | the engine chosen reports at most len bytes, and no received bytes without a receive buffer |
| SpiDispatch.StoreRx | drivers/spi/vt34xx_spi.c:561 | the bytes received fill the start of the receive buffer; the rest of the buffer and the transfer are unchanged (also line 683) |
| SpiDispatch.PostEngine | drivers/spi/vt34xx_spi.c:741-754 | the count is added to `actual_length`; a `cs_change` transfer releases the line |
| SpiDispatch.StepShape | drivers/spi/vt34xx_spi.c:729-755 | one transfer adds between 0 and len to the count and changes only its receive buffer |
| SpiDispatch.StepQuiet | drivers/spi/vt34xx_spi.c:738-745 | a polled transfer whose polls all succeed adds exactly len |
| SpiDispatch.StepRelease | drivers/spi/vt34xx_spi.c:751-754 | after a `cs_change` transfer the line is released and the flag cleared |
| SpiDispatch.RunPrefixBound | drivers/spi/vt34xx_spi.c:729-755 | after n transfers, `actual_length` ≤ the sum of their lengths |
| SpiDispatch.QuietActual | drivers/spi/vt34xx_spi.c:729-755 | with every poll succeeding and no DMA, `actual_length` is exactly the sum of the lengths |
| SpiDispatch.PolledSelectDiscipline | drivers/spi/vt34xx_spi.c:732-754 | across polled transfers the flag tracks the pin: when asserted the pin is low, and after a release it is high |
| SpiDispatch.PolledRunsSelected | drivers/spi/vt34xx_spi.c:732-745 | every polled transfer runs with its select pin low |
| SpiDispatch.RunEndReleased | drivers/spi/vt34xx_spi.c:729-755 | after the transfers, either the flag is set or the pin is high |
| SpiDispatch.MessageEndsReleased | drivers/spi/vt34xx_spi.c:757-761 | a message that ran ends with its select pin high |
| SpiDispatch.MessageShape | drivers/spi/vt34xx_spi.c:729-755 | a processed message keeps its transfers, in order, except for their receive buffers |
| SpiDispatch.MessageCount | drivers/spi/vt34xx_spi.c:741-743 | `actual_length` grows by at most the sum of the lengths |
| SpiDispatch.ProcessStatus | drivers/spi/vt34xx_spi.c:724-726 | the status is 0 or -EAGAIN, and -EAGAIN iff `regs_config` failed. In that case no transfer runs and the bus is untouched (also line 762) |
| SpiDispatch.WorkPrefixNext | drivers/spi/vt34xx_spi.c:710-766 | the worker's next iteration processes the next message of the queue and records its callback iff it calls it |
| SpiDispatch.WorkInOrder | drivers/spi/vt34xx_spi.c:710-766 | the i-th message processed is the i-th queued. The callbacks called are exactly those of the messages with both `complete` and `context` set, in queue order |
| SpiController.Controller.WriteReg | drivers/spi/vt34xx_spi.c:58-61 | the state becomes `SpiSpec.WriteReg` of the old state |
| SpiController.Controller.SetBit | drivers/spi/vt34xx_spi.c:81-87 | the state becomes `SpiSpec.SetBit` of the old state |
| SpiController.Controller.ClrBit | drivers/spi/vt34xx_spi.c:96-102 | the state becomes `SpiSpec.ClrBit` of the old state |
| SpiController.Controller.Poll | drivers/spi/vt34xx_spi.c:191-200 | the countdown loop computes `SpiSpec.Poll` |
| SpiController.Controller.IsBusy | drivers/spi/vt34xx_spi.c:191-200 | state and result as `SpiSpec.IsBusy` |
| SpiController.Controller.TxIsFinish | drivers/spi/vt34xx_spi.c:227-236 | state and result as `SpiSpec.TxIsFinish` |
| SpiController.Controller.RxIsFinish | drivers/spi/vt34xx_spi.c:242-251 | state and result as `SpiSpec.RxIsFinish` |
| SpiController.Controller.ResetTxFifo | drivers/spi/vt34xx_spi.c:375-385 | state and result as `SpiSpec.ResetTxFifo` |
| SpiController.Controller.ResetRxFifo | drivers/spi/vt34xx_spi.c:391-401 | state and result as `SpiSpec.ResetRxFifo` |
| SpiController.Controller.ResetFifo | drivers/spi/vt34xx_spi.c:407-414 | state and result as `SpiSpec.ResetFifo` |
| SpiController.Controller.Reset | drivers/spi/vt34xx_spi.c:420-424 | state and result as `SpiSpec.Reset` |
| SpiController.Controller.Enable | drivers/spi/vt34xx_spi.c:206-209 | state as `SpiSpec.Enable` |
| SpiController.Controller.Disable | drivers/spi/vt34xx_spi.c:215-221 | state as `SpiSpec.Disable` |
| SpiController.Controller.SetClockDiv | drivers/spi/vt34xx_spi.c:305-327 | state as `SpiSpec.SetClockDiv` |
| SpiController.Controller.SetClockMode | drivers/spi/vt34xx_spi.c:345-356 | state as `SpiSpec.SetClockMode` |
| SpiController.Controller.SetBitOrder | drivers/spi/vt34xx_spi.c:334-338 | state as `SpiSpec.SetBitOrder` |
| SpiController.Controller.AsMaster | drivers/spi/vt34xx_spi.c:363-369 | state as `SpiSpec.AsMaster` |
| SpiController.Controller.RegsConfig | drivers/spi/vt34xx_spi.c:444-503 | state and result as `SpiSpec.RegsConfig` |
| SpiController.Controller.CsActive | drivers/spi/vt34xx_spi.c:258-270 | state as `SpiSpec.CsActive` |
| SpiController.Controller.CsInactive | drivers/spi/vt34xx_spi.c:277-287 | state as `SpiSpec.CsInactive` |
| SpiController.Controller.FifoTx | drivers/spi/vt34xx_spi.c:514-525 | state as `SpiEngine.LoadFifo` |
| SpiController.Controller.ReadFifo | drivers/spi/vt34xx_spi.c:122-125 | the n bytes read and the new state are those of `SpiEngine.ReadFifo` |
| SpiController.Controller.ChunkSend | drivers/spi/vt34xx_spi.c:550-557 | the first half of a chunk, as `SpiEngine.ChunkSend` |
| SpiController.Controller.ChunkRecv | drivers/spi/vt34xx_spi.c:559-573 | the second half of a chunk, as `SpiEngine.ChunkRecv` |
| SpiController.Controller.Chunk | drivers/spi/vt34xx_spi.c:548-574 | one loop iteration, as `SpiEngine.ChunkStep` |
| SpiController.Controller.Tail | drivers/spi/vt34xx_spi.c:576-589 | the remainder, as `SpiEngine.Remainder` |
| SpiController.Controller.ChunkLoop | drivers/spi/vt34xx_spi.c:548-574 | the `while (cnt >= SPI_FIFO_SIZE)` loop computes `SpiEngine.ChunkLoop` |
| SpiController.Controller.WriteRead | drivers/spi/vt34xx_spi.c:536-592 | count, received bytes and state as `SpiEngine.WriteRead` (whose meaning is WriteReadMeaning) |
| SpiController.Controller.DmaAnswer | drivers/spi/vt34xx_spi.c:647-679 | as `SpiEngine.DmaAnswer` |
| SpiController.Controller.DmaPrepare | drivers/spi/vt34xx_spi.c:633-639 | as `SpiEngine.DmaPrepare` |
| SpiController.Controller.DmaRequestRx | drivers/spi/vt34xx_spi.c:654-660 | as `SpiEngine.DmaRequestRx` |
| SpiController.Controller.DmaRequest | drivers/spi/vt34xx_spi.c:646-665 | as `SpiEngine.DmaRequest` |
| SpiController.Controller.DmaExit | drivers/spi/vt34xx_spi.c:690-693 | as `SpiEngine.DmaExit` |
| SpiController.Controller.DmaRun | drivers/spi/vt34xx_spi.c:669-689 | as `SpiEngine.DmaRun` |
| SpiController.Controller.DmaWriteRead | drivers/spi/vt34xx_spi.c:624-694 | as `SpiEngine.DmaWriteRead` (whose meaning is DmaMeaning) |
| SpiMaster.Device.Setup | drivers/spi/vt34xx_spi.c:915-967 | the device fields are updated in place and the result returned exactly as `SpiDispatch.Setup` |
| SpiMaster.CheckTransfers | drivers/spi/vt34xx_spi.c:867-890 | the loop stops at the first bad transfer and normalises exactly the transfers before it |
| SpiMaster.NormalizeStep | drivers/spi/vt34xx_spi.c:882-889 | normalising transfer k in place extends the normalised prefix by one |
| SpiMaster.Master.Submit | drivers/spi/vt34xx_spi.c:852-904 | the message returned and the result are `SpiDispatch.Submit`'s. The queue gains the message at its tail iff it was accepted, and the callback log gains it iff it was completed |
| SpiMaster.Master.PreEngine | drivers/spi/vt34xx_spi.c:730-735 | as `SpiDispatch.PreEngine` |
| SpiMaster.Master.Engine | drivers/spi/vt34xx_spi.c:739-744 | as `SpiDispatch.Engine` |
| SpiMaster.Master.DataPhase | drivers/spi/vt34xx_spi.c:738-745 | as `SpiDispatch.DataPhase` |
| SpiMaster.Master.PostEngine | drivers/spi/vt34xx_spi.c:741-754 | as `SpiDispatch.PostEngine` |
| SpiMaster.Master.RunTransfer | drivers/spi/vt34xx_spi.c:729-755 | one iteration of the transfer loop, as `SpiDispatch.TransferStep` |
| SpiMaster.Master.RunAll | drivers/spi/vt34xx_spi.c:729-755 | the `list_for_each_entry` loop computes `SpiDispatch.RunPrefix` over all transfers |
| SpiMaster.Master.MessageDone | drivers/spi/vt34xx_spi.c:757-762 | as `SpiDispatch.MessageDone` |
| SpiMaster.Master.ProcessMessage | drivers/spi/vt34xx_spi.c:723-764 | as `SpiDispatch.ProcessMessage` |
| SpiMaster.Master.WorkNext | drivers/spi/vt34xx_spi.c:710-766 | pops the head of the queue, processes it, and logs the callback iff it is called |
| SpiMaster.Master.Work | drivers/spi/vt34xx_spi.c:710-766 | the queue ends empty; the messages processed and the callbacks are `SpiDispatch.WorkPrefix` of the whole old queue (whose meaning is WorkInOrder) |
| SdioDecode.Le16 | drivers/mmc1/core/sdio_cis.c:86-89 | a little-endian 16-bit field is below 2^16 (Le16RoundTrip makes it the inverse of the encoding) |
| SdioDecode.Le16RoundTrip | drivers/mmc1/core/sdio_cis.c:86-89 | decoding the encoding of v gives v, and encoding a decoded pair gives the pair |
| SdioDecode.Manfid | drivers/mmc1/core/sdio_cis.c:80-100 | vendor = buf[0] \| buf[1]<<8, device = buf[2] \| buf[3]<<8 |
| SdioDecode.ManfidRoundTrip | drivers/mmc1/core/sdio_cis.c:80-100 | a MANFID body built from (vendor, device) decodes back to them, whatever bytes follow |
| SdioDecode.Whitelisted | drivers/mmc1/core/sdio_cis.c:107-121 | whitelisted iff the type is 4 (LAN node id) |
| SdioDecode.MaxTranSpeed | drivers/mmc1/core/sdio_cis.c:102-105 | at most 800 000 000, and 0 iff the unit index is ≥ 4 or the mantissa index is 0 (also lines 136-138) |
| SdioDecode.FunceCommon | drivers/mmc1/core/sdio_cis.c:123-142 | -EINVAL iff size < 4 or buf[0] ≠ 0. Otherwise blksize = buf[1] \| buf[2]<<8 and max_dtr = the speed decoded from buf[3] |
| SdioDecode.FunceCommonRoundTrip | drivers/mmc1/core/sdio_cis.c:123-142 | a common FUNCE body built from (blksize, speed) decodes back to them |
| SdioDecode.FunceFuncMinSize | drivers/mmc1/core/sdio_cis.c:155-156 | 28 for SDIO 1.00, 42 for later revisions |
| SdioDecode.FunceFunc | drivers/mmc1/core/sdio_cis.c:144-174 | -EILSEQ iff type 4, checked before the size. Otherwise success iff size ≥ the minimum and buf[0] = 1, with max_blksize = buf[12] \| buf[13]<<8. enable_timeout is 10·(buf[28] \| buf[29]<<8) after 1.00, and 1000 ms at 1.00 |
| SdioDecode.FunceFuncRoundTrip | drivers/mmc1/core/sdio_cis.c:144-174 | a function FUNCE body of the revision's minimum size, built from a maximum block size and an enable-timeout field, decodes back to that block size and to 10 × the field (SDIO 1.10 and later) or the 1000 ms default (SDIO 1.00) |
| SdioDecode.Funce | drivers/mmc1/core/sdio_cis.c:176-200 | the FUNCE parser with the empty-body check: 0, -EINVAL or -EILSEQ; nothing stored on failure; -EINVAL for an empty body |
| SdioDecode.FunceAsWritten | drivers/mmc1/core/sdio_cis.c:176-200 | FUNCE as written, which reads buf[0] of an empty function tuple: 0, -EINVAL or -EILSEQ (also lines 152, 215) |
| SdioDecode.FunceAsWrittenReadsBeyond | drivers/mmc1/core/sdio_cis.c:152 | for a function tuple of length 0, the result depends on `beyond`, the byte read past the empty body: -EILSEQ if it is 4, -EINVAL if it is 1 (also line 215) |
| SdioDecode.FunceCorrection | drivers/mmc1/core/sdio_cis.c:176-200 | the corrected parser agrees with the code on every input where the code stays inside the tuple |
| SdioDecode.UntilFF | drivers/mmc1/core/sdio_cis.c:43-53 | the longest prefix without 0xff; the byte after it, if any, is 0xff |
| SdioDecode.Nuls | drivers/mmc1/core/sdio_cis.c:43-49 | the count of NUL bytes; 0 iff there is no NUL |
| SdioDecode.Strings | drivers/mmc1/core/sdio_cis.c:59-66 | one NUL-free piece per NUL, in order |
| SdioDecode.StringsOfJoin | drivers/mmc1/core/sdio_cis.c:59-66 | NUL-terminating NUL-free strings and splitting again gives the same strings |
| SdioDecode.JoinOfStrings | drivers/mmc1/core/sdio_cis.c:38-66 | the field is the pieces, each with its terminator, followed by NUL-free trailing garbage that is ignored |
| SdioDecode.Vers1Strings | drivers/mmc1/core/sdio_cis.c:32-66 | the two loops return exactly the NUL-terminated strings of the info field up to the first 0xff |
| SdioDecode.CountStrings | drivers/mmc1/core/sdio_cis.c:43-53 | the counting loop stops at the first 0xff, and the count is the number of NULs before it |
| SdioDecode.CopyStrings | drivers/mmc1/core/sdio_cis.c:61-66 | the copying loop produces exactly `Strings` of the field |
| SdioDecode.CopyString | drivers/mmc1/core/sdio_cis.c:63-65 | the `strcpy` scan stops at the first NUL at or after pos |
| SdioDecode.TplIndex | drivers/mmc1/core/sdio_cis.c:211-216 | the first table entry with the code, or the table length iff the code is unknown (also lines 292-294) |
| SdioDecode.Parse | drivers/mmc1/core/sdio_cis.c:292-318 | 0, -EINVAL or -EILSEQ; nothing stored on failure; a card target stays a card target |
| SdioDecode.ParseQueues | drivers/mmc1/core/sdio_cis.c:292-332 | a tuple is queued (-EILSEQ) iff its code is unknown, or it is a function FUNCE of whitelisted type |
| SdioDecode.ParseShort | drivers/mmc1/core/sdio_cis.c:297-303 | a known tuple shorter than its minimum gives -EINVAL and stores nothing |
| SdioDecode.ParseFuncid | drivers/mmc1/core/sdio_cis.c:214 | a FUNCID tuple has no parser: 0, nothing stored, not queued (also line 304) |
| SdioDecode.ParseVers1Stores | drivers/mmc1/core/sdio_cis.c:32-78 | VERS_1 returns 0. With no string it stores nothing; otherwise it stores the strings, one per NUL |
| SdioWalk.CisPointer | drivers/mmc1/core/sdio_cis.c:230-245 | the pointer is the 24-bit little-endian value of the three bytes at FBR base + 9. The first failed read gives -EIO |
| SdioWalk.CisPointerRoundTrip | drivers/mmc1/core/sdio_cis.c:230-245 | storing a 24-bit pointer and reading it back gives the pointer |
| SdioWalk.Body | drivers/mmc1/core/sdio_cis.c:281-290 | the body read has exactly `link` bytes, or fails |
| SdioWalk.Step | drivers/mmc1/core/sdio_cis.c:254-335 | one iteration either continues at a strictly larger pointer, or stops with a result other than -EILSEQ |
| SdioWalk.StepMoves | drivers/mmc1/core/sdio_cis.c:254-335 | a null tuple moves the pointer by 1 and any other tuple by 2 + link. The walk stops with 0 iff it sees code 0xff or link 0xff |
| SdioWalk.StepKeeps | drivers/mmc1/core/sdio_cis.c:320-332 | an iteration queues nothing, or appends exactly one tuple with its code, its size (below 0xff) and its body: an unknown tuple, or a whitelisted function FUNCE |
| SdioWalk.Walk | drivers/mmc1/core/sdio_cis.c:254-335 | the walk ends with 0, -EIO or -EINVAL, never -EILSEQ, and only appends to the queued list |
| SdioWalk.WalkKeeps | drivers/mmc1/core/sdio_cis.c:292-335 | every tuple the walk appends is one the parser queued |
| SdioWalk.WalkEncoded | drivers/mmc1/core/sdio_cis.c:254-335 | unknown tuples encoded as code, link, body and followed by 0xff are walked back to exactly those tuples, in order, with result 0 |
| SdioCis.CistplVers1 | drivers/mmc1/core/sdio_cis.c:32-78 | the fields of the card (or function) become those of `Parse(0x15, …)`; the tuple list is untouched |
| SdioCis.CistplManfid | drivers/mmc1/core/sdio_cis.c:80-100 | vendor/device are stored in the function when there is one, otherwise in the card, as `Parse(0x20, …)` |
| SdioCis.CistplFunceCommon | drivers/mmc1/core/sdio_cis.c:123-142 | the card's blksize and max_dtr as the common decoder gives them |
| SdioCis.CistplFunceFunc | drivers/mmc1/core/sdio_cis.c:144-174 | the function's max_blksize and enable_timeout as the function decoder gives them |
| SdioCis.CistplFunce | drivers/mmc1/core/sdio_cis.c:176-200 | the result and fields as the corrected `Parse(0x22, …)` |
| SdioCis.FindTpl | drivers/mmc1/core/sdio_cis.c:292-294 | the table search loop finds `TplIndex(code)` |
| SdioCis.ParseTuple | drivers/mmc1/core/sdio_cis.c:292-318 | the table lookup, size check and parser call give `Parse` |
| SdioCis.ReadBody | drivers/mmc1/core/sdio_cis.c:281-290 | the byte-reading loop gives `Body`: the data, or the read error |
| SdioCis.WalkStep | drivers/mmc1/core/sdio_cis.c:255-334 | one do-while iteration computes `Step`. The list only grows, with freshly allocated nodes |
| SdioCis.ReadCisPointer | drivers/mmc1/core/sdio_cis.c:230-245 | the pointer loop computes `CisPointer` |
| SdioCis.CisRead | drivers/mmc1/core/sdio_cis.c:218-346 | the result is 0, -EIO or -EINVAL, and a card stays a card |
| SdioCis.ReadCis | drivers/mmc1/core/sdio_cis.c:218-346 | the result, fields and list are those of `CisRead`. For a function the list's own prefix is followed by the card's list, and the card's first node is not in the own prefix |
| SdioCis.ReadCommonCis | drivers/mmc1/core/sdio_cis.c:348-356 | `read_cis` on function 0 |
| SdioCis.ReadFuncCis | drivers/mmc1/core/sdio_cis.c:374-402 | `read_cis` on the function: result and fields as the walk gives them. If that succeeded with vendor 0, vendor and device are copied from the card. Once the CIS pointer has been read, the function's list is its own new nodes, whose values are the tuples the walk kept, in order, followed by the card's list. The card's first node is not among them, and the card's list is unchanged |
| SdioCis.FreeCommonCis | drivers/mmc1/core/sdio_cis.c:358-372 | every node of the card's list is freed, in order, and the list becomes empty |
| SdioCis.OwnPrefix | drivers/mmc1/core/sdio_cis.c:411-415 | the nodes before the first node of the card's list; all of them when the card's list is empty |
| SdioCis.OwnPrefixOfLinked | drivers/mmc1/core/sdio_cis.c:411-415 | on a list built by `read_cis`, the free loop stops exactly at the card's list (also lines 341-342) |
| SdioCis.OwnPrefixUpTo | drivers/mmc1/core/sdio_cis.c:411-415 | walking the list until the card's first node, or the end, with no earlier node being that node, collects exactly the own prefix |
| SdioCis.FreeFuncCis | drivers/mmc1/core/sdio_cis.c:404-425 | frees only the function's own nodes, empties the function's list, and leaves the card's list alone |

## Left out

- **DMA engine internals.** `wmt_request_dma`, `wmt_setup_dma`, `wmt_start_dma` and `wmt_free_dma`, the bounce-buffer copies, the wait queues and the `spi_dsr_*` callbacks are foreign or asynchronous. The DMA controller's answers are a stream in the environment, and the received bytes come from the receive stream.
- **Timing.** `udelay`, `msleep`, the settle delay below 5 MHz and `delay_usecs` have no observable effect in the model.
- **Clocks and pins.** Pin-mux and clock enable/disable (`vt34xx_spi_clock_enable`/`disable`, `auto_pll_divisor`) are left out. The input frequency is a field of the environment.
- **Lifecycle.** Probe, remove, suspend/resume, DMA buffer allocation and release, cleanup and `stop_queue` are platform resource handling.
- **Concurrency.** Spinlocks, `queue_work` and the worker's scheduling are left out. The queue is a sequence and the worker a sequential loop.
- **Logging.** `printk`, `dev_err` and `DBG` are left out, including the read of `buf[0]` in the FUNCE error message (sdio_cis.c:194-195).
- **Allocation.** `kmalloc`, `kzalloc` and their -ENOMEM paths (sdio_cis.c:55-57, 277-279) are not modelled: allocation always succeeds. `kfree` is modelled by returning the list of nodes freed.
- **Device references.** `get_device`/`put_device` (sdio_cis.c:389, 423) are not modelled.
- **Register layout.** The register offsets and bit masks come from a platform header that is not part of this model. The model fixes its own layout:
  - the divisor field is at bits 21..31;
  - the clock-mode field is at bits 1..2;
  - every other flag is its own bit.
  The proofs depend only on the fields not overlapping.
- **Hardware inputs.** Register polls and FIFO reads are input streams. The reset bits are taken as cleared once their poll has seen them clear.
- **Poll timeout.** `POLLING_SPI_REG_TIMEOUT` is a field of the environment.
- **Speed width.** Speeds reach `spi_set_clock_div` as a C `int`, so the model requires speeds below 2^31. Larger `u32` values are not modelled.
- **Transmit/receive-finished polls.** These are modelled as written: the flag is ORed in, so both succeed on the first read (TxRxFinishImmediate). The model does not test for an empty FIFO.
- **Messages.** Messages are values that hold a copy of their device's configuration. The completion callback is a log of completed messages, and `context` is a number where 0 stands for NULL.
- **SDIO card reads.** `mmc1_io_rw_direct` is a read from the card's byte space. It fails only outside that space, and then always with -EIO. The 32-bit wrap-around of `ptr` is not modelled, because a read fails first.
- **SDIO constants.** `jiffies_to_msecs(HZ)` is the constant 1000 ms. `SDIO_SDIO_REV_1_00` = 0 and `SDIO_FBR_CIS` = 9, with `SDIO_FBR_BASE(f)` = 0x100·f, are taken from the SDIO register headers, which are not part of this model.
- **Behaviour of the driver as written that the model keeps:**
  - a failed `setup` has already written the fallback width and the clamped speed into the device (vt34xx_spi.c:936, 947; SetupFailureChangesDevice);
  - the DMA completion-timeout path jumps to `out` and does not free its channels (vt34xx_spi.c:676-679; DmaTimeoutKeepsChannels);
  - a message's callback is called only when both `complete` and `context` are set (vt34xx_spi.c:763; WorkInOrder);
  - the full-chunk loop reads nothing from the FIFO when there is no receive buffer (vt34xx_spi.c:559-562; ChunkStepNoRx);
  - a message's status is only the result of `regs_config`, so a short transfer count does not change it (vt34xx_spi.c:724-726, 762; ProcessStatus);
  - `regs_config` never clears DFCR (vt34xx_spi.c:456-461, 482-497; ClearRegs, RegsConfigDataFormat): it only ORs bits in, so the SPM, bit-order and SC bits set for one device stay set for the messages of the next device on the same master.
- SdioDecode.Parse, SdioWalk.Step, SdioWalk.Walk, SdioCis.CistplFunce, SdioCis.CistplFunceFunc, SdioCis.ParseTuple, SdioCis.WalkStep, SdioCis.CisRead, SdioCis.ReadCis, SdioCis.ReadCommonCis and SdioCis.ReadFuncCis use the corrected FUNCE parser (SdioDecode.Funce), not the one as written. On a function CIS holding an empty FUNCE tuple, the walk therefore always stops with -EINVAL. As written, `read_cis` passes the tuple's 0-byte body to `cistpl_funce_func`, which reads an unknown byte of the freshly allocated node. Depending on that byte, the driver either queues the tuple with -EILSEQ and keeps walking, or stops with -EINVAL. Only SdioDecode.FunceAsWritten models that as-written behaviour.

## Findings

| source | as written | input that shows it | evidently intended | confidence | as-written member | corrected member |
|---|---|---|---|---|---|---|
| drivers/mmc1/core/sdio_cis.c:152, 215 | the FUNCE table entry has minimum size 0, and `cistpl_funce_func` reads `buf[0]` before any size check | a function CIS holding the tuple `22 00` (FUNCE, length 0): `read_cis` copies no body bytes into the freshly allocated node (lines 277-290) and passes its data to the parser (305-306). So the type byte `buf[0]` is whatever lies in the node after its header, which nothing constrains. In SdioDecode.FunceAsWritten the parameter `beyond` stands for that unknown byte. Both -EILSEQ (queue and go on) and -EINVAL (stop) can result | an empty FUNCE tuple is rejected with -EINVAL without reading past it | not executed | SdioDecode.FunceAsWritten, SdioDecode.FunceAsWrittenReadsBeyond | SdioDecode.Funce, SdioDecode.FunceCorrection |
