/**
 * The VT34xx SPI controller as an object whose register file, poll cursor
 * and bus state the driver's helpers update in place. Every method is
 * proved to leave the controller in the state the corresponding function
 * of SpiSpec / SpiEngine describes, so the properties proved there hold of
 * the methods.
 */
module SpiController {
  import opened Common
  import opened SpiDefs
  import opened SpiSpec
  import opened SpiEngine

  class Controller {
    /** The hardware's answers and the controller's capabilities (fixed). */
    const env: Env
    var regs: map<nat, bv32>
    var pollPos: nat
    var bus: Bus

    /** The controller state as a value. */
    function State(): Hw
      reads this
    {
      Hw(regs, pollPos, bus)
    }

    constructor(env: Env, h: Hw)
      ensures this.env == env && State() == h
    {
      this.env := env;
      regs := h.regs;
      pollPos := h.pollPos;
      bus := h.bus;
    }

    // ================= Register access =================

    /** spi_set_reg32. */
    method WriteReg(off: nat, v: bv32)
      modifies this
      ensures State() == SpiSpec.WriteReg(old(State()), off, v)
    {
      regs := regs[off := v];
    }

    /** spi_setbit: read, OR the mask in, write back. */
    method SetBit(off: nat, mask: bv32)
      modifies this
      ensures State() == SpiSpec.SetBit(old(State()), off, mask)
    {
      var tmp := Reg(State(), off);
      tmp := tmp | mask;
      WriteReg(off, tmp);
    }

    /** spi_clrbit: read, clear the mask's bits, write back. */
    method ClrBit(off: nat, mask: bv32)
      modifies this
      ensures State() == SpiSpec.ClrBit(old(State()), off, mask)
    {
      var tmp := Reg(State(), off);
      tmp := tmp & !mask;
      WriteReg(off, tmp);
    }

    // ================= Polling =================

    /**
     * A `while (timeout--)` polling loop: read the hardware until the
     * site's condition holds or the timeout is spent.
     */
    method Poll(site: PollSite) returns (ok: bool)
      modifies this
      ensures (State(), ok) == SpiSpec.Poll(env, old(State()), site)
    {
      var timeout := env.pollTimeout;
      ghost var p0 := pollPos;
      while timeout > 0
        invariant p0 <= pollPos && regs == old(regs) && bus == old(bus)
        invariant var (n, found) := PollReads(env.pollObs, pollPos, site, timeout);
          PollReads(env.pollObs, p0, site, env.pollTimeout) == (pollPos - p0 + n, found)
        decreases timeout
      {
        var v := env.pollObs(pollPos);
        pollPos := pollPos + 1;
        if PollDone(site, v) {
          return true;
        }
        timeout := timeout - 1;
      }
      return false;
    }

    /** spi_is_busy. */
    method IsBusy() returns (r: int)
      modifies this
      ensures (State(), r) == SpiSpec.IsBusy(env, old(State()))
    {
      var ok := Poll(BusyWait);
      r := if ok then 0 else -EAGAIN;
    }

    /** spi_tx_is_finish. */
    method TxIsFinish() returns (r: int)
      modifies this
      ensures (State(), r) == SpiSpec.TxIsFinish(env, old(State()))
    {
      var ok := Poll(TxFinish);
      r := if ok then 0 else -EAGAIN;
    }

    /** spi_rx_is_finish. */
    method RxIsFinish() returns (r: int)
      modifies this
      ensures (State(), r) == SpiSpec.RxIsFinish(env, old(State()))
    {
      var ok := Poll(RxFinish);
      r := if ok then 0 else -EAGAIN;
    }

    /** spi_reset_tx_fifo (the self-clearing bit is cleared once seen clear). */
    method ResetTxFifo() returns (r: int)
      modifies this
      ensures (State(), r) == SpiSpec.ResetTxFifo(env, old(State()))
    {
      SetBit(SPI_CR, CR_TFR);
      var ok := Poll(TxFifoReset);
      if ok {
        ClrBit(SPI_CR, CR_TFR);
        return 0;
      }
      return -1;
    }

    /** spi_reset_rx_fifo. */
    method ResetRxFifo() returns (r: int)
      modifies this
      ensures (State(), r) == SpiSpec.ResetRxFifo(env, old(State()))
    {
      SetBit(SPI_CR, CR_RFR);
      var ok := Poll(RxFifoReset);
      if ok {
        ClrBit(SPI_CR, CR_RFR);
        return 0;
      }
      return -EAGAIN;
    }

    /** spi_reset_fifo. */
    method ResetFifo() returns (r: int)
      modifies this
      ensures (State(), r) == SpiSpec.ResetFifo(env, old(State()))
    {
      var r1 := ResetTxFifo();
      if r1 != 0 {
        return -EAGAIN;
      }
      var r2 := ResetRxFifo();
      if r2 != 0 {
        return -EAGAIN;
      }
      return 0;
    }

    /** spi_reset. */
    method Reset() returns (r: int)
      modifies this
      ensures (State(), r) == SpiSpec.Reset(env, old(State()))
    {
      WriteReg(SPI_SR, 0xFFFF_FFFF);
      r := ResetFifo();
    }

    /** spi_enable. */
    method Enable()
      modifies this
      ensures State() == SpiSpec.Enable(old(State()))
    {
      SetBit(SPI_CR, CR_ME);
    }

    /** spi_disable: a busy timeout is only logged. */
    method Disable()
      modifies this
      ensures State() == SpiSpec.Disable(env, old(State()))
    {
      var _ := IsBusy();
      ClrBit(SPI_CR, CR_ME);
    }

    // ================= Configuration =================

    /** spi_set_clock_div. */
    method SetClockDiv(speedHz: nat)
      requires speedHz < INT_LIMIT
      modifies this
      ensures State() == SpiSpec.SetClockDiv(env, old(State()), speedHz)
    {
      var hwFreq := HwFreq(env.freqKhz);
      ClrBit(SPI_CR, CR_TCD_MASK);
      var divisor: nat;
      if speedHz == 0 || hwFreq / (2 * speedHz) > TCD_MAX {
        DefaultDivisorFits(hwFreq);
        divisor := hwFreq / (2 * SPI_DFLT_FREQ);
      } else {
        divisor := hwFreq / (2 * speedHz);
      }
      SetBit(SPI_CR, TcdBits((divisor as bv11) as bv32));
    }

    /** spi_set_clock_mode. */
    method SetClockMode(clkMode: bv8)
      modifies this
      ensures State() == SpiSpec.SetClockMode(old(State()), clkMode)
    {
      ClrBit(SPI_CR, CR_CPHS_MASK);
      if clkMode > SPI_CLK_MODE3 {
        SetBit(SPI_CR, CphsBits(SPI_CLK_MODE3 as bv32));
      } else {
        SetBit(SPI_CR, CphsBits(clkMode as bv32));
      }
    }

    /** spi_set_bit_order. */
    method SetBitOrder(mode: bv8)
      modifies this
      ensures State() == SpiSpec.SetBitOrder(old(State()), mode)
    {
      if mode & SPI_LSB_FIRST != 0 {
        SetBit(SPI_DFCR, DFCR_RSBO | DFCR_TSBO);
      }
    }

    /** spi_as_master. */
    method AsMaster(isMaster: bool)
      modifies this
      ensures State() == SpiSpec.AsMaster(old(State()), isMaster)
    {
      if isMaster {
        ClrBit(SPI_CR, CR_MSMS);
      } else {
        SetBit(SPI_CR, CR_MSMS);
      }
    }

    /** vt34xx_spi_regs_config. */
    method RegsConfig(dev: DeviceConfig) returns (r: int)
      requires dev.maxSpeedHz < INT_LIMIT
      modifies this
      ensures (State(), r) == SpiSpec.RegsConfig(env, old(State()), dev)
    {
      WriteReg(SPI_CR, 0);
      WriteReg(SPI_SR, 0xFFFF_FFFF);
      WriteReg(SPI_CRE, CRE_INIT);
      r := ResetFifo();
      if r != 0 {
        return;
      }
      SetClockDiv(dev.maxSpeedHz);
      var clkMode := ConfigClockMode(dev.mode);
      SetClockMode(clkMode);
      AsMaster(true);
      SetBit(SPI_CR, SsBits(0));
      if env.hw.portMode == PortPointToPoint {
        SetBit(SPI_DFCR, DFCR_SPM);
      }
      SetBitOrder(dev.mode);
      if env.hw.ssnCtrl == SsnProgram {
        if SsnConflict(clkMode) {
          // the conflict is only reported; the result is still 0
          return 0;
        }
        SetBit(SPI_DFCR, DFCR_SC);
      }
      return 0;
    }

    // ================= Chip select =================

    /** vt34xx_spi_cs_active. */
    method CsActive(cs: nat)
      modifies this
      ensures State() == SpiSpec.CsActive(env, old(State()), cs)
    {
      if cs == 1 {
        bus := bus.(ss1High := false);
      } else {
        bus := bus.(ss0High := false);
      }
      if env.hw.ssnCtrl == SsnProgram {
        ClrBit(SPI_DFCR, DFCR_DSV | DFCR_DSE);
      }
    }

    /** vt34xx_spi_cs_inactive. */
    method CsInactive(cs: nat)
      modifies this
      ensures State() == SpiSpec.CsInactive(env, old(State()), cs)
    {
      if env.hw.ssnCtrl == SsnProgram {
        SetBit(SPI_DFCR, DFCR_DSV | DFCR_DSE);
      }
      if cs == 1 {
        bus := bus.(ss1High := true);
      } else {
        bus := bus.(ss0High := true);
      }
    }

    // ================= FIFO access =================

    /**
     * vt34xx_spi_fifo_tx: write n bytes to the transmit FIFO port, from the
     * transmit buffer at offset off or zeros without one; the FIFO records
     * the load as one burst.
     */
    method FifoTx(t: Transfer, off: nat, n: nat)
      requires ValidTransfer(t) && off + n <= t.len
      modifies this
      ensures State() == LoadFifo(old(State()), t, off, n)
    {
      var burst: seq<bv8> := [];
      var i := 0;
      while i < n
        invariant i <= n && burst == TxData(t)[off..off + i]
      {
        var b: bv8 := if t.tx.Some? then t.tx.value[off + i] else 0;
        burst := burst + [b];
        i := i + 1;
      }
      bus := bus.(bursts := bus.bursts + [burst]);
    }

    /** n reads of the receive FIFO port, in order. */
    method ReadFifo(n: nat) returns (bytes: seq<bv8>)
      modifies this
      ensures (State(), bytes) == SpiEngine.ReadFifo(env, old(State()), n)
    {
      bytes := [];
      var i := 0;
      while i < n
        invariant i <= n && bus == old(bus).(rxPos := old(bus).rxPos + i)
        invariant regs == old(regs) && pollPos == old(pollPos)
        invariant bytes == RxBytes(env.rxObs, old(bus).rxPos, i)
      {
        bytes := bytes + [env.rxObs(bus.rxPos)];
        bus := bus.(rxPos := bus.rxPos + 1);
        i := i + 1;
      }
    }
      // ================= Polled engine =================

    /** The sending half of a burst: load 32 bytes, enable, wait for the transmission. */
    method ChunkSend(t: Transfer, cnt: nat, received: seq<bv8>) returns (stopped: bool)
      requires ValidTransfer(t) && SPI_FIFO_SIZE <= cnt <= t.len
      modifies this
      ensures Progress(State(), cnt, received, stopped) ==
        SpiEngine.ChunkSend(env, t, Progress(old(State()), cnt, received, false))
    {
      FifoTx(t, t.len - cnt, SPI_FIFO_SIZE);
      Enable();
      var e1 := TxIsFinish();
      stopped := e1 != 0;
    }

    /**
     * The receiving half: disable, read 32 bytes when there is a receive
     * buffer, wait for reception, count the burst, reset.
     */
    method ChunkRecv(t: Transfer, cnt: nat, received: seq<bv8>) returns (cnt': nat, received': seq<bv8>, stopped: bool)
      requires ValidTransfer(t) && SPI_FIFO_SIZE <= cnt <= t.len
      modifies this
      ensures Progress(State(), cnt', received', stopped) == SpiEngine.ChunkRecv(env, t, Progress(old(State()), cnt, received, false))
    {
      Disable();
      var bytes: seq<bv8> := [];
      if t.rx.Some? {
        bytes := ReadFifo(SPI_FIFO_SIZE);
      }
      var e2 := RxIsFinish();
      if e2 != 0 {
        return cnt, received + bytes, true;
      }
      var e3 := Reset();
      return cnt - SPI_FIFO_SIZE, received + bytes, e3 != 0;
    }

    /**
     * One pass of the burst loop of vt34xx_spi_write_read; stopped is the
     * jump to the exit label.
     */
    method Chunk(t: Transfer, cnt: nat, received: seq<bv8>) returns (cnt': nat, received': seq<bv8>, stopped: bool)
      requires ValidTransfer(t) && SPI_FIFO_SIZE <= cnt <= t.len
      modifies this
      ensures Progress(State(), cnt', received', stopped) == ChunkStep(env, t, Progress(old(State()), cnt, received, false))
    {
      stopped := ChunkSend(t, cnt, received);
      if stopped {
        return cnt, received, true;
      }
      cnt', received', stopped := ChunkRecv(t, cnt, received);
    }

    /** The remaining cnt < 32 bytes: load, enable, wait, disable, read them back. */
    method Tail(t: Transfer, cnt: nat, received: seq<bv8>) returns (cnt': nat, received': seq<bv8>, stopped: bool)
      requires ValidTransfer(t) && 0 < cnt < SPI_FIFO_SIZE && cnt <= t.len
      modifies this
      ensures Progress(State(), cnt', received', stopped) == Remainder(env, t, Progress(old(State()), cnt, received, false))
    {
      FifoTx(t, t.len - cnt, cnt);
      Enable();
      var e1 := TxIsFinish();
      if e1 != 0 {
        return cnt, received, true;
      }
      Disable();
      var bytes := ReadFifo(cnt);
      return 0, received + (if t.rx.Some? then bytes else []), false;
    }

    /** The burst loop: passes while at least 32 bytes remain and nothing failed. */
    method ChunkLoop(t: Transfer) returns (cnt: nat, received: seq<bv8>, stopped: bool)
      requires ValidTransfer(t)
      modifies this
      ensures Progress(State(), cnt, received, stopped) == SpiEngine.ChunkLoop(env, t, Progress(old(State()), t.len, [], false))
    {
      ghost var s0 := Progress(State(), t.len, [], false);
      cnt, received, stopped := t.len, [], false;
      while !stopped && cnt >= SPI_FIFO_SIZE
        invariant cnt <= t.len
        invariant SpiEngine.ChunkLoop(env, t, s0) == SpiEngine.ChunkLoop(env, t, Progress(State(), cnt, received, stopped))
        decreases cnt, !stopped
      {
        cnt, received, stopped := Chunk(t, cnt, received);
      }
    }

    /**
     * vt34xx_spi_write_read: reset, then 32-byte bursts while at least 32
     * bytes remain, then the tail; the result is len minus the bytes left
     * when it stopped, and received is what went into the receive buffer.
     */
    method WriteRead(t: Transfer) returns (count: nat, received: seq<bv8>)
      requires ValidTransfer(t)
      modifies this
      ensures EngineOut(State(), count, received) == SpiEngine.WriteRead(env, old(State()), t)
    {
      var e := Reset();
      if e != 0 {
        return 0, [];
      }
      var cnt, stopped;
      cnt, received, stopped := ChunkLoop(t);
      if !stopped && 0 < cnt {
        cnt, received, stopped := Tail(t, cnt, received);
      }
      count := t.len - cnt;
    }

    // ================= DMA engine =================

    /** The DMA controller's next answer. */
    method DmaAnswer() returns (granted: bool)
      modifies this
      ensures (State(), granted) == SpiEngine.DmaAnswer(env, old(State()))
    {
      granted := env.dmaObs(bus.dmaPos);
      bus := bus.(dmaPos := bus.dmaPos + 1);
    }

    /** Release the select line, cap the clock at 15 MHz, set the DMA and threshold bits. */
    method DmaPrepare(cs: nat, t: Transfer)
      requires t.speedHz < INT_LIMIT
      modifies this
      ensures State() == SpiEngine.DmaPrepare(env, old(State()), cs, t)
    {
      CsInactive(cs);
      if t.speedHz > SPI_DMA_MAX_FREQ {
        SetClockDiv(SPI_DMA_MAX_FREQ);
      }
      var ctrl := Reg(State(), SPI_CR);
      ctrl := ctrl | (CR_DRC | CR_RFTS | CR_TFTS);
      WriteReg(SPI_CR, ctrl);
    }

    /** The receive channel request, with the transmit channel held. */
    method DmaRequestRx() returns (ok: bool)
      modifies this
      ensures (State(), ok) == SpiEngine.DmaRequestRx(env, old(State()))
    {
      ok := DmaAnswer();
      if ok {
        bus := bus.(rxChHeld := true);
      } else {
        bus := bus.(txChHeld := false);
      }
    }

    /** Request the transmit channel, then (withRx) the receive channel. */
    method DmaRequest(withRx: bool) returns (ok: bool)
      modifies this
      ensures (State(), ok) == SpiEngine.DmaRequest(env, old(State()), withRx)
    {
      ok := DmaAnswer();
      if ok {
        bus := bus.(txChHeld := true);
        if withRx {
          ok := DmaRequestRx();
        }
      }
    }

    /** The exit label: disable the module and clear both acknowledgements. */
    method DmaExit()
      modifies this
      ensures EngineOut(State(), 0, []) == SpiEngine.DmaExit(env, old(State()), 0, [])
    {
      Disable();
      bus := bus.(txAck := false, rxAck := false);
    }

    /**
     * With the channels held: enable, assert the select line, wait for the
     * acknowledgement; on completion copy the received bytes and free the
     * channels; then the exit label.
     */
    method DmaRun(cs: nat, t: Transfer) returns (count: nat, received: seq<bv8>)
      modifies this
      ensures EngineOut(State(), count, received) == SpiEngine.DmaRun(env, old(State()), cs, t)
    {
      Enable();
      CsActive(cs);
      var done := DmaAnswer();
      count, received := 0, [];
      if done {
        count := t.len;
        if t.rx.Some? {
          bus := bus.(rxAck := true);
          received := ReadFifo(t.len);
          bus := bus.(rxChHeld := false, txChHeld := false);
        } else {
          bus := bus.(txAck := true, txChHeld := false);
        }
      }
      DmaExit();
    }

    /**
     * vt34xx_spi_dma_write_read: prepare, reset the FIFOs, request the
     * channels, run; every failure goes through the exit label.
     */
    method DmaWriteRead(cs: nat, t: Transfer) returns (count: nat, received: seq<bv8>)
      requires ValidTransfer(t) && t.speedHz < INT_LIMIT
      modifies this
      ensures EngineOut(State(), count, received) == SpiEngine.DmaWriteRead(env, old(State()), cs, t)
    {
      DmaPrepare(cs, t);
      var e := Reset();
      if e != 0 {
        DmaExit();
        return 0, [];
      }
      var ok := DmaRequest(t.rx.Some?);
      if !ok {
        DmaExit();
        return 0, [];
      }
      count, received := DmaRun(cs, t);
    }
  }
}
