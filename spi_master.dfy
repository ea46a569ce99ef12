/**
 * The VT34xx SPI master as objects: a logical device whose settings
 * vt34xx_spi_setup updates in place, and the driver instance with its
 * message queue, which vt34xx_spi_transfer appends to and vt34xx_spi_work
 * drains. Each method is proved to do what the corresponding function of
 * SpiDispatch describes, so the properties proved there hold of it.
 */
module SpiMaster {
  import opened Common
  import opened SpiDefs
  import opened SpiSpec
  import opened SpiEngine
  import opened SpiDispatch
  import opened SpiController

  /** A logical device (struct spi_device): the fields setup reads and rewrites. */
  class Device {
    const chipSelect: nat
    const mode: bv8
    var bitsPerWord: nat
    var maxSpeedHz: nat
    const slave: SlaveInfo

    /** The device's settings as a value. */
    function Config(): DeviceConfig
      reads this
    {
      DeviceConfig(chipSelect, mode, bitsPerWord, maxSpeedHz, slave)
    }

    constructor(d: DeviceConfig)
      ensures Config() == d
    {
      chipSelect := d.chipSelect;
      mode := d.mode;
      bitsPerWord := d.bitsPerWord;
      maxSpeedHz := d.maxSpeedHz;
      slave := d.slave;
    }

    /**
     * vt34xx_spi_setup: reject unknown mode bits, default and check the
     * word size (falling back to the slave's), clamp and check the speed.
     * The fields are rewritten as it goes, also on a later failure.
     */
    method Setup(hw: HwInfo) returns (ret: int)
      modifies this
      ensures (Config(), ret) == SpiDispatch.Setup(hw, old(Config()))
    {
      if mode & !MODEBITS != 0 {
        return -EINVAL;
      }
      if bitsPerWord == 0 {
        bitsPerWord := slave.bitsPerWord;
      }
      if bitsPerWord != 0 {
        if BitsPerWordIsSupport(hw, bitsPerWord) != 0 {
          if BitsPerWordIsSupport(hw, slave.bitsPerWord) != 0 {
            return -EINVAL;
          }
          bitsPerWord := slave.bitsPerWord;
        }
      }
      if maxSpeedHz == 0 || maxSpeedHz > hw.maxFreqHz {
        maxSpeedHz := hw.maxFreqHz;
      }
      if maxSpeedHz < hw.minFreqHz {
        return -EINVAL;
      }
      return 0;
    }
  }

  /**
   * The transfer walk of vt34xx_spi_transfer: stop at the first transfer
   * with a length but no buffer or longer than the maximum, replacing the
   * word size and speed of each transfer before it by the device's when 0
   * or unsupported. k is where it stopped, |ts| when every transfer passed.
   */
  method CheckTransfers(hw: HwInfo, dev: DeviceConfig, ts: seq<Transfer>) returns (us: seq<Transfer>, k: nat)
    ensures k == FirstBad(hw, ts)
    ensures us == NormalizeAll(hw, dev, ts[..k]) + ts[k..]
  {
    us := ts;
    k := 0;
    while k < |us|
      invariant k <= |ts|
      invariant forall j :: 0 <= j < k ==> !BadTransfer(hw, ts[j])
      invariant us == NormalizeAll(hw, dev, ts[..k]) + ts[k..]
    {
      var t := us[k];
      if (t.tx.None? && t.rx.None? && t.len != 0) || t.len > hw.maxTransferLength {
        return;
      }
      if t.bitsPerWord == 0 || BitsPerWordIsSupport(hw, t.bitsPerWord) != 0 {
        t := t.(bitsPerWord := dev.bitsPerWord);
      }
      if t.speedHz == 0 || SpeedHzIsSupport(hw, t.speedHz) != 0 {
        t := t.(speedHz := dev.maxSpeedHz);
      }
      NormalizeStep(hw, dev, ts, k);
      us := us[k := t];
      k := k + 1;
    }
  }

  /** Normalising one more transfer extends the normalised prefix by one. */
  lemma NormalizeStep(hw: HwInfo, dev: DeviceConfig, ts: seq<Transfer>, k: nat)
    requires k < |ts|
    ensures (NormalizeAll(hw, dev, ts[..k]) + ts[k..])[k := Normalize(hw, dev, ts[k])] ==
            NormalizeAll(hw, dev, ts[..k + 1]) + ts[k + 1..]
  {
    var a := (NormalizeAll(hw, dev, ts[..k]) + ts[k..])[k := Normalize(hw, dev, ts[k])];
    var b := NormalizeAll(hw, dev, ts[..k + 1]) + ts[k + 1..];
    assert |a| == |b|;
    forall i | 0 <= i < |a|
      ensures a[i] == b[i]
    {
      if i < k {
        assert ts[..k][i] == ts[..k + 1][i];
      }
    }
  }

  /**
   * The driver instance (struct vt34xx_spi): the controller it drives, the
   * queue of accepted messages, and the log of completion callbacks run, in
   * order, each with the message as it was at that moment.
   */
  class Master {
    const ctl: Controller
    var queue: seq<Message>
    var completions: seq<Message>

    constructor(ctl: Controller)
      ensures this.ctl == ctl && queue == [] && completions == []
    {
      this.ctl := ctl;
      queue := [];
      completions := [];
    }

    /**
     * vt34xx_spi_transfer: clear the results, reject a message without
     * transfers or callback, walk the transfers rejecting at the first bad
     * one and normalising word size and speed of the others in place, and
     * queue the message when all pass. A rejected message gets -EINVAL and
     * its callback when it has one.
     */
    method Submit(m: Message) returns (m': Message, ret: int)
      modifies this
      ensures var r := SpiDispatch.Submit(ctl.env.hw, m);
        m' == r.msg && ret == r.ret &&
        queue == old(queue) + (if r.queued then [r.msg] else []) &&
        completions == old(completions) + (if r.completed then [r.msg] else [])
    {
      var hw := ctl.env.hw;
      m' := m.(actualLength := 0, status := 0);
      if |m.transfers| == 0 || !m.complete {
        m' := m'.(status := -EINVAL);
        if m.complete {
          completions := completions + [m'];
        }
        return m', -EINVAL;
      }
      var ts, k := CheckTransfers(hw, m.dev, m.transfers);
      if k < |ts| {
        m' := m'.(transfers := ts, status := -EINVAL);
        completions := completions + [m'];
        return m', -EINVAL;
      }
      m' := m'.(transfers := ts);
      queue := queue + [m'];
      ret := 0;
    }

    /**
     * Before the engine (spi_reset_transfer_speed and the select line): the
     * transfer's own speed when it has one, the select line asserted when
     * it is not yet.
     */
    method PreEngine(m: Message, t: Transfer, active: bool)
      requires t.speedHz < INT_LIMIT
      modifies ctl
      ensures ctl.State() == SpiDispatch.PreEngine(ctl.env, m, old(ctl.State()), active, t)
    {
      if t.speedHz != 0 {
        ctl.SetClockDiv(t.speedHz);
      }
      if !active {
        ctl.CsActive(m.dev.chipSelect);
      }
    }

    /** The engine vt34xx_spi_work picks: DMA under its four conditions, else polled. */
    method Engine(m: Message, t: Transfer) returns (count: nat, received: seq<bv8>)
      requires ValidTransfer(t) && t.speedHz < INT_LIMIT
      modifies ctl
      ensures EngineOut(ctl.State(), count, received) == SpiDispatch.Engine(ctl.env, old(ctl.State()), m, t)
    {
      if ctl.env.hw.dmaSupport && m.isDmaMapped && m.dev.slave.dmaEn && t.len > SPI_FIFO_SIZE {
        count, received := ctl.DmaWriteRead(m.dev.chipSelect, t);
      } else {
        count, received := ctl.WriteRead(t);
      }
    }

    /** The data transfer: the engine when the length is not 0. */
    method DataPhase(m: Message, t: Transfer) returns (count: nat, received: seq<bv8>)
      requires ValidTransfer(t) && t.speedHz < INT_LIMIT
      modifies ctl
      ensures EngineOut(ctl.State(), count, received) == SpiDispatch.DataPhase(ctl.env, old(ctl.State()), m, t)
    {
      count, received := 0, [];
      if t.len != 0 {
        count, received := Engine(m, t);
      }
    }

    /**
     * After the engine: store the received bytes, count them, and release
     * the select line on cs_change.
     */
    method PostEngine(m: Message, t: Transfer, ghost active: bool, actual: nat, done: seq<Transfer>, count: nat, received: seq<bv8>)
      returns (active': bool, actual': nat, done': seq<Transfer>)
      requires ValidTransfer(t) && |received| <= t.len
      modifies ctl
      ensures Run(ctl.State(), active', actual', done') ==
        SpiDispatch.PostEngine(ctl.env, m, Run(old(ctl.State()), active, actual, done), t, EngineOut(old(ctl.State()), count, received))
    {
      done' := done + [StoreRx(t, received)];
      actual' := actual + count;
      active' := true;
      if t.csChange {
        ctl.CsInactive(m.dev.chipSelect);
        active' := false;
      }
    }

    /**
     * One transfer of vt34xx_spi_work: prepare, run the engine when the
     * length is not 0, then store, count and release as PostEngine does.
     */
    method RunTransfer(m: Message, t: Transfer, active: bool, actual: nat, done: seq<Transfer>)
      returns (active': bool, actual': nat, done': seq<Transfer>)
      requires ValidTransfer(t) && t.speedHz < INT_LIMIT
      modifies ctl
      ensures Run(ctl.State(), active', actual', done') ==
        TransferStep(ctl.env, m, Run(old(ctl.State()), active, actual, done), t)
    {
      PreEngine(m, t, active);
      var count, received := DataPhase(m, t);
      active', actual', done' := PostEngine(m, t, active, actual, done, count, received);
    }

    /** The transfers of a message, in order, from the select line not asserted. */
    method RunAll(m: Message) returns (active: bool, actual: nat, done: seq<Transfer>)
      requires Runnable(m)
      modifies ctl
      ensures Run(ctl.State(), active, actual, done) == RunPrefix(ctl.env, m, old(ctl.State()), |m.transfers|)
    {
      active, actual, done := false, 0, [];
      var i := 0;
      while i < |m.transfers|
        invariant i <= |m.transfers|
        invariant Run(ctl.State(), active, actual, done) == RunPrefix(ctl.env, m, old(ctl.State()), i)
      {
        active, actual, done := RunTransfer(m, m.transfers[i], active, actual, done);
        i := i + 1;
      }
    }

    /**
     * The end of a message that ran: release the select line when still
     * asserted and fill in the transfers, the byte count and the status.
     */
    method MessageDone(m: Message, status: int, active: bool, actual: nat, done: seq<Transfer>) returns (m': Message)
      modifies ctl
      ensures (ctl.State(), m') == SpiDispatch.MessageDone(ctl.env, m, status, Run(old(ctl.State()), active, actual, done))
    {
      if active {
        ctl.CsInactive(m.dev.chipSelect);
      }
      m' := m.(transfers := done, actualLength := m.actualLength + actual, status := status);
    }

    /**
     * vt34xx_spi_work for one message: program the registers from the
     * device, run the transfers unless that failed, release the select line
     * when still asserted, and record the configuration's result as status.
     */
    method ProcessMessage(m: Message) returns (m': Message)
      requires Runnable(m)
      modifies ctl
      ensures (ctl.State(), m') == SpiDispatch.ProcessMessage(ctl.env, old(ctl.State()), m)
    {
      var status := ctl.RegsConfig(m.dev);
      if status < 0 {
        return m.(status := status);
      }
      var active, actual, done := RunAll(m);
      m' := MessageDone(m, status, active, actual, done);
    }

    /**
     * One round of vt34xx_spi_work's loop: take the head of the queue,
     * process it, and run its callback when both callback and context are set.
     */
    method WorkNext() returns (m': Message)
      requires queue != [] && Runnable(queue[0])
      modifies this, ctl
      ensures queue == old(queue)[1..]
      ensures (ctl.State(), m') == SpiDispatch.ProcessMessage(ctl.env, old(ctl.State()), old(queue)[0])
      ensures completions == old(completions) + (if Completes(m') then [m'] else [])
    {
      var m := queue[0];
      queue := queue[1..];
      m' := ProcessMessage(m);
      if m'.complete && m'.context != 0 {
        completions := completions + [m'];
      }
    }

    /**
     * vt34xx_spi_work: take messages from the head of the queue until it is
     * empty, process each, and run its callback when both callback and
     * context are set. done lists the processed messages in order.
     */
    method Work() returns (done: seq<Message>)
      requires forall i :: 0 <= i < |queue| ==> Runnable(queue[i])
      modifies this, ctl
      ensures var w := WorkPrefix(ctl.env, old(ctl.State()), old(queue), |old(queue)|);
        ctl.State() == w.hw && done == w.done && queue == [] &&
        completions == old(completions) + w.completions
    {
      ghost var q0 := queue;
      ghost var c0 := completions;
      ghost var n := 0;
      ghost var w := WorkOut(ctl.State(), [], []);
      done := [];
      while queue != []
        invariant n <= |q0| && queue == q0[n..]
        invariant w == WorkPrefix(ctl.env, old(ctl.State()), q0, n)
        invariant ctl.State() == w.hw && done == w.done && completions == c0 + w.completions
        decreases |queue|
      {
        var m' := WorkNext();
        WorkPrefixNext(ctl.env, old(ctl.State()), q0, n, ctl.State(), m');
        done := done + [m'];
        w := WorkOut(ctl.State(), done, w.completions + (if Completes(m') then [m'] else []));
        n := n + 1;
      }
      assert n == |q0|;
    }
  }
}
