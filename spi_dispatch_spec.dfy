/**
 * Validation, submission and the message worker of the VT34xx SPI driver,
 * as functions: bits_per_word_is_support, speed_hz_is_support,
 * vt34xx_spi_setup, vt34xx_spi_transfer and vt34xx_spi_work.
 */
module SpiDispatch {
  import opened Common
  import opened SpiDefs
  import opened SpiSpec
  import opened SpiEngine

  // ================= Support checks =================

  /** bits_per_word_is_support: 0 for a word size the controller has enabled, else -EINVAL. */
  function BitsPerWordIsSupport(hw: HwInfo, bpw: nat): (r: int)
    ensures r == 0 || r == -EINVAL
    ensures r == 0 <==> (bpw == 8 && hw.bits8En) || (bpw == 16 && hw.bits16En)
  {
    if bpw != 8 && bpw != 16 then -EINVAL
    else if bpw == 8 && !hw.bits8En then -EINVAL
    else if bpw == 16 && !hw.bits16En then -EINVAL
    else 0
  }

  /** speed_hz_is_support: 0 for a speed within the controller's range, else -EINVAL. */
  function SpeedHzIsSupport(hw: HwInfo, speedHz: nat): (r: int)
    ensures r == 0 || r == -EINVAL
    ensures r == 0 <==> hw.minFreqHz <= speedHz <= hw.maxFreqHz
  {
    if speedHz < hw.minFreqHz then -EINVAL
    else if speedHz > hw.maxFreqHz then -EINVAL
    else 0
  }

  // ================= Device setup =================

  /** The word size setup works with: the device's own, or the slave default when it is 0. */
  function RequestedBits(d: DeviceConfig): nat {
    if d.bitsPerWord == 0 then d.slave.bitsPerWord else d.bitsPerWord
  }

  /** The speed after setup's clamp: 0 or above the maximum becomes the maximum. */
  function ClampedSpeed(hw: HwInfo, speedHz: nat): (s: nat)
    ensures s <= hw.maxFreqHz
    ensures 0 < speedHz <= hw.maxFreqHz ==> s == speedHz
  {
    if speedHz == 0 || speedHz > hw.maxFreqHz then hw.maxFreqHz else speedHz
  }

  /**
   * vt34xx_spi_setup: reject unknown mode bits; default the word size from
   * the slave data and fall back to it when the device's is unsupported
   * (failing when it is unsupported too); clamp the speed to the maximum
   * and reject one below the minimum. The device is updated as it goes, so
   * a failed setup may already have changed it. A successful setup leaves
   * a word size of 0 or a supported one and a speed within the range.
   */
  function Setup(hw: HwInfo, d: DeviceConfig): (r: (DeviceConfig, int))
    ensures r.1 == 0 || r.1 == -EINVAL
    ensures r.0.chipSelect == d.chipSelect && r.0.mode == d.mode && r.0.slave == d.slave
    ensures r.1 == 0 ==>
      (r.0.bitsPerWord == 0 || BitsPerWordIsSupport(hw, r.0.bitsPerWord) == 0) &&
      hw.minFreqHz <= r.0.maxSpeedHz <= hw.maxFreqHz
  {
    if d.mode & !MODEBITS != 0 then (d, -EINVAL)
    else
      var bpw := RequestedBits(d);
      var d1 := d.(bitsPerWord := bpw);
      var fallback := bpw != 0 && BitsPerWordIsSupport(hw, bpw) != 0;
      if fallback && BitsPerWordIsSupport(hw, d.slave.bitsPerWord) != 0 then (d1, -EINVAL)
      else
        var d2 := if fallback then d1.(bitsPerWord := d.slave.bitsPerWord) else d1;
        var d3 := d2.(maxSpeedHz := ClampedSpeed(hw, d2.maxSpeedHz));
        if d3.maxSpeedHz < hw.minFreqHz then (d3, -EINVAL) else (d3, 0)
  }

  /** Unknown mode bits are rejected before anything is changed. */
  lemma SetupRejectsMode(hw: HwInfo, d: DeviceConfig)
    requires d.mode & !MODEBITS != 0
    ensures Setup(hw, d) == (d, -EINVAL)
  {
  }

  /**
   * With known mode bits, setup fails exactly when the requested word size
   * and the slave default are both unsupported, or the clamped speed is
   * below the minimum; the word size is the requested one unless that is
   * unsupported, and then the slave default.
   */
  lemma SetupOutcome(hw: HwInfo, d: DeviceConfig)
    requires d.mode & !MODEBITS == 0
    ensures var (d', e) := Setup(hw, d);
      var bpw := RequestedBits(d);
      var bad := bpw != 0 && BitsPerWordIsSupport(hw, bpw) != 0;
      (e == 0 <==> !(bad && BitsPerWordIsSupport(hw, d.slave.bitsPerWord) != 0) &&
                   hw.minFreqHz <= ClampedSpeed(hw, d.maxSpeedHz)) &&
      d'.bitsPerWord == (if bad && BitsPerWordIsSupport(hw, d.slave.bitsPerWord) == 0
                         then d.slave.bitsPerWord else bpw) &&
      (!(bad && BitsPerWordIsSupport(hw, d.slave.bitsPerWord) != 0) ==>
         d'.maxSpeedHz == ClampedSpeed(hw, d.maxSpeedHz))
  {
  }

  /** A failed setup is not a no-op: a zero word size has been replaced by the slave default. */
  lemma SetupFailureChangesDevice(hw: HwInfo, d: DeviceConfig)
    requires d.mode & !MODEBITS == 0 && d.bitsPerWord == 0 && d.slave.bitsPerWord != 0
    ensures Setup(hw, d).0.bitsPerWord == d.slave.bitsPerWord
  {
  }

  // ================= Message submission =================

  /** A transfer vt34xx_spi_transfer rejects: no buffer but a length, or longer than the maximum. */
  predicate BadTransfer(hw: HwInfo, t: Transfer) {
    (t.tx.None? && t.rx.None? && t.len != 0) || t.len > hw.maxTransferLength
  }

  /**
   * A transfer's word size and speed as submission leaves them: replaced by
   * the device's when 0 or unsupported, kept otherwise.
   */
  function Normalize(hw: HwInfo, dev: DeviceConfig, t: Transfer): (u: Transfer)
    ensures u.(bitsPerWord := t.bitsPerWord, speedHz := t.speedHz) == t
    ensures u.bitsPerWord == dev.bitsPerWord || (u.bitsPerWord == t.bitsPerWord && BitsPerWordIsSupport(hw, u.bitsPerWord) == 0)
    ensures u.speedHz == dev.maxSpeedHz || (u.speedHz == t.speedHz && hw.minFreqHz <= u.speedHz <= hw.maxFreqHz)
    ensures t.bitsPerWord != 0 && BitsPerWordIsSupport(hw, t.bitsPerWord) == 0 ==> u.bitsPerWord == t.bitsPerWord
    ensures t.speedHz != 0 && SpeedHzIsSupport(hw, t.speedHz) == 0 ==> u.speedHz == t.speedHz
  {
    var bpw := if t.bitsPerWord == 0 || BitsPerWordIsSupport(hw, t.bitsPerWord) != 0 then dev.bitsPerWord else t.bitsPerWord;
    var speed := if t.speedHz == 0 || SpeedHzIsSupport(hw, t.speedHz) != 0 then dev.maxSpeedHz else t.speedHz;
    t.(bitsPerWord := bpw, speedHz := speed)
  }

  /** Normalize applied to every transfer of a list. */
  function NormalizeAll(hw: HwInfo, dev: DeviceConfig, ts: seq<Transfer>): (us: seq<Transfer>)
    ensures |us| == |ts| && forall i :: 0 <= i < |ts| ==> us[i] == Normalize(hw, dev, ts[i])
  {
    seq(|ts|, i requires 0 <= i < |ts| => Normalize(hw, dev, ts[i]))
  }

  /** The index of the first rejected transfer, or the length when there is none. */
  function FirstBad(hw: HwInfo, ts: seq<Transfer>): (k: nat)
    ensures k <= |ts|
    ensures k < |ts| ==> BadTransfer(hw, ts[k])
    ensures forall i :: 0 <= i < k ==> !BadTransfer(hw, ts[i])
  {
    if |ts| == 0 then 0
    else if BadTransfer(hw, ts[0]) then 0
    else 1 + FirstBad(hw, ts[1..])
  }

  /**
   * What vt34xx_spi_transfer does with a message: the updated message, the
   * return value, whether it joined the queue, and whether its completion
   * callback ran.
   */
  datatype SubmitOut = SubmitOut(msg: Message, ret: int, queued: bool, completed: bool)

  /** msg_reject: status -EINVAL, completion when a callback is set, not queued. */
  function Reject(m: Message): (r: SubmitOut)
    ensures r.ret == -EINVAL && r.msg.status == -EINVAL && !r.queued && r.completed == m.complete
    ensures r.msg.(status := m.status) == m
  {
    SubmitOut(m.(status := -EINVAL), -EINVAL, false, m.complete)
  }

  /**
   * vt34xx_spi_transfer: clear the results; reject a message without
   * transfers or without a completion callback; then walk the transfers,
   * rejecting at the first bad one and normalising the others in place (so
   * the transfers before a rejected one are already normalised); a message
   * that passes joins the queue.
   */
  function Submit(hw: HwInfo, m: Message): SubmitOut {
    var m0 := m.(actualLength := 0, status := 0);
    if |m.transfers| == 0 || !m.complete then Reject(m0)
    else
      var k := FirstBad(hw, m.transfers);
      var m1 := m0.(transfers := NormalizeAll(hw, m.dev, m.transfers[..k]) + m.transfers[k..]);
      if k < |m.transfers| then Reject(m1) else SubmitOut(m1, 0, true, false)
  }

  /**
   * A message is rejected exactly when it has no transfers, no completion
   * callback or a bad transfer; a rejected message is not queued, carries
   * -EINVAL and has its callback run when it has one. An accepted one is
   * queued with status 0, no bytes counted and every transfer normalised;
   * only the transfers, the status and the byte count ever change.
   */
  lemma SubmitMeaning(hw: HwInfo, m: Message)
    ensures var r := Submit(hw, m);
      var bad := |m.transfers| == 0 || !m.complete ||
                 exists i :: 0 <= i < |m.transfers| && BadTransfer(hw, m.transfers[i]);
      (r.ret == 0 || r.ret == -EINVAL) &&
      (r.ret == -EINVAL <==> bad) &&
      (r.queued <==> r.ret == 0) &&
      r.msg.status == r.ret &&
      r.msg.actualLength == 0 &&
      r.completed == (bad && m.complete) &&
      r.msg.(transfers := m.transfers, status := m.status, actualLength := m.actualLength) == m &&
      (r.ret == 0 ==> r.msg.transfers == NormalizeAll(hw, m.dev, m.transfers))
  {
    var ts := m.transfers;
    if |ts| > 0 && m.complete {
      var k := FirstBad(hw, ts);
      if k == |ts| {
        assert ts[..k] == ts && ts[k..] == [];
      }
    }
  }

  /**
   * A message rejected at transfer k keeps its transfers in number; those
   * before k are normalised, k and the rest are untouched.
   */
  lemma SubmitPartial(hw: HwInfo, m: Message)
    requires |m.transfers| > 0 && m.complete
    requires FirstBad(hw, m.transfers) < |m.transfers|
    ensures var r := Submit(hw, m);
      var k := FirstBad(hw, m.transfers);
      |r.msg.transfers| == |m.transfers| &&
      (forall i :: 0 <= i < k ==> r.msg.transfers[i] == Normalize(hw, m.dev, m.transfers[i])) &&
      r.msg.transfers[k..] == m.transfers[k..]
  {
  }

  // ================= Message worker =================

  /** The worker sends a transfer by DMA exactly under these four conditions. */
  predicate UseDma(env: Env, m: Message, t: Transfer) {
    env.hw.dmaSupport && m.isDmaMapped && m.dev.slave.dmaEn && t.len > SPI_FIFO_SIZE
  }

  /**
   * A message the engines can run: every buffer holds its transfer's length
   * and every speed fits the driver's int parameter.
   */
  predicate Runnable(m: Message) {
    m.dev.maxSpeedHz < INT_LIMIT &&
    forall i :: 0 <= i < |m.transfers| ==> ValidTransfer(m.transfers[i]) && m.transfers[i].speedHz < INT_LIMIT
  }

  /** The engine the worker picks for one transfer, run on the controller. */
  function Engine(env: Env, h: Hw, m: Message, t: Transfer): (out: EngineOut)
    requires ValidTransfer(t) && t.speedHz < INT_LIMIT
    ensures out.count <= t.len && |out.received| <= t.len
    ensures t.rx.None? ==> out.received == []
  {
    if UseDma(env, m, t) then DmaWriteRead(env, h, m.dev.chipSelect, t)
    else
      WriteReadMeaning(env, h, t);
      WriteRead(env, h, t)
  }

  /**
   * The receive buffer after the engine stored `received` at its start; the
   * rest of the buffer and the other fields are unchanged.
   */
  function StoreRx(t: Transfer, received: seq<bv8>): (u: Transfer)
    requires ValidTransfer(t) && |received| <= t.len
    ensures u.(rx := t.rx) == t && u.rx.Some? == t.rx.Some?
    ensures t.rx.Some? ==> (|u.rx.value| == |t.rx.value| &&
                           u.rx.value[..|received|] == received &&
                           u.rx.value[|received|..] == t.rx.value[|received|..])
  {
    if t.rx.Some? then t.(rx := Some(received + t.rx.value[|received|..])) else t
  }

  /**
   * Where the worker stands within a message: the controller, whether it
   * believes the select line asserted, the bytes counted so far and the
   * transfers already run (with their receive buffers filled).
   */
  datatype Run = Run(hw: Hw, active: bool, actual: nat, done: seq<Transfer>)

  /**
   * spi_reset_transfer_speed: a transfer with its own speed sets the clock
   * divisor for it, keeping the other control bits; one without leaves the
   * controller alone.
   */
  function ResetTransferSpeed(env: Env, h: Hw, t: Transfer): (r: Hw)
    requires t.speedHz < INT_LIMIT
    ensures forall o :: o != SPI_CR ==> Reg(r, o) == Reg(h, o)
    ensures r.pollPos == h.pollPos && r.bus == h.bus
    ensures t.speedHz != 0 ==>
      TcdField(Reg(r, SPI_CR)) == DivisorBits(env.freqKhz, t.speedHz) &&
      Reg(r, SPI_CR) & !CR_TCD_MASK == Reg(h, SPI_CR) & !CR_TCD_MASK
    ensures t.speedHz == 0 ==> r == h
  {
    if t.speedHz != 0 then
      SetClockDivMeaning(env, h, t.speedHz);
      SetClockDiv(env, h, t.speedHz)
    else h
  }

  /**
   * Before the engine: the transfer's own speed, then the select line
   * asserted (pin low and, when the module drives it, DSV and DSE clear)
   * when it was not yet; otherwise the bus is left alone.
   */
  function PreEngine(env: Env, m: Message, h0: Hw, active: bool, t: Transfer): (h: Hw)
    requires t.speedHz < INT_LIMIT
    ensures Reg(h, SPI_CR) == Reg(ResetTransferSpeed(env, h0, t), SPI_CR)
    ensures !active ==> Selected(env, h, m.dev.chipSelect) && h.bus == SetPin(h0, m.dev.chipSelect, false).bus
    ensures active ==> h == ResetTransferSpeed(env, h0, t)
  {
    var h1 := ResetTransferSpeed(env, h0, t);
    if !active then
      CsActiveSelects(env, h1, m.dev.chipSelect);
      CsActive(env, h1, m.dev.chipSelect)
    else h1
  }

  /** The clock a transfer runs at: its own speed when it has one, the device's setting otherwise. */
  lemma PreEngineClock(env: Env, m: Message, h0: Hw, active: bool, t: Transfer)
    requires t.speedHz < INT_LIMIT
    ensures var c := Reg(PreEngine(env, m, h0, active, t), SPI_CR);
      (t.speedHz != 0 ==> TcdField(c) == DivisorBits(env.freqKhz, t.speedHz) &&
                          c & !CR_TCD_MASK == Reg(h0, SPI_CR) & !CR_TCD_MASK) &&
      (t.speedHz == 0 ==> c == Reg(h0, SPI_CR))
  {
  }

  /**
   * One transfer of the worker: prepare, run the chosen engine when the
   * length is not 0 and add its count, then release the select line when
   * the transfer asks for a change.
   */
  function TransferStep(env: Env, m: Message, r: Run, t: Transfer): Run
    requires ValidTransfer(t) && t.speedHz < INT_LIMIT
  {
    var h2 := PreEngine(env, m, r.hw, r.active, t);
    var out := if t.len != 0 then Engine(env, h2, m, t) else EngineOut(h2, 0, []);
    PostEngine(env, m, r, t, out)
  }

  /** The data transfer of one transfer: the engine when the length is not 0, nothing otherwise. */
  function DataPhase(env: Env, h: Hw, m: Message, t: Transfer): (out: EngineOut)
    requires ValidTransfer(t) && t.speedHz < INT_LIMIT
    ensures out.count <= t.len && |out.received| <= t.len
    ensures t.rx.None? ==> out.received == []
  {
    if t.len != 0 then Engine(env, h, m, t) else EngineOut(h, 0, [])
  }

  /**
   * After the engine: the bytes received stored in the receive buffer, the
   * count added, and the select line released when the transfer asks for a
   * change.
   */
  function PostEngine(env: Env, m: Message, r: Run, t: Transfer, out: EngineOut): (r': Run)
    requires ValidTransfer(t) && |out.received| <= t.len
    ensures r'.actual == r.actual + out.count && r'.done == r.done + [StoreRx(t, out.received)]
    ensures r'.active == !t.csChange
  {
    var u := StoreRx(t, out.received);
    if t.csChange then Run(CsInactive(env, out.hw, m.dev.chipSelect), false, r.actual + out.count, r.done + [u])
    else Run(out.hw, true, r.actual + out.count, r.done + [u])
  }

  /** The worker after the first n transfers of a message, started on h with the line not asserted. */
  function RunPrefix(env: Env, m: Message, h: Hw, n: nat): Run
    requires Runnable(m) && n <= |m.transfers|
  {
    if n == 0 then Run(h, false, 0, [])
    else TransferStep(env, m, RunPrefix(env, m, h, n - 1), m.transfers[n - 1])
  }

  /** The total length of a list of transfers. */
  function TotalLen(ts: seq<Transfer>): nat {
    if |ts| == 0 then 0 else TotalLen(ts[..|ts| - 1]) + ts[|ts| - 1].len
  }

  /**
   * vt34xx_spi_work for one message: program the registers from the
   * device; when that fails skip every transfer; else run the transfers and
   * release the select line if it is still asserted. The status is the
   * configuration's result.
   */
  function ProcessMessage(env: Env, h: Hw, m: Message): (Hw, Message)
    requires Runnable(m)
  {
    var (h1, st) := RegsConfig(env, h, m.dev);
    if st < 0 then (h1, m.(status := st))
    else MessageDone(env, m, st, RunPrefix(env, m, h1, |m.transfers|))
  }

  /**
   * The end of a message that ran: the select line released when still
   * asserted, the transfers as run, the bytes counted and the status.
   */
  function MessageDone(env: Env, m: Message, st: int, r: Run): (Hw, Message) {
    var h2 := if r.active then CsInactive(env, r.hw, m.dev.chipSelect) else r.hw;
    (h2, m.(transfers := r.done, actualLength := m.actualLength + r.actual, status := st))
  }

  /** The worker calls a message's callback only when both the callback and its context are set. */
  predicate Completes(m: Message) {
    m.complete && m.context != 0
  }

  /** The messages among ms whose callback the worker calls, in order. */
  function Completed(ms: seq<Message>): seq<Message> {
    if |ms| == 0 then [] else Completed(ms[..|ms| - 1]) + (if Completes(ms[|ms| - 1]) then [ms[|ms| - 1]] else [])
  }

  /** The worker's result: the controller, the messages processed and the completions called. */
  datatype WorkOut = WorkOut(hw: Hw, done: seq<Message>, completions: seq<Message>)

  /** The worker after the first n messages of the queue, taken from its head. */
  function WorkPrefix(env: Env, h: Hw, q: seq<Message>, n: nat): WorkOut
    requires n <= |q| && forall i :: 0 <= i < |q| ==> Runnable(q[i])
  {
    if n == 0 then WorkOut(h, [], [])
    else
      var w := WorkPrefix(env, h, q, n - 1);
      var (h', m') := ProcessMessage(env, w.hw, q[n - 1]);
      WorkOut(h', w.done + [m'], w.completions + (if Completes(m') then [m'] else []))
  }

  /** The worker's next message, as one step of WorkPrefix. */
  lemma WorkPrefixNext(env: Env, h: Hw, q: seq<Message>, n: nat, h': Hw, m': Message)
    requires n < |q| && forall i :: 0 <= i < |q| ==> Runnable(q[i])
    requires (h', m') == ProcessMessage(env, WorkPrefix(env, h, q, n).hw, q[n])
    ensures var w := WorkPrefix(env, h, q, n);
      WorkPrefix(env, h, q, n + 1) == WorkOut(h', w.done + [m'], w.completions + (if Completes(m') then [m'] else []))
  {
  }

  // ================= Worker properties =================

  /** A finished transfer differs from the submitted one only in its receive buffer, which keeps its length. */
  predicate SameShape(u: Transfer, t: Transfer) {
    u.(rx := t.rx) == t && u.rx.Some? == t.rx.Some? &&
    (t.rx.Some? ==> |u.rx.value| == |t.rx.value|)
  }

  /** One worker step adds one finished transfer of the same shape and counts at most its length. */
  lemma StepShape(env: Env, m: Message, r: Run, t: Transfer)
    requires ValidTransfer(t) && t.speedHz < INT_LIMIT
    ensures var r' := TransferStep(env, m, r, t);
      |r'.done| == |r.done| + 1 && r'.done[..|r.done|] == r.done &&
      SameShape(r'.done[|r.done|], t) &&
      r.actual <= r'.actual <= r.actual + t.len &&
      r'.active == !t.csChange
  {
  }

  /** On a quiet controller a polled step counts all its bytes. */
  lemma StepQuiet(env: Env, m: Message, r: Run, t: Transfer)
    requires ValidTransfer(t) && t.speedHz < INT_LIMIT && Quiet(env) && !UseDma(env, m, t)
    ensures TransferStep(env, m, r, t).actual == r.actual + t.len
  {
    if t.len != 0 {
      QuietWriteRead(env, PreEngine(env, m, r.hw, r.active, t), t);
    }
  }

  /** A polled step keeps "believed asserted" meaning "driven low", and a release drives the line high. */
  lemma StepPins(env: Env, m: Message, r: Run, t: Transfer)
    requires ValidTransfer(t) && t.speedHz < INT_LIMIT && !UseDma(env, m, t)
    requires r.active ==> !PinHigh(r.hw, m.dev.chipSelect)
    ensures var r' := TransferStep(env, m, r, t);
      (r'.active ==> !PinHigh(r'.hw, m.dev.chipSelect)) &&
      (!r'.active ==> PinHigh(r'.hw, m.dev.chipSelect))
  {
    if t.len != 0 {
      WriteReadPins(env, PreEngine(env, m, r.hw, r.active, t), t);
    }
  }

  /**
   * After n transfers: one finished transfer per transfer, each differing
   * from the submitted one only in its receive buffer, which keeps its
   * length; the bytes counted never exceed the bytes requested.
   */
  lemma {:induction false} RunPrefixBound(env: Env, m: Message, h: Hw, n: nat)
    requires Runnable(m) && n <= |m.transfers|
    ensures RunPrefix(env, m, h, n).actual <= TotalLen(m.transfers[..n])
  {
    if n > 0 {
      RunPrefixBound(env, m, h, n - 1);
      StepShape(env, m, RunPrefix(env, m, h, n - 1), m.transfers[n - 1]);
      TotalLenStep(m.transfers, n);
    }
  }

  lemma {:induction false} RunPrefixShape(env: Env, m: Message, h: Hw, n: nat)
    requires Runnable(m) && n <= |m.transfers|
    ensures ShapesMatch(RunPrefix(env, m, h, n).done, m.transfers, n)
  {
    if n > 0 {
      RunPrefixShape(env, m, h, n - 1);
      var r := RunPrefix(env, m, h, n - 1);
      StepShape(env, m, r, m.transfers[n - 1]);
      ShapesExtend(r.done, RunPrefix(env, m, h, n).done, m.transfers, n);
    }
  }

  /** The first n finished transfers d have the shapes of the first n transfers of ts. */
  predicate ShapesMatch(d: seq<Transfer>, ts: seq<Transfer>, n: nat)
    requires n <= |ts|
  {
    |d| == n &&
    (n > 0 ==> ShapesMatch(d[..n - 1], ts, n - 1) && SameShape(d[n - 1], ts[n - 1]))
  }

  /** Extending a list of finished transfers by one of the right shape. */
  lemma ShapesExtend(d: seq<Transfer>, d': seq<Transfer>, ts: seq<Transfer>, n: nat)
    requires 0 < n <= |ts| && |d'| == n && d'[..n - 1] == d
    requires ShapesMatch(d, ts, n - 1)
    requires SameShape(d'[n - 1], ts[n - 1])
    ensures ShapesMatch(d', ts, n)
  {
  }

  /** ShapesMatch is the pointwise relation. */
  lemma {:induction false} ShapesMatchAt(d: seq<Transfer>, ts: seq<Transfer>, n: nat)
    requires n <= |ts| && ShapesMatch(d, ts, n)
    ensures |d| == n && forall i :: 0 <= i < n ==> SameShape(d[i], ts[i])
  {
    if n > 0 {
      ShapesMatchAt(d[..n - 1], ts, n - 1);
      forall i | 0 <= i < n - 1
        ensures SameShape(d[i], ts[i])
      {
        assert d[i] == d[..n - 1][i];
      }
    }
  }

  /** Every list of transfers has its own shapes. */
  lemma {:induction false} ShapesSelf(ts: seq<Transfer>, n: nat)
    requires n <= |ts|
    ensures ShapesMatch(ts[..n], ts, n)
  {
    if n > 0 {
      ShapesSelf(ts, n - 1);
      assert ts[..n][..n - 1] == ts[..n - 1];
    }
  }

  /** The total length of the first n transfers, one transfer at a time. */
  lemma TotalLenStep(ts: seq<Transfer>, n: nat)
    requires 0 < n <= |ts|
    ensures TotalLen(ts[..n]) == TotalLen(ts[..n - 1]) + ts[n - 1].len
  {
    assert ts[..n][..n - 1] == ts[..n - 1];
  }

  /** The prefix of a list as long as the list is the list. */
  lemma WholePrefix(ts: seq<Transfer>)
    ensures ts[..|ts|] == ts
  {
  }

  /**
   * On a controller that always answers at once, a message none of whose
   * transfers goes by DMA has all its bytes counted.
   */
  lemma {:induction false} QuietActual(env: Env, m: Message, h: Hw, n: nat)
    requires Runnable(m) && n <= |m.transfers| && Quiet(env)
    requires forall i :: 0 <= i < n ==> !UseDma(env, m, m.transfers[i])
    ensures RunPrefix(env, m, h, n).actual == TotalLen(m.transfers[..n])
  {
    if n > 0 {
      QuietActual(env, m, h, n - 1);
      StepQuiet(env, m, RunPrefix(env, m, h, n - 1), m.transfers[n - 1]);
      TotalLenStep(m.transfers, n);
    }
  }

  /**
   * The worker's belief about the select line matches the pin: asserted
   * means driven low, and once a transfer has run, released means high.
   */
  predicate PinTracksActive(r: Run, cs: nat, started: bool) {
    (r.active ==> !PinHigh(r.hw, cs)) && (started && !r.active ==> PinHigh(r.hw, cs))
  }

  /**
   * The select-line discipline without DMA: whenever the worker believes
   * the line asserted it is driven low; after a transfer that released it
   * the line is high.
   */
  lemma {:induction false} PolledSelectDiscipline(env: Env, m: Message, h: Hw, n: nat)
    requires Runnable(m) && n <= |m.transfers|
    requires forall i :: 0 <= i < n ==> !UseDma(env, m, m.transfers[i])
    ensures PinTracksActive(RunPrefix(env, m, h, n), m.dev.chipSelect, n > 0)
  {
    if n > 0 {
      PolledSelectDiscipline(env, m, h, n - 1);
      var r, t := RunPrefix(env, m, h, n - 1), m.transfers[n - 1];
      assert ValidTransfer(t) && t.speedHz < INT_LIMIT && !UseDma(env, m, t);
      StepPins(env, m, r, t);
    }
  }

  /** Every engine run of a message without DMA transfers starts with the select line asserted. */
  lemma PolledRunsSelected(env: Env, m: Message, h: Hw, i: nat)
    requires Runnable(m) && i < |m.transfers|
    requires forall j :: 0 <= j <= i ==> !UseDma(env, m, m.transfers[j])
    ensures !PinHigh(PreEngine(env, m, RunPrefix(env, m, h, i).hw, RunPrefix(env, m, h, i).active, m.transfers[i]), m.dev.chipSelect)
  {
    PolledSelectDiscipline(env, m, h, i);
  }

  /** After a transfer that asks for a change the select line is released, whatever the engine did. */
  lemma StepRelease(env: Env, m: Message, r: Run, t: Transfer)
    requires ValidTransfer(t) && t.speedHz < INT_LIMIT && t.csChange
    ensures var r' := TransferStep(env, m, r, t);
      !r'.active && PinHigh(r'.hw, m.dev.chipSelect)
  {
  }

  /** After a non-empty prefix the worker holds the line asserted, or it has released it. */
  lemma RunEndReleased(env: Env, m: Message, h: Hw, n: nat)
    requires Runnable(m) && 0 < n <= |m.transfers|
    ensures var r := RunPrefix(env, m, h, n);
      r.active || PinHigh(r.hw, m.dev.chipSelect)
  {
    var t := m.transfers[n - 1];
    if t.csChange {
      StepRelease(env, m, RunPrefix(env, m, h, n - 1), t);
    } else {
      StepShape(env, m, RunPrefix(env, m, h, n - 1), t);
    }
  }

  /** A message with transfers whose configuration succeeded ends with the select line released. */
  lemma MessageEndsReleased(env: Env, h: Hw, m: Message)
    requires Runnable(m) && |m.transfers| > 0
    ensures PinHigh(ProcessMessage(env, h, m).0, m.dev.chipSelect) ||
            RegsConfig(env, h, m.dev).1 != 0
  {
    var (h1, st) := RegsConfig(env, h, m.dev);
    if st == 0 {
      RunEndReleased(env, m, h1, |m.transfers|);
    }
  }

  /**
   * A processed message keeps one transfer per submitted transfer, each
   * differing only in its receive buffer, which keeps its length.
   */
  lemma MessageShape(env: Env, h: Hw, m: Message)
    requires Runnable(m)
    ensures ShapesMatch(ProcessMessage(env, h, m).1.transfers, m.transfers, |m.transfers|)
  {
    var (h1, st) := RegsConfig(env, h, m.dev);
    if st < 0 {
      ShapesSelf(m.transfers, |m.transfers|);
      WholePrefix(m.transfers);
    } else {
      RunPrefixShape(env, m, h1, |m.transfers|);
    }
  }

  /** Processing a message adds to its count at most the bytes its transfers request. */
  lemma MessageCount(env: Env, h: Hw, m: Message)
    requires Runnable(m)
    ensures var m' := ProcessMessage(env, h, m).1;
      m.actualLength <= m'.actualLength <= m.actualLength + TotalLen(m.transfers)
  {
    var (h1, st) := RegsConfig(env, h, m.dev);
    if st == 0 {
      RunPrefixBound(env, m, h1, |m.transfers|);
      WholePrefix(m.transfers);
    }
  }

  /**
   * The status a message gets is the configuration's: 0, or -EAGAIN when a
   * FIFO reset timed out, never an engine failure. On -EAGAIN no transfer
   * ran: the transfers, the count and the select lines are as before.
   */
  lemma ProcessStatus(env: Env, h: Hw, m: Message)
    requires Runnable(m)
    ensures var (h', m') := ProcessMessage(env, h, m);
      (m'.status == 0 || m'.status == -EAGAIN) &&
      (m'.status == -EAGAIN <==> RegsConfig(env, h, m.dev).1 != 0) &&
      (m'.status == -EAGAIN ==> m' == m.(status := -EAGAIN) && h'.bus == h.bus) &&
      SameMessage(m', m)
  {
    RegsConfigFailsOnlyOnFifoReset(env, h, m.dev);
    RegsConfigFrame(env, h, m.dev);
  }

  /** Appending one processed message extends the completions the same way. */
  lemma WorkStep(w: WorkOut, m': Message, w': WorkOut, q: seq<Message>)
    requires |w.done| < |q|
    requires forall i :: 0 <= i < |w.done| ==> SameMessage(w.done[i], q[i])
    requires SameMessage(m', q[|w.done|])
    requires w.completions == Completed(w.done)
    requires w'.done == w.done + [m']
    requires w'.completions == w.completions + (if Completes(m') then [m'] else [])
    ensures forall i :: 0 <= i < |w'.done| ==> SameMessage(w'.done[i], q[i])
    ensures w'.completions == Completed(w'.done)
  {
    assert w'.done[..|w'.done| - 1] == w.done;
  }

  /** A processed message differs from the queued one only in its transfers, count and status. */
  predicate SameMessage(m': Message, m: Message) {
    m'.(transfers := m.transfers, actualLength := m.actualLength, status := m.status) == m
  }

  /**
   * The worker takes the messages in queue order: it processes each once,
   * changes only their transfers, counts and statuses, and calls exactly
   * the callbacks of those with a callback and a context, in order.
   */
  lemma {:induction false} WorkInOrder(env: Env, h: Hw, q: seq<Message>, n: nat)
    requires n <= |q| && forall i :: 0 <= i < |q| ==> Runnable(q[i])
    ensures var w := WorkPrefix(env, h, q, n);
      |w.done| == n &&
      (forall i :: 0 <= i < n ==> SameMessage(w.done[i], q[i])) &&
      w.completions == Completed(w.done)
  {
    if n > 0 {
      WorkInOrder(env, h, q, n - 1);
      var w := WorkPrefix(env, h, q, n - 1);
      ProcessStatus(env, w.hw, q[n - 1]);
      WorkStep(w, ProcessMessage(env, w.hw, q[n - 1]).1, WorkPrefix(env, h, q, n), q);
    }
  }
}
