/**
 * Constants and data model of the VT34xx SPI master controller driver.
 *
 * The controller's register header (offsets and bit masks) is not part of
 * this model; the layout below is the model's own. Only the clock divisor
 * field (TCD, bits 21..31, at most 0x7ff) is fixed by the driver itself.
 */
module SpiDefs {
  import opened Common

  // ---- Register block (offsets into the controller's MMIO window) ----
  const SPI_CR: nat := 0x00     // control
  const SPI_SR: nat := 0x04     // status (write ones to clear)
  const SPI_DFCR: nat := 0x08   // data format control
  const SPI_CRE: nat := 0x0C    // control extension

  // ---- Control register fields ----
  const CR_ME: bv32 := 0x1              // module enable
  const CR_CPHS_MASK: bv32 := 0x6       // clock phase/polarity, 2 bits
  const CR_MSMS: bv32 := 0x8            // set: slave, clear: master
  const CR_TFR: bv32 := 0x10            // transmit FIFO reset (self-clearing)
  const CR_RFR: bv32 := 0x20            // receive FIFO reset (self-clearing)
  const CR_DRC: bv32 := 0x40            // DMA request control
  const CR_RFTS: bv32 := 0x80           // receive FIFO threshold select
  const CR_TFTS: bv32 := 0x100          // transmit FIFO threshold select
  // Field positions: clock mode at bit 1, slave select at bit 19, divisor at
  // bit 21. They appear as literal shift amounts in SpiSpec's field functions.
  const CR_TCD_MASK: bv32 := 0xFFE0_0000  // clock divisor, bits 21..31
  const TCD_MAX: nat := 0x7ff

  // ---- Status register flags ----
  const SR_BUSY: bv32 := 0x1
  const SR_TFEI: bv32 := 0x2            // transmit FIFO empty
  const SR_RFEI: bv32 := 0x4            // receive FIFO empty

  // ---- Data format control register fields ----
  const DFCR_DSV: bv32 := 0x1           // select line software-drive value
  const DFCR_DSE: bv32 := 0x2           // select line software-drive enable
  const DFCR_RSBO: bv32 := 0x4          // receive LSB first
  const DFCR_TSBO: bv32 := 0x8          // transmit LSB first
  const DFCR_SPM: bv32 := 0x10          // point-to-point port mode
  const DFCR_SC: bv32 := 0x20           // select line controlled by the module

  // ---- Driver constants ----
  const SPI_FIFO_SIZE: nat := 32
  const SPI_DFLT_FREQ: nat := 5_000_000      // fallback bus speed, Hz
  const SPI_DMA_MAX_FREQ: nat := 15_000_000  // speed ceiling in DMA mode, Hz
  const SPI_CLK_MODE3: bv8 := 3
  const CRE_INIT: bv32 := 0x20

  // ---- spi_device.mode bits (Linux SPI core) ----
  const SPI_CPHA: bv8 := 0x01
  const SPI_CPOL: bv8 := 0x02
  const SPI_CS_HIGH: bv8 := 0x04
  const SPI_LSB_FIRST: bv8 := 0x08
  const SPI_3WIRE: bv8 := 0x10
  const SPI_LOOP: bv8 := 0x20
  /** The mode bits this controller understands. */
  const MODEBITS: bv8 := 0x2B   // SPI_CPOL | SPI_CPHA | SPI_LOOP | SPI_LSB_FIRST

  /** Largest value the driver's `int speed_hz` parameter can hold as a positive int. */
  const INT_LIMIT: nat := 0x8000_0000

  /** How the select line is driven. */
  datatype SsnCtrl = SsnProgram | SsnHardware
  datatype PortMode = PortPointToPoint | PortMultiMaster

  /** Static controller capabilities (struct vt34xx_spi_hw). */
  datatype HwInfo = HwInfo(
    minFreqHz: nat,
    maxFreqHz: nat,
    bits8En: bool,      // BITS8_PER_WORD_EN in bits_per_word_en
    bits16En: bool,     // BITS16_PER_WORD_EN in bits_per_word_en
    maxTransferLength: nat,
    dmaSupport: bool,
    ssnCtrl: SsnCtrl,
    portMode: PortMode)

  /** Per-slave controller data (struct vt34xx_spi_slave). */
  datatype SlaveInfo = SlaveInfo(bitsPerWord: nat, dmaEn: bool)

  /** The fields of a logical device (struct spi_device) the driver reads. */
  datatype DeviceConfig = DeviceConfig(
    chipSelect: nat,
    mode: bv8,
    bitsPerWord: nat,
    maxSpeedHz: nat,
    slave: SlaveInfo)

  /**
   * One transfer of a message. A buffer is None when its pointer is NULL;
   * a present buffer holds the bytes the pointer designates.
   */
  datatype Transfer = Transfer(
    tx: Option<seq<bv8>>,
    rx: Option<seq<bv8>>,
    len: nat,
    speedHz: nat,
    bitsPerWord: nat,
    delayUsecs: nat,
    csChange: bool)

  /**
   * A message: its transfers in order, whether a completion callback is set,
   * the callback's context (0 is NULL), and the results the driver fills in.
   */
  datatype Message = Message(
    dev: DeviceConfig,
    transfers: seq<Transfer>,
    complete: bool,
    context: nat,
    isDmaMapped: bool,
    status: int,
    actualLength: nat)

  /**
   * What the hardware answers, as streams indexed by read number:
   * every register read made by a polling loop, every read of the receive
   * FIFO port, and every yes/no answer of the DMA controller (channel
   * request granted, completion signalled before the timeout).
   */
  datatype Env = Env(
    freqKhz: nat,       // controller input clock in kHz
    pollTimeout: nat,   // iterations of every polling loop
    hw: HwInfo,
    pollObs: nat -> bv32,
    rxObs: nat -> bv8,
    dmaObs: nat -> bool)

  /**
   * Everything of the controller state but the register file and the poll
   * cursor: how far the receive FIFO and DMA streams have been consumed,
   * the bursts loaded into the transmit FIFO (one per load), the two GPIO
   * select-line levels, the DMA channels held and the DMA acknowledgement
   * flags.
   */
  datatype Bus = Bus(
    rxPos: nat,
    dmaPos: nat,
    bursts: seq<seq<bv8>>,
    ss1High: bool,      // GPIO pin of chip select 1 (high: released)
    ss0High: bool,      // GPIO pin of every other chip select
    txChHeld: bool,
    rxChHeld: bool,
    txAck: bool,
    rxAck: bool)

  /** The controller state the driver sees. */
  datatype Hw = Hw(regs: map<nat, bv32>, pollPos: nat, bus: Bus)

  /** Result of one engine run: new state, bytes transferred, bytes stored in rx. */
  datatype EngineOut = EngineOut(hw: Hw, count: nat, received: seq<bv8>)
}
