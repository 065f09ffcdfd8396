/*
 * Shared vocabulary of the MAX78000 SPI platform binding (maxim_spi.c):
 * fixed-width integers, the constants the driver uses, the value types it
 * passes around (messages, transaction requests, the SSTIME register, the
 * pin-mux flags, the init parameters) and the events the model records
 * whenever the driver calls into the vendor SDK.
 */
module SpiDefs {

  type U32 = x: int | 0 <= x < 0x1_0000_0000
  type U16 = x: int | 0 <= x < 0x1_0000
  type U8 = x: int | 0 <= x < 0x100

  /** Modulus of `uint32_t` arithmetic. */
  const U32Modulus: int := 0x1_0000_0000

  /** errno values returned (negated) by the binding. */
  const EInval: int := 22
  const ENoMem: int := 12
  const EBusy: int := 16

  /** Vendor SDK return codes (mxc_errors.h). */
  const ENoError: int := 0
  const EBadParam: int := -3
  const EBadState: int := -7

  /** MXC_SPI_INSTANCES: number of SPI peripherals on the MAX78000. */
  const SpiInstances: nat := 2

  /** MAX_DELAY_SCLK, NS_PER_US and NANO. */
  const MaxDelaySclk: nat := 255
  const NsPerUs: nat := 1000
  const Nano: nat := 1_000_000_000

  /** SPI_MASTER_MODE, SPI_SINGLE_MODE and the word size set by configuration. */
  const MasterMode: nat := 1
  const SingleMode: nat := 0
  const DataSizeBits: nat := 8

  datatype Option<T> = None | Some(value: T)

  /** A buffer pointer: NULL, or some caller-owned buffer. */
  datatype Buf = Null | Buffer(id: nat)

  /** struct no_os_spi_msg. */
  datatype Msg = Msg(
    tx: Buf,
    rx: Buf,
    bytesNumber: U32,
    /** `cs_change`: any non-zero byte asks for deassertion; passed on as is. */
    csChange: U8,
    csChangeDelay: U32,
    csDelayFirst: U32,
    csDelayLast: U32)

  /** The fields of mxc_spi_req_t that the binding fills in. */
  datatype Req = Req(
    spi: nat,
    ssIdx: U32,
    txData: Buf,
    rxData: Buf,
    txLen: U32,
    rxLen: U32,
    txCnt: nat,
    rxCnt: nat,
    ssDeassert: int)

  /**
   * The SSTIME register: the PRE and POST chip-select delay fields (8 bits
   * each, in SCLK ticks, 0 encoding 256) and the register's other bits.
   */
  datatype SsTime = SsTime(pre: U8, post: U8, other: U32)

  /** mxc_spi_pins_t. */
  datatype Pins = Pins(
    clock: bool,
    ss0: bool,
    ss1: bool,
    ss2: bool,
    miso: bool,
    mosi: bool,
    sdio2: bool,
    sdio3: bool,
    vddioh: bool)

  /** struct max_spi_init_param (the platform extension of the init parameters). */
  datatype MaxInitParam = MaxInitParam(numSlaves: U32, polarity: U32, vssel: U32)

  /** struct no_os_spi_init_param; `extra` is NULL when absent. */
  datatype InitParam = InitParam(
    deviceId: U32,
    maxSpeedHz: U32,
    chipSelect: U8,
    mode: int,
    bitOrder: int,
    extra: Option<MaxInitParam>)

  /** The descriptor fields that configuration and transfer read. */
  datatype SpiView = SpiView(dev: U32, speed: U32, cs: U8, mode: int, eparam: MaxInitParam)

  /** Which SSTIME field a warning is about. */
  datatype DelayField = PreField | PostField

  /** What the binding asks of the SDK and of the board, in call order. */
  datatype Event =
    | SdkInit(dev: nat, pins: Pins, masterMode: nat, quadMode: nat, numSlaves: U32, polarity: U32, speed: U32)
    | SdkSetMode(dev: nat, hwMode: int)
    | SdkSetWidthStandard(dev: nat)
    | SdkSetDataSize(dev: nat, bits: nat)
    | SdkShutdown(dev: nat)
    | SdkTransaction(req: Req)
    | DelayWarning(field: DelayField)
    | Udelay(us: U32)

  /*
   * Scripted oracles. The SDK's return codes and the allocator's outcomes
   * are streams consumed one per call; an exhausted stream answers success.
   */

  /** The `k`-th return code of a reply stream. */
  function Reply(rs: seq<int>, k: nat): int
  {
    if k < |rs| then rs[k] else ENoError
  }

  /** Whether the `k`-th allocation of an allocator stream succeeds. */
  function AllocOk(outcomes: seq<bool>, k: nat): bool
  {
    k >= |outcomes| || outcomes[k]
  }

  /** The stream left after `k` calls. */
  function Drop<T>(s: seq<T>, k: nat): (r: seq<T>)
    ensures |r| == if k <= |s| then |s| - k else 0

  {
    if k <= |s| then s[k..] else []
  }

  lemma ReplyDrop(rs: seq<int>, k: nat, j: nat)
    ensures Reply(Drop(rs, k), j) == Reply(rs, k + j)
  {
  }

  lemma DropDrop<T>(s: seq<T>, k: nat, j: nat)
    ensures Drop(Drop(s, k), j) == Drop(s, k + j)
  {
  }
}
