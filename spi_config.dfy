/*
 * Peripheral configuration of maxim_spi.c (_max_spi_config): the pin-mux
 * flags, the SPI mode remap and the sequence of SDK calls with its error
 * normalisation, as functions of the descriptor and of the SDK's replies.
 */
module SpiConfig {
  import opened SpiDefs

  /** The chip-select lines a pin configuration enables. */
  function SelectedLines(p: Pins): set<nat>
  {
    (if p.ss0 then {0} else {}) + (if p.ss1 then {1} else {}) + (if p.ss2 then {2} else {})
  }

  /**
   * Pin-mux flags for a chip-select: clock, MISO and MOSI on, SDIO2/SDIO3
   * off, exactly the SS line numbered `cs` (none when `cs` > 2), and the
   * I/O voltage from `vssel`.
   */
  function PinsFor(cs: U8, vssel: U32): (p: Pins)
    ensures SelectedLines(p) == if cs < 3 then {cs} else {}
    ensures p.clock && p.miso && p.mosi && !p.sdio2 && !p.sdio3
    ensures p.vddioh <==> vssel != 0
  {
    Pins(
      clock := true,
      ss0 := cs == 0,
      ss1 := cs == 1,
      ss2 := cs == 2,
      miso := true,
      mosi := true,
      sdio2 := false,
      sdio3 := false,
      vddioh := vssel != 0)
  }

  /**
   * The hardware mode for a NO_OS_SPI_MODE_x value: modes 1 and 2 are
   * exchanged, 0 and 3 pass through, anything else is refused.
   */
  function RemapMode(mode: int): (r: Option<int>)
    ensures r.Some? <==> 0 <= mode <= 3
    ensures r.Some? ==> 0 <= r.value <= 3 && (r.value == mode <==> mode == 0 || mode == 3)
  {
    match mode
    case 1 => Some(2)
    case 2 => Some(1)
    case 0 => Some(mode)
    case 3 => Some(mode)
    case _ => None
  }

  /** The remap is its own inverse. */
  lemma RemapModeInvolution(mode: int)
    requires RemapMode(mode).Some?
    ensures RemapMode(RemapMode(mode).value) == Some(mode)
  {
  }

  /** The complete remap table. */
  lemma RemapModeTable()
    ensures RemapMode(0) == Some(0) && RemapMode(1) == Some(2)
    ensures RemapMode(2) == Some(1) && RemapMode(3) == Some(3)
  {
  }

  /** Return code, SDK calls made and SDK replies left after one configuration. */
  datatype ConfigOutcome = ConfigOutcome(ret: int, events: seq<Event>, rest: seq<int>)

  /** The MXC_SPI_Init call configuration starts with. */
  function InitCall(v: SpiView): Event
  {
    SdkInit(v.dev, PinsFor(v.cs, v.eparam.vssel), MasterMode, SingleMode,
            v.eparam.numSlaves, v.eparam.polarity, v.speed)
  }

  /**
   * One run of _max_spi_config against the SDK replies `rs`. Each SDK
   * call takes the next reply; a non-zero reply becomes -EINVAL and shuts
   * the peripheral down, an unknown mode returns -EINVAL at once.
   */
  function ConfigRun(v: SpiView, rs: seq<int>): (c: ConfigOutcome)
    ensures c.ret == 0 || c.ret == -EInval
    ensures c.ret == 0 <==> RemapMode(v.mode).Some? && forall k :: 0 <= k < 4 ==> Reply(rs, k) == ENoError
    ensures |c.events| >= 1 && c.events[0] == InitCall(v)
    ensures forall e :: e in c.events[1..] ==>
      e.SdkSetMode? || e.SdkSetWidthStandard? || e.SdkSetDataSize? || e.SdkShutdown?
    ensures exists k :: 1 <= k <= 4 && c.rest == Drop(rs, k)
  {
    var dev := v.dev;
    if Reply(rs, 0) != ENoError then
      ConfigOutcome(-EInval, [InitCall(v), SdkShutdown(dev)], Drop(rs, 1))
    else if RemapMode(v.mode).None? then
      ConfigOutcome(-EInval, [InitCall(v)], Drop(rs, 1))
    else
      var mode := RemapMode(v.mode).value;
      var e1 := [InitCall(v), SdkSetMode(dev, mode)];
      if Reply(rs, 1) != ENoError then
        ConfigOutcome(-EInval, e1 + [SdkShutdown(dev)], Drop(rs, 2))
      else
        var e2 := e1 + [SdkSetWidthStandard(dev)];
        if Reply(rs, 2) != ENoError then
          ConfigOutcome(-EInval, e2 + [SdkShutdown(dev)], Drop(rs, 3))
        else
          var e3 := e2 + [SdkSetDataSize(dev, DataSizeBits)];
          if Reply(rs, 3) != ENoError then
            ConfigOutcome(-EInval, e3 + [SdkShutdown(dev)], Drop(rs, 4))
          else
            ConfigOutcome(0, e3, Drop(rs, 4))
  }

  /**
   * A successful configuration initialises the peripheral as a master on
   * the selected pins, sets the remapped mode, standard width and 8-bit
   * words, and never shuts the peripheral down.
   */
  lemma ConfigSuccessCalls(v: SpiView, rs: seq<int>)
    requires ConfigRun(v, rs).ret == 0
    ensures ConfigRun(v, rs).events ==
      [InitCall(v), SdkSetMode(v.dev, RemapMode(v.mode).value),
       SdkSetWidthStandard(v.dev), SdkSetDataSize(v.dev, DataSizeBits)]
    ensures ConfigRun(v, rs).rest == Drop(rs, 4)
  {
  }

  /**
   * A configuration fails with a shutdown as its last call exactly when an
   * SDK call failed; an unknown mode fails with MXC_SPI_Init as the only
   * call, so neither the mode is set nor the peripheral shut down.
   */
  lemma ConfigShutdown(v: SpiView, rs: seq<int>)
    ensures var c := ConfigRun(v, rs);
      (SdkShutdown(v.dev) in c.events <==>
         c.ret != 0 && !(Reply(rs, 0) == ENoError && RemapMode(v.mode).None?))
      && (SdkShutdown(v.dev) in c.events ==> c.events[|c.events| - 1] == SdkShutdown(v.dev))
  {
    var c := ConfigRun(v, rs);
    if c.ret == 0 {
      ConfigSuccessCalls(v, rs);
    } else if Reply(rs, 0) == ENoError && RemapMode(v.mode).None? {
      assert c.events == [InitCall(v)];
    }
  }

  /** An unknown mode is refused right after MXC_SPI_Init, with no further hardware call. */
  lemma ConfigUnknownMode(v: SpiView, rs: seq<int>)
    requires Reply(rs, 0) == ENoError && !(0 <= v.mode <= 3)
    ensures ConfigRun(v, rs) == ConfigOutcome(-EInval, [InitCall(v)], Drop(rs, 1))
  {
  }

  /**
   * Configuring twice with no parameter change applies the same hardware
   * settings: two successful runs make identical calls.
   */
  lemma ConfigIdempotent(v: SpiView, rs1: seq<int>, rs2: seq<int>)
    requires ConfigRun(v, rs1).ret == 0 && ConfigRun(v, rs2).ret == 0
    ensures ConfigRun(v, rs1).events == ConfigRun(v, rs2).events
  {
    ConfigSuccessCalls(v, rs1);
    ConfigSuccessCalls(v, rs2);
  }
}
