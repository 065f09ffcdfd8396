/*
 * Initialisation of maxim_spi.c (max_spi_init): argument checks, the two
 * allocations, the device-index check and the configuration, as a function
 * of the parameters, the allocator's outcomes and the SDK's replies.
 */
module SpiInit {
  import opened SpiDefs
  import opened SpiConfig

  /** The descriptor values max_spi_init copies out of complete parameters. */
  function ViewOf(ip: InitParam): SpiView
    requires ip.extra.Some?
  {
    SpiView(ip.deviceId, ip.maxSpeedHz, ip.chipSelect, ip.mode, ip.extra.value)
  }

  /** Whether the parameters pass max_spi_init's NULL checks. */
  predicate ParamsPresent(param: Option<InitParam>)
  {
    param.Some? && param.value.extra.Some?
  }

  /** Return code, SDK calls made, and allocator outcomes and SDK replies left. */
  datatype InitOutcome = InitOutcome(ret: int, events: seq<Event>, allocsLeft: seq<bool>, repliesLeft: seq<int>)

  /** One run of max_spi_init. */
  function InitSpec(param: Option<InitParam>, allocs: seq<bool>, rs: seq<int>): InitOutcome
  {
    if !ParamsPresent(param) then InitOutcome(-EInval, [], allocs, rs)
    else if !AllocOk(allocs, 0) then InitOutcome(-ENoMem, [], Drop(allocs, 1), rs)
    else if !AllocOk(allocs, 1) then InitOutcome(-ENoMem, [], Drop(allocs, 2), rs)
    else
      var ip := param.value;
      if ip.deviceId >= SpiInstances then InitOutcome(-EInval, [], Drop(allocs, 2), rs)
      else
        var c := ConfigRun(ViewOf(ip), rs);
        if c.ret != 0 then
          InitOutcome(c.ret, c.events + [SdkShutdown(ip.deviceId)], Drop(allocs, 2), c.rest)
        else
          InitOutcome(0, c.events, Drop(allocs, 2), c.rest)
  }

  /**
   * max_spi_init returns 0, -EINVAL or -ENOMEM: -EINVAL for missing
   * parameters, an instance index out of range or a failed configuration,
   * -ENOMEM when either allocation fails, and 0 only when configuration
   * succeeds.
   */
  lemma InitResult(param: Option<InitParam>, allocs: seq<bool>, rs: seq<int>)
    ensures var o := InitSpec(param, allocs, rs);
      && (o.ret == 0 || o.ret == -EInval || o.ret == -ENoMem)
      && (o.ret == -ENoMem <==> ParamsPresent(param) && !(AllocOk(allocs, 0) && AllocOk(allocs, 1)))
      && (o.ret == 0 <==>
            ParamsPresent(param) && AllocOk(allocs, 0) && AllocOk(allocs, 1) &&
            param.value.deviceId < SpiInstances && ConfigRun(ViewOf(param.value), rs).ret == 0)
  {
  }

  /**
   * A run that fails before configuring touches no hardware; one whose
   * configuration fails ends by shutting the peripheral down.
   */
  lemma InitFailureCleanup(param: Option<InitParam>, allocs: seq<bool>, rs: seq<int>)
    ensures var o := InitSpec(param, allocs, rs);
      && (o.ret != 0 && o.events != [] ==> o.events[|o.events| - 1] == SdkShutdown(param.value.deviceId))
      && (o.events == [] <==> o.ret != 0 && !(ParamsPresent(param) && AllocOk(allocs, 0) &&
                                            AllocOk(allocs, 1) && param.value.deviceId < SpiInstances))
  {
    var o := InitSpec(param, allocs, rs);
    if ParamsPresent(param) && AllocOk(allocs, 0) && AllocOk(allocs, 1) && param.value.deviceId < SpiInstances {
      assert |ConfigRun(ViewOf(param.value), rs).events| >= 1;
    }
  }

  /**
   * When an SDK call fails while max_spi_init configures the peripheral,
   * the instance is shut down twice: once by the configuration itself and
   * once more on the way out of max_spi_init.
   */
  lemma InitShutdownTwice(param: Option<InitParam>, allocs: seq<bool>, rs: seq<int>)
    requires ParamsPresent(param) && AllocOk(allocs, 0) && AllocOk(allocs, 1)
    requires param.value.deviceId < SpiInstances && Reply(rs, 0) != ENoError
    ensures var dev := param.value.deviceId;
      InitSpec(param, allocs, rs).events == [InitCall(ViewOf(param.value)), SdkShutdown(dev), SdkShutdown(dev)]
  {
  }

  /**
   * An unknown SPI mode is refused after MXC_SPI_Init succeeded; the only
   * shutdown is the one max_spi_init adds.
   */
  lemma InitUnknownMode(param: Option<InitParam>, allocs: seq<bool>, rs: seq<int>)
    requires ParamsPresent(param) && AllocOk(allocs, 0) && AllocOk(allocs, 1)
    requires param.value.deviceId < SpiInstances && Reply(rs, 0) == ENoError
    requires RemapMode(param.value.mode).None?
    ensures var o := InitSpec(param, allocs, rs);
      o.ret == -EInval && o.events == [InitCall(ViewOf(param.value)), SdkShutdown(param.value.deviceId)]
  {
    ConfigUnknownMode(ViewOf(param.value), rs);
  }
  /**
   * With the allocator and the SDK always succeeding, a valid descriptor is
   * set up by exactly the four configuration calls, and max_spi_init
   * returns 0.
   */
  lemma InitHealthy(ip: InitParam)
    requires ip.extra.Some? && ip.deviceId < SpiInstances && RemapMode(ip.mode).Some?
    ensures var dev := ip.deviceId;
      InitSpec(Some(ip), [], []) ==
        InitOutcome(0, [InitCall(ViewOf(ip)), SdkSetMode(dev, RemapMode(ip.mode).value),
                        SdkSetWidthStandard(dev), SdkSetDataSize(dev, DataSizeBits)], [], [])
  {
  }
}
