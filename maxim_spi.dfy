/*
 * The MAX78000 SPI platform binding (maxim_spi.c) as imperative code over
 * the state it changes: the SSTIME registers, the per-descriptor delay
 * cache, the process-wide chip-select cache, the SDK call trace and the
 * allocations. Each operation is proved against the functions of
 * SpiTiming, SpiConfig, SpiInit and SpiTransfer.
 */
module MaxSpi {
  import opened SpiDefs
  import opened SpiTiming
  import opened SpiConfig
  import opened SpiInit
  import opened SpiTransfer

  /**
   * The vendor SDK and the SPI hardware as the binding sees them, and the
   * binding's static `last_slave_id` array.
   */
  class Platform {
    /** MXC_SPI_GetPeripheralClock of each instance, in Hz. */
    const clockRate: seq<nat>
    /** The SSTIME register of each instance. */
    const sstime: array<SsTime>
    /** last_slave_id[]: the chip-select last configured on each instance. */
    const lastSlaveId: array<U32>
    /** Return codes the SDK gives to its next calls, in order. */
    var replies: seq<int>
    /** Outcomes of the allocator's next calls, in order (false: NULL). */
    var allocs: seq<bool>
    /** The SDK calls, warnings and busy-waits made so far. */
    var trace: seq<Event>
    /** Objects allocated and not yet freed. */
    ghost var live: set<object>

    ghost predicate Valid()
      reads this
    {
      |clockRate| == SpiInstances && sstime.Length == SpiInstances && lastSlaveId.Length == SpiInstances
    }

    /** A board at reset: `last_slave_id` is zero-initialised like any static. */
    constructor (clockRate: seq<nat>, regs: seq<SsTime>, replies: seq<int>, allocs: seq<bool>)
      requires |clockRate| == SpiInstances && |regs| == SpiInstances
      ensures Valid() && fresh(sstime) && fresh(lastSlaveId)
      ensures this.clockRate == clockRate && sstime[..] == regs
      ensures forall i :: 0 <= i < SpiInstances ==> lastSlaveId[i] == 0
      ensures this.replies == replies && this.allocs == allocs && trace == [] && live == {}
    {
      this.clockRate := clockRate;
      sstime := new SsTime[SpiInstances](i requires 0 <= i < |regs| => regs[i]);
      lastSlaveId := new U32[SpiInstances](_ => 0);
      this.replies := replies;
      this.allocs := allocs;
      trace := [];
      live := {};
    }

    /** An SDK call whose return code the binding looks at: it takes the next reply. */
    method Call(e: Event) returns (code: int)
      modifies this
      ensures code == Reply(old(replies), 0) && replies == Drop(old(replies), 1)
      ensures trace == old(trace) + [e]
      ensures allocs == old(allocs) && live == old(live)
    {
      code := Reply(replies, 0);
      replies := Drop(replies, 1);
      trace := trace + [e];
    }

    /** A call whose result the binding ignores: shutdown, a warning, a busy-wait. */
    method Record(e: Event)
      modifies this
      ensures trace == old(trace) + [e]
      ensures replies == old(replies) && allocs == old(allocs) && live == old(live)
    {
      trace := trace + [e];
    }

    /** Whether the next no_os_calloc returns memory. */
    method Alloc() returns (ok: bool)
      modifies this
      ensures ok == AllocOk(old(allocs), 0) && allocs == Drop(old(allocs), 1)
      ensures replies == old(replies) && trace == old(trace) && live == old(live)
    {
      ok := AllocOk(allocs, 0);
      allocs := Drop(allocs, 1);
    }

    ghost method Track(o: object)
      modifies this
      ensures live == old(live) + {o}
      ensures replies == old(replies) && allocs == old(allocs) && trace == old(trace)
    {
      live := live + {o};
    }

    /** no_os_free: releasing NULL does nothing. */
    ghost method Free(o: object?)
      modifies this
      ensures o != null ==> live == old(live) - {o}
      ensures o == null ==> live == old(live)
      ensures replies == old(replies) && allocs == old(allocs) && trace == old(trace)
    {
      if o != null {
        live := live - {o};
      }
    }
  }

  /** struct max_spi_state. */
  class SpiState {
    var csDelayFirst: U32
    var csDelayLast: U32
    var initParam: MaxInitParam

    /** As returned by no_os_calloc: all zero. */
    constructor ()
      ensures csDelayFirst == 0 && csDelayLast == 0 && initParam == MaxInitParam(0, 0, 0)
    {
      csDelayFirst, csDelayLast := 0, 0;
      initParam := MaxInitParam(0, 0, 0);
    }
  }

  /** struct no_os_spi_desc. */
  class SpiDesc {
    var deviceId: U32
    var maxSpeedHz: U32
    var chipSelect: U8
    var mode: int
    var bitOrder: int
    var extra: SpiState?

    /** As returned by no_os_calloc: all zero. */
    constructor ()
      ensures deviceId == 0 && maxSpeedHz == 0 && chipSelect == 0 && mode == 0 && bitOrder == 0
      ensures extra == null
    {
      deviceId, maxSpeedHz, chipSelect, mode, bitOrder := 0, 0, 0, 0, 0;
      extra := null;
    }

    /** The values configuration and transfer read. */
    function View(): SpiView
      reads this, extra
      requires extra != null
    {
      SpiView(deviceId, maxSpeedHz, chipSelect, mode, extra.initParam)
    }
  }

  /** The caller's `struct no_os_spi_desc *` that max_spi_init writes through. */
  class DescSlot {
    var desc: SpiDesc?

    constructor ()
      ensures desc == null
    {
      desc := null;
    }
  }

  /**
   * _max_delay_config: programs the SSTIME PRE/POST fields of the
   * descriptor's instance for the message's delays, restoring the register
   * on a value too large, and updates the cached delays on success.
   */
  method DelayConfigure(p: Platform, desc: SpiDesc, m: Msg)
    requires p.Valid() && desc.extra != null && desc.deviceId < SpiInstances
    requires ValidClock(p.clockRate[desc.deviceId])
    modifies p, p.sstime, desc.extra
    ensures p.Valid()
    ensures var st := desc.extra; var dev := desc.deviceId;
      var o := DelayConfig(Delays(old(st.csDelayFirst), old(st.csDelayLast)), old(p.sstime[dev]), m, p.clockRate[dev]);
      && p.sstime[..] == old(p.sstime[..])[dev := o.reg]
      && Delays(st.csDelayFirst, st.csDelayLast) == o.cache
      && st.initParam == old(st.initParam)
      && p.trace == old(p.trace) + o.events
    ensures p.replies == old(p.replies) && p.allocs == old(p.allocs) && p.live == old(p.live)
  {
    var st := desc.extra;
    if m.csDelayFirst == st.csDelayFirst && m.csDelayLast == st.csDelayLast {
      return;
    }
    var dev := desc.deviceId;
    var sstimeCache := p.sstime[dev];
    var clkRate := p.clockRate[dev];
    var ticksNs := TicksNs(clkRate);

    if m.csDelayFirst != st.csDelayFirst {
      var ticks := PreTicks(m, ticksNs);
      if ticks > MaxDelaySclk {
        p.Record(DelayWarning(PreField));
        p.sstime[dev] := sstimeCache;
        return;
      }
      p.sstime[dev] := p.sstime[dev].(pre := ticks);
    }
    if m.csDelayLast != st.csDelayLast {
      var ticks := PostTicks(m, ticksNs);
      if ticks > MaxDelaySclk {
        p.Record(DelayWarning(PostField));
        p.sstime[dev] := sstimeCache;
        return;
      }
      p.sstime[dev] := p.sstime[dev].(post := ticks);
    }

    st.csDelayFirst := m.csDelayFirst;
    st.csDelayLast := m.csDelayLast;
  }

  /**
   * _max_spi_config: initialises the instance as a master on the pins of
   * the descriptor's chip-select, sets the remapped mode, standard width
   * and 8-bit words; SDK failures become -EINVAL after a shutdown.
   */
  method SpiConfigure(p: Platform, desc: SpiDesc) returns (ret: int)
    requires desc.extra != null
    modifies p
    ensures p.Valid() <==> old(p.Valid())
    ensures var c := ConfigRun(desc.View(), old(p.replies));
      ret == c.ret && p.trace == old(p.trace) + c.events && p.replies == c.rest
    ensures p.allocs == old(p.allocs) && p.live == old(p.live)
  {
    var st := desc.extra;
    var eparam := st.initParam;
    var dev := desc.deviceId;
    var pins := PinsFor(desc.chipSelect, eparam.vssel);

    ret := p.Call(SdkInit(dev, pins, MasterMode, SingleMode, eparam.numSlaves, eparam.polarity, desc.maxSpeedHz));
    if ret != 0 {
      ret := -EInval;
      p.Record(SdkShutdown(dev));
      return;
    }

    var mode := RemapMode(desc.mode);
    if mode.None? {
      return -EInval;
    }

    ret := p.Call(SdkSetMode(dev, mode.value));
    if ret != 0 {
      ret := -EInval;
      p.Record(SdkShutdown(dev));
      return;
    }

    ret := p.Call(SdkSetWidthStandard(dev));
    if ret != 0 {
      ret := -EInval;
      p.Record(SdkShutdown(dev));
      return;
    }

    ret := p.Call(SdkSetDataSize(dev, DataSizeBits));
    if ret != 0 {
      ret := -EInval;
      p.Record(SdkShutdown(dev));
      return;
    }

    ret := 0;
  }

  /**
   * max_spi_init: on success a fresh descriptor and state, filled from the
   * parameters and configured, are written to `slot`; on any failure `slot`
   * is untouched and everything allocated has been freed.
   */
  method Init(p: Platform, slot: DescSlot, param: Option<InitParam>) returns (ret: int)
    requires p.Valid()
    modifies p, slot
    ensures p.Valid()
    ensures var o := InitSpec(param, old(p.allocs), old(p.replies));
      && ret == o.ret
      && p.trace == old(p.trace) + o.events
      && p.allocs == o.allocsLeft && p.replies == o.repliesLeft
    ensures p.lastSlaveId[..] == old(p.lastSlaveId[..])
    ensures ret != 0 ==> slot.desc == old(slot.desc) && p.live == old(p.live)
    ensures ret == 0 ==>
      var d := slot.desc;
      && d != null && fresh(d) && d.extra != null && fresh(d.extra)
      && d.View() == ViewOf(param.value) && d.bitOrder == param.value.bitOrder
      && d.extra.csDelayFirst == 0 && d.extra.csDelayLast == 0
      && p.live == old(p.live) + {d as object, d.extra as object}
  {
    if !ParamsPresent(param) {
      return -EInval;
    }
    var ip := param.value;
    var descriptor := AllocDescriptor(p, ip);
    if descriptor == null {
      return -ENoMem;
    }
    var st := descriptor.extra;

    if descriptor.deviceId >= SpiInstances {
      ret := -EInval;
      p.Free(st);
      p.Free(descriptor);
      return;
    }

    ret := ConfigureOrRelease(p, descriptor);
    if ret != 0 {
      return;
    }

    slot.desc := descriptor;
    ret := 0;
  }

  /**
   * The two allocations of max_spi_init and the copy of the parameters into
   * the new descriptor and state. NULL when either allocation fails, with
   * whatever was allocated freed again (label `err`).
   */
  method AllocDescriptor(p: Platform, ip: InitParam) returns (descriptor: SpiDesc?)
    requires p.Valid() && ip.extra.Some?
    modifies p
    ensures p.Valid()
    ensures p.trace == old(p.trace) && p.replies == old(p.replies)
    ensures descriptor == null <==> !(AllocOk(old(p.allocs), 0) && AllocOk(old(p.allocs), 1))
    ensures p.allocs == if AllocOk(old(p.allocs), 0) then Drop(old(p.allocs), 2) else Drop(old(p.allocs), 1)
    ensures descriptor == null ==> p.live == old(p.live)
    ensures descriptor != null ==>
      && fresh(descriptor) && descriptor.extra != null && fresh(descriptor.extra)
      && descriptor.View() == ViewOf(ip) && descriptor.bitOrder == ip.bitOrder
      && descriptor.extra.csDelayFirst == 0 && descriptor.extra.csDelayLast == 0
      && p.live == old(p.live) + {descriptor as object, descriptor.extra as object}
  {
    DropDrop(p.allocs, 1, 1);
    var ok := p.Alloc();
    if !ok {
      return null;
    }
    var d := new SpiDesc();
    p.Track(d);

    ok := p.Alloc();
    var st: SpiState? := null;
    if ok {
      st := new SpiState();
      p.Track(st);
    }
    if st == null {
      p.Free(st);
      p.Free(d);
      return null;
    }

    d.deviceId := ip.deviceId;
    d.maxSpeedHz := ip.maxSpeedHz;
    d.chipSelect := ip.chipSelect;
    d.mode := ip.mode;
    d.bitOrder := ip.bitOrder;
    st.initParam := ip.extra.value;
    d.extra := st;
    assert d.View() == ViewOf(ip);
    descriptor := d;
  }

  /**
   * The tail of max_spi_init: configure the new descriptor; on failure shut
   * the instance down (label `err_init`) and free the state and the
   * descriptor (label `err`).
   */
  method ConfigureOrRelease(p: Platform, descriptor: SpiDesc) returns (ret: int)
    requires p.Valid() && descriptor.extra != null
    modifies p
    ensures p.Valid()
    ensures var c := ConfigRun(descriptor.View(), old(p.replies));
      && ret == c.ret
      && p.trace == old(p.trace) + c.events + (if ret != 0 then [SdkShutdown(descriptor.deviceId)] else [])
      && p.replies == c.rest
    ensures p.allocs == old(p.allocs)
    ensures ret == 0 ==> p.live == old(p.live)
    ensures ret != 0 ==> p.live == old(p.live) - {descriptor.extra as object} - {descriptor as object}
  {
    ret := SpiConfigure(p, descriptor);
    if ret != 0 {
      p.Record(SdkShutdown(descriptor.deviceId));
      p.Free(descriptor.extra);
      p.Free(descriptor);
    }
  }

  /**
   * max_spi_remove: -EINVAL for a NULL descriptor, with no hardware
   * access; otherwise shuts the instance down and frees the state and the
   * descriptor.
   */
  method Remove(p: Platform, desc: SpiDesc?) returns (ret: int)
    modifies p
    ensures p.Valid() <==> old(p.Valid())
    ensures desc == null ==> ret == -EInval && p.trace == old(p.trace) && p.live == old(p.live)
    ensures desc != null ==>
      && ret == 0
      && p.trace == old(p.trace) + [SdkShutdown(desc.deviceId)]
      && p.live == old(p.live) - {desc as object} - (if desc.extra == null then {} else {desc.extra as object})
    ensures p.replies == old(p.replies) && p.allocs == old(p.allocs)
  {
    if desc == null {
      return -EInval;
    }
    p.Record(SdkShutdown(desc.deviceId));
    p.Free(desc.extra);
    p.Free(desc);
    ret := 0;
  }

  /** The part of the state a transfer on instance `dev` with state `st` works on. */
  ghost function Snapshot(p: Platform, st: SpiState, dev: nat): XState
    requires p.Valid() && dev < SpiInstances
    reads p, p.sstime, st
  {
    XState(Delays(st.csDelayFirst, st.csDelayLast), p.sstime[dev], p.replies, p.trace)
  }

  /**
   * The effect of a transfer of `ms` on a descriptor whose state is `st`:
   * return code, chip-select cache, SSTIME, delay cache, SDK replies and
   * trace are those TransferSpec gives for the state on entry; nothing
   * else changes.
   */
  twostate predicate TransferDone(p: Platform, desc: SpiDesc, st: SpiState, ms: seq<Msg>, ret: int)
    requires p.Valid() && desc.extra == st && desc.deviceId < SpiInstances
    requires ValidClock(p.clockRate[desc.deviceId])
    reads p, p.sstime, p.lastSlaveId, desc, st
  {
    var dev := desc.deviceId;
    var o := TransferSpec(desc.View(), p.clockRate[dev], old(p.lastSlaveId[dev]), ms, old(Snapshot(p, st, dev)));
    && ret == o.ret
    && p.lastSlaveId[..] == old(p.lastSlaveId[..])[dev := o.last]
    && p.sstime[..] == old(p.sstime[..])[dev := o.state.reg]
    && Snapshot(p, st, dev) == o.state
    && st.initParam == old(st.initParam)
    && p.allocs == old(p.allocs) && p.live == old(p.live)
  }

  /**
   * One pass of the transfer loop up to the transaction: program the
   * message's delays, then issue the request built for it.
   */
  method Send(p: Platform, desc: SpiDesc, m: Msg, req: Req) returns (code: int)
    requires p.Valid() && desc.extra != null && desc.deviceId < SpiInstances
    requires ValidClock(p.clockRate[desc.deviceId])
    requires req == RequestFor(desc.deviceId, desc.chipSelect, m)
    modifies p, p.sstime, desc.extra
    ensures p.Valid()
    ensures var dev := desc.deviceId;
      && code == Reply(old(p.replies), 0)
      && Snapshot(p, desc.extra, dev) ==
           Step(dev, desc.chipSelect, p.clockRate[dev], m, old(Snapshot(p, desc.extra, dev)))
      && p.sstime[..] == old(p.sstime[..])[dev := p.sstime[dev]]
    ensures desc.extra.initParam == old(desc.extra.initParam)
    ensures p.allocs == old(p.allocs) && p.live == old(p.live)
  {
    DelayConfigure(p, desc, m);
    code := p.Call(SdkTransaction(req));
  }

  /**
   * One iteration of the loop of max_spi_transfer: send the message, and
   * when the SDK does not end the batch, wait its post-transfer delay.
   */
  method SendMessage(p: Platform, desc: SpiDesc, m: Msg, req: Req) returns (code: int)
    requires p.Valid() && desc.extra != null && desc.deviceId < SpiInstances
    requires ValidClock(p.clockRate[desc.deviceId])
    requires req == RequestFor(desc.deviceId, desc.chipSelect, m)
    modifies p, p.sstime, desc.extra
    ensures p.Valid()
    ensures var dev := desc.deviceId; var clk := p.clockRate[dev];
      var s0 := old(Snapshot(p, desc.extra, dev));
      && code == Reply(s0.replies, 0)
      && Snapshot(p, desc.extra, dev) ==
           (if Aborts(code) then Step(dev, desc.chipSelect, clk, m, s0)
            else Continue(dev, desc.chipSelect, clk, m, s0))
      && p.sstime[..] == old(p.sstime[..])[dev := p.sstime[dev]]
    ensures desc.extra.initParam == old(desc.extra.initParam)
    ensures p.allocs == old(p.allocs) && p.live == old(p.live)
  {
    code := Send(p, desc, m, req);
    if !Aborts(code) {
      p.Record(Udelay(m.csChangeDelay));
    }
  }

  /**
   * The loop of max_spi_transfer: send the first `len` messages in order,
   * stopping at the first E_BAD_PARAM or E_BAD_STATE, as RunMessages says.
   */
  method SendAll(p: Platform, desc: SpiDesc, msgs: array<Msg>, len: U32) returns (ret: int)
    requires p.Valid() && desc.extra != null && desc.deviceId < SpiInstances
    requires ValidClock(p.clockRate[desc.deviceId])
    requires len <= msgs.Length
    modifies p, p.sstime, desc.extra
    ensures p.Valid()
    ensures var dev := desc.deviceId;
      var run := RunMessages(dev, desc.chipSelect, p.clockRate[dev], msgs[..len], old(Snapshot(p, desc.extra, dev)));
      && ret == run.ret
      && Snapshot(p, desc.extra, dev) == run.state
      && p.sstime[..] == old(p.sstime[..])[dev := p.sstime[dev]]
    ensures desc.extra.initParam == old(desc.extra.initParam)
    ensures p.allocs == old(p.allocs) && p.live == old(p.live)
  {
    var st := desc.extra;
    var dev := desc.deviceId;
    ghost var clk := p.clockRate[dev];
    ghost var run := RunMessages(dev, desc.chipSelect, clk, msgs[..len], Snapshot(p, st, dev));
    assert msgs[0..len] == msgs[..len];

    var req := Req(spi := dev, ssIdx := desc.chipSelect, txData := Null, rxData := Null,
                   txLen := 0, rxLen := 0, txCnt := 0, rxCnt := 0, ssDeassert := 0);
    var i: U32 := 0;
    while i < len
      invariant i <= len
      invariant p.Valid()
      invariant st.initParam == old(st.initParam)
      invariant p.sstime[..] == old(p.sstime[..])[dev := p.sstime[dev]]
      invariant p.allocs == old(p.allocs) && p.live == old(p.live)
      invariant req.spi == dev && req.ssIdx == desc.chipSelect
      invariant run == RunMessages(dev, desc.chipSelect, clk, msgs[i..len], Snapshot(p, st, dev))
    {
      var m := msgs[i];
      req := req.(txData := m.tx, rxData := m.rx, txCnt := 0, rxCnt := 0, ssDeassert := m.csChange);
      req := req.(txLen := if req.txData != Null then m.bytesNumber else 0,
                  rxLen := if req.rxData != Null then m.bytesNumber else 0);
      assert msgs[i..len] == [m] + msgs[i + 1..len];
      ghost var s0 := Snapshot(p, st, dev);

      var code := SendMessage(p, desc, m, req);
      if code == EBadParam {
        RunAbort(dev, desc.chipSelect, clk, msgs[i..len], s0);
        return -EInval;
      }
      if code == EBadState {
        RunAbort(dev, desc.chipSelect, clk, msgs[i..len], s0);
        return -EBusy;
      }

      RunUnfold(dev, desc.chipSelect, clk, msgs[i..len], s0);
      assert msgs[i..len][1..] == msgs[i + 1..len];
      i := i + 1;
    }
    ret := 0;
  }

  /**
   * max_spi_transfer: -EINVAL for a NULL descriptor or message array;
   * otherwise reconfigure on a chip-select change and send the first `len`
   * messages in order, stopping at the first E_BAD_PARAM or E_BAD_STATE.
   */
  method Transfer(p: Platform, desc: SpiDesc?, msgs: array?<Msg>, len: U32) returns (ret: int)
    requires p.Valid()
    requires desc != null ==> desc.extra != null && desc.deviceId < SpiInstances && ValidClock(p.clockRate[desc.deviceId])
    requires msgs != null ==> len <= msgs.Length
    modifies p, p.sstime, p.lastSlaveId, if desc != null then {desc.extra} else {}
    ensures p.Valid()
    ensures desc == null || msgs == null ==>
      && ret == -EInval && unchanged(p) && unchanged(p.sstime) && unchanged(p.lastSlaveId)
      && (desc != null ==> unchanged(desc.extra))
    ensures desc != null && msgs != null ==> TransferDone(p, desc, desc.extra, msgs[..len], ret)
  {
    if desc == null || msgs == null {
      return -EInval;
    }
    var dev := desc.deviceId;

    var slaveId: U32 := desc.chipSelect;
    if slaveId != p.lastSlaveId[dev] {
      ret := SpiConfigure(p, desc);
      if ret != 0 {
        return;
      }
      p.lastSlaveId[dev] := slaveId;
    }
    assert p.lastSlaveId[..] == old(p.lastSlaveId[..])[dev := p.lastSlaveId[dev]];

    ret := SendAll(p, desc, msgs, len);
  }

  /**
   * max_spi_write_and_read: a transfer of one message that sends and
   * receives in place through `data` and deasserts the chip-select.
   */
  method WriteAndRead(p: Platform, desc: SpiDesc?, data: Buf, bytesNumber: U16) returns (ret: int)
    requires p.Valid()
    requires desc != null ==> desc.extra != null && desc.deviceId < SpiInstances && ValidClock(p.clockRate[desc.deviceId])
    modifies p, p.sstime, p.lastSlaveId, if desc != null then {desc.extra} else {}
    ensures p.Valid()
    ensures desc == null ==> ret == -EInval && unchanged(p) && unchanged(p.sstime) && unchanged(p.lastSlaveId)
    ensures desc != null ==> TransferDone(p, desc, desc.extra, [SingleMessage(data, bytesNumber)], ret)
  {
    var xfer := new Msg[1](_ => Msg(tx := data, rx := data, bytesNumber := bytesNumber, csChange := 1,
                                    csChangeDelay := 0, csDelayFirst := 0, csDelayLast := 0));
    assert xfer[..1] == [SingleMessage(data, bytesNumber)];
    ret := Transfer(p, desc, xfer, 1);
  }
  /**
   * A board whose SDK and allocator always succeed, after max_spi_init of
   * descriptor A (instance 0, chip-select 0, mode 0) and then of descriptor
   * B (instance 0, chip-select 2, mode 3). The instance was last
   * initialised with B's pins and mode, but `last_slave_id` still holds its
   * initial 0.
   */
  method InitTwoOnOneInstance() returns (p: Platform, a: SpiDesc)
    ensures fresh(p) && fresh(p.sstime) && fresh(p.lastSlaveId) && fresh(a.extra)
    ensures p.Valid() && p.clockRate[0] == 1_000_000 && p.replies == []
    ensures a.extra != null && a.deviceId == 0 && a.chipSelect == 0
    ensures a.extra.csDelayFirst == 0 && a.extra.csDelayLast == 0
    ensures p.lastSlaveId[0] == 0
    ensures |p.trace| == 8
    ensures p.trace[4].SdkInit? && p.trace[4].dev == 0 && SelectedLines(p.trace[4].pins) == {2}
    ensures p.trace[5] == SdkSetMode(0, 3)
  {
    p := new Platform([1_000_000, 1_000_000], [SsTime(0, 0, 0), SsTime(0, 0, 0)], [], []);
    var eparam := MaxInitParam(numSlaves := 1, polarity := 0, vssel := 0);
    var ipA := InitParam(0, 1_000_000, 0, 0, 0, Some(eparam));
    var ipB := InitParam(0, 1_000_000, 2, 3, 0, Some(eparam));
    InitHealthy(ipA);
    InitHealthy(ipB);

    var slotA := new DescSlot();
    var r := Init(p, slotA, Some(ipA));
    a := slotA.desc;
    var slotB := new DescSlot();
    r := Init(p, slotB, Some(ipB));
  }

  /**
   * After InitTwoOnOneInstance, a transfer of one message on A finds its
   * chip-select already recorded, because max_spi_init does not update
   * `last_slave_id`, and does not reconfigure: A's transaction goes out
   * for chip-select 0 on a peripheral last initialised with B's pins
   * (SS2 only) and B's mode.
   */
  method StaleChipSelectAfterInit(m: Msg) returns (ret: int, lastInit: Event, lastMode: Event, sent: seq<Event>)
    requires m.csDelayFirst == 0 && m.csDelayLast == 0
    ensures ret == 0
    ensures lastInit.SdkInit? && lastInit.dev == 0 && SelectedLines(lastInit.pins) == {2}
    ensures lastMode == SdkSetMode(0, 3)
    ensures sent == [SdkTransaction(RequestFor(0, 0, m)), Udelay(m.csChangeDelay)]
  {
    var p, a := InitTwoOnOneInstance();
    lastInit, lastMode := p.trace[4], p.trace[5];

    var msgs := new Msg[1](_ => m);
    assert msgs[..1] == [m];
    var before := |p.trace|;
    ghost var s0 := Snapshot(p, a.extra, 0);
    ValidClockRange(1_000_000);
    TransferWithoutReconfiguration(a.View(), 1_000_000, m, s0);
    ret := Transfer(p, a, msgs, 1);
    sent := p.trace[before..];
  }
}
