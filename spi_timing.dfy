/*
 * Chip-select delay programming of maxim_spi.c (_max_delay_config): the
 * conversion of microsecond delays to SCLK ticks, and the effect of one
 * call on the SSTIME register and on the cached delays, as a function.
 */
module SpiTiming {
  import opened SpiDefs

  /**
   * NO_OS_DIV_ROUND_CLOSEST(NANO, clk): the SCLK period in nanoseconds,
   * rounded to the nearest integer.
   */
  function TicksNs(clk: nat): nat
    requires clk > 0
  {
    (Nano + clk / 2) / clk
  }

  /** The tick period is within half a nanosecond-step of NANO / clk. */
  lemma TicksNsNearest(clk: nat)
    requires clk > 0
    ensures var t := TicksNs(clk); 2 * (Nano - t * clk) <= clk && 2 * (t * clk - Nano) <= clk
  {
    var a := Nano + clk / 2;
    var q := a / clk;
    assert a == q * clk + a % clk && 0 <= a % clk < clk;
  }

  /** A peripheral clock for which the tick period does not round to zero. */
  predicate ValidClock(clk: nat)
  {
    clk > 0 && TicksNs(clk) > 0
  }

  /** The tick period is non-zero exactly for clocks up to 2 GHz. */
  lemma ValidClockRange(clk: nat)
    ensures ValidClock(clk) <==> 0 < clk <= 2 * Nano
  {
    if 0 < clk {
      var a := Nano + clk / 2;
      assert TicksNs(clk) == a / clk;
      if clk <= 2 * Nano {
        QuotientPositive(a, clk);
      } else {
        QuotientZero(a, clk);
      }
    }
  }

  lemma QuotientPositive(a: nat, c: nat)
    requires 0 < c <= a
    ensures a / c >= 1
  {
    assert a == a / c * c + a % c && a % c < c;
  }

  lemma QuotientZero(a: nat, c: nat)
    requires a < c
    ensures a / c == 0
  {
  }

  /** `delay * NS_PER_US` in `uint32_t` arithmetic: the product reduced modulo 2^32. */
  function DelayNs(delay: U32): (r: U32)
    ensures r <= delay * NsPerUs && (delay * NsPerUs - r) % U32Modulus == 0
    ensures delay * NsPerUs < U32Modulus ==> r == delay * NsPerUs
  {
    (delay * NsPerUs) % U32Modulus
  }

  /**
   * `delay * NS_PER_US / ticks_ns` in `uint32_t` arithmetic: the number of
   * whole ticks that fit in the (wrapped) delay in nanoseconds.
   */
  function TickCount(delay: U32, tns: nat): nat
    requires tns > 0
  {
    DelayNs(delay) / tns
  }

  /** The tick count is the floor of the wrapped delay over the tick period. */
  lemma TickCountFloor(delay: U32, tns: nat)
    requires tns > 0
    ensures var t := TickCount(delay, tns); t * tns <= DelayNs(delay) < (t + 1) * tns
    ensures delay * NsPerUs < U32Modulus ==>
      var t := TickCount(delay, tns); t * tns <= delay * NsPerUs < (t + 1) * tns
  {
    var n := DelayNs(delay);
    assert n == n / tns * tns + n % tns && 0 <= n % tns < tns;
  }

  /** Ticks the PRE field is to get: a zero delay is forced to one tick. */
  function PreTicks(m: Msg, tns: nat): nat
    requires tns > 0
  {
    if m.csDelayFirst == 0 then 1 else TickCount(m.csDelayFirst, tns)
  }

  /**
   * Ticks the POST field is to get. As written, the zero test looks at the
   * FIRST delay, not at the last one.
   */
  function PostTicks(m: Msg, tns: nat): nat
    requires tns > 0
  {
    if m.csDelayFirst == 0 then 1 else TickCount(m.csDelayLast, tns)
  }

  /** The chip-select delays last applied (struct max_spi_state). */
  datatype Delays = Delays(first: U32, last: U32)

  /** New cache, new SSTIME value and the warnings logged by one call. */
  datatype DelayOutcome = DelayOutcome(cache: Delays, reg: SsTime, events: seq<Event>)

  /** Whether a requested delay that differs from the cache converts to more than 255 ticks. */
  predicate Overflows(cache: Delays, m: Msg, clk: nat)
    requires ValidClock(clk)
  {
    (m.csDelayFirst != cache.first && PreTicks(m, TicksNs(clk)) > MaxDelaySclk) ||
    (m.csDelayLast != cache.last && PostTicks(m, TicksNs(clk)) > MaxDelaySclk)
  }

  /**
   * One call of _max_delay_config: given the cached delays, the SSTIME
   * value on entry, the message and the peripheral clock.
   */
  function DelayConfig(cache: Delays, reg: SsTime, m: Msg, clk: nat): DelayOutcome
    requires ValidClock(clk)
  {
    if m.csDelayFirst == cache.first && m.csDelayLast == cache.last then
      DelayOutcome(cache, reg, [])
    else
      var tns := TicksNs(clk);
      var pre := PreTicks(m, tns);
      var post := PostTicks(m, tns);
      if m.csDelayFirst != cache.first && pre > MaxDelaySclk then
        DelayOutcome(cache, reg, [DelayWarning(PreField)])
      else
        var reg1 := if m.csDelayFirst != cache.first then reg.(pre := pre) else reg;
        if m.csDelayLast != cache.last && post > MaxDelaySclk then
          DelayOutcome(cache, reg, [DelayWarning(PostField)])
        else
          var reg2 := if m.csDelayLast != cache.last then reg1.(post := post) else reg1;
          DelayOutcome(Delays(m.csDelayFirst, m.csDelayLast), reg2, [])
  }

  /** Requested delays equal to the cached ones touch neither SSTIME nor the cache. */
  lemma DelayNoOpWhenCached(cache: Delays, reg: SsTime, m: Msg, clk: nat)
    requires ValidClock(clk)
    requires m.csDelayFirst == cache.first && m.csDelayLast == cache.last
    ensures DelayConfig(cache, reg, m, clk) == DelayOutcome(cache, reg, [])
  {
  }

  /**
   * A tick count above MAX_DELAY_SCLK leaves SSTIME equal to its value on
   * entry (even when PRE was already rewritten), keeps the cache and logs
   * exactly one warning.
   */
  lemma DelayRollback(cache: Delays, reg: SsTime, m: Msg, clk: nat)
    requires ValidClock(clk)
    requires Overflows(cache, m, clk)
    ensures var o := DelayConfig(cache, reg, m, clk);
      o.reg == reg && o.cache == cache && |o.events| == 1 && o.events[0].DelayWarning?
  {
  }

  /**
   * Without overflow, only the fields whose delay changed are rewritten,
   * with the converted tick counts, the other bits are kept, and the cache
   * then holds the message's two delays.
   */
  lemma DelaySuccess(cache: Delays, reg: SsTime, m: Msg, clk: nat)
    requires ValidClock(clk)
    requires !Overflows(cache, m, clk)
    ensures var o := DelayConfig(cache, reg, m, clk); var tns := TicksNs(clk);
      && o.cache == Delays(m.csDelayFirst, m.csDelayLast)
      && o.reg.other == reg.other
      && o.reg.pre == (if m.csDelayFirst != cache.first then PreTicks(m, tns) else reg.pre)
      && o.reg.post == (if m.csDelayLast != cache.last then PostTicks(m, tns) else reg.post)
      && o.events == []
  {
  }

  /** The cache is only ever set to the message's delays, and only when nothing overflows. */
  lemma DelayCacheTracksApplied(cache: Delays, reg: SsTime, m: Msg, clk: nat)
    requires ValidClock(clk)
    ensures var o := DelayConfig(cache, reg, m, clk);
      (o.cache == Delays(m.csDelayFirst, m.csDelayLast) <==>
         !Overflows(cache, m, clk) || (m.csDelayFirst == cache.first && m.csDelayLast == cache.last))
      && (o.cache == cache || o.cache == Delays(m.csDelayFirst, m.csDelayLast))
      && o.reg.other == reg.other
  {
  }

  /**
   * With a 1 MHz peripheral clock (1000 ns per tick) a zero first delay
   * gives PRE one tick, and since the POST test looks at the first delay,
   * POST also gets one tick although 100 us were asked for.
   */
  lemma PostFollowsFirstWhenZero()
    ensures var m := Msg(Null, Null, 0, 0, 0, 0, 100);
      TicksNs(1_000_000) == 1000 &&
      DelayConfig(Delays(7, 7), SsTime(9, 9, 0), m, 1_000_000).reg == SsTime(1, 1, 0)
  {
    var m := Msg(Null, Null, 0, 0, 0, 0, 100);
    assert TicksNs(1_000_000) == 1000;
    assert PreTicks(m, 1000) == 1 && PostTicks(m, 1000) == 1;
  }

  /**
   * A zero last delay with a non-zero first delay is converted to 0 ticks,
   * and 0 (the 256-tick encoding) is written to POST.
   */
  lemma PostZeroWrittenWhenFirstNonZero()
    ensures var m := Msg(Null, Null, 0, 0, 0, 5, 0);
      DelayConfig(Delays(7, 7), SsTime(9, 9, 0), m, 1_000_000).reg == SsTime(5, 0, 0)
  {
    var m := Msg(Null, Null, 0, 0, 0, 5, 0);
    assert TicksNs(1_000_000) == 1000;
    assert TickCount(5, 1000) == 5 && TickCount(0, 1000) == 0;
  }

  /**
   * A non-zero delay shorter than one tick converts to 0 ticks, and 0 is
   * written: at 1 kHz (10^6 ns per tick) a 1 us first delay gives PRE == 0.
   */
  lemma ShortDelayWritesZero()
    ensures var m := Msg(Null, Null, 0, 0, 0, 1, 0);
      DelayConfig(Delays(0, 0), SsTime(9, 9, 0), m, 1000).reg == SsTime(0, 9, 0)
  {
    var m := Msg(Null, Null, 0, 0, 0, 1, 0);
    assert TicksNs(1000) == 1_000_000;
    assert TickCount(1, 1_000_000) == 0;
  }

  /**
   * The product `delay * NS_PER_US` wraps in 32 bits: a first delay of
   * 4295000 us (far beyond 255 ticks) is taken as 32704 ns, so at 1 MHz
   * PRE gets 32 ticks instead of the request being refused.
   */
  lemma LongDelayWraps()
    ensures var m := Msg(Null, Null, 0, 0, 0, 4295000, 0);
      DelayConfig(Delays(0, 0), SsTime(9, 9, 0), m, 1_000_000).reg == SsTime(32, 9, 0)
  {
    var m := Msg(Null, Null, 0, 0, 0, 4295000, 0);
    assert TicksNs(1_000_000) == 1000;
    assert DelayNs(4295000) == 32704;
    assert TickCount(4295000, 1000) == 32;
  }
  /** POST is rewritten only when the last delay differs from the cached one. */
  lemma PostKeptWhileLastUnchanged(cache: Delays, reg: SsTime, m: Msg, clk: nat)
    requires ValidClock(clk) && m.csDelayLast == cache.last
    ensures DelayConfig(cache, reg, m, clk).reg.post == reg.post
  {
  }

  /**
   * The POST zero test outlives the message that triggered it. At 1 MHz,
   * from a zero cache, the delays (5, 10), (0, 10), (0, 20), (5, 20) leave
   * the cache at (5, 20) but POST at one tick: (0, 20) set POST from the
   * zero first delay, and (5, 20) changes only the first delay, so POST is
   * not rewritten.
   */
  lemma PostQuirkPersists()
    ensures var clk := 1_000_000;
      var o1 := DelayConfig(Delays(0, 0), SsTime(0, 0, 0), Msg(Null, Null, 0, 0, 0, 5, 10), clk);
      var o2 := DelayConfig(o1.cache, o1.reg, Msg(Null, Null, 0, 0, 0, 0, 10), clk);
      var o3 := DelayConfig(o2.cache, o2.reg, Msg(Null, Null, 0, 0, 0, 0, 20), clk);
      var o4 := DelayConfig(o3.cache, o3.reg, Msg(Null, Null, 0, 0, 0, 5, 20), clk);
      o4.cache == Delays(5, 20) && o4.reg == SsTime(5, 1, 0)
  {
    assert TicksNs(1_000_000) == 1000;
    assert TickCount(5, 1000) == 5 && TickCount(10, 1000) == 10;
  }
}
