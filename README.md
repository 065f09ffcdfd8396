# MAX78000 SPI platform binding

A Dafny model of `drivers/platform/maxim/max78000/maxim_spi.c`. This file binds the MAX78000 SPI peripheral to the generic no-OS SPI interface (`no_os_spi_desc`, `no_os_spi_msg`). The model covers the six functions of that file:

- `_max_delay_config`: converts a message's chip-select delays (microseconds) into SCLK ticks and programs the PRE and POST fields of the instance's SSTIME register. It rolls the register back when a tick count exceeds 255, and caches the delays last applied in the descriptor's state.
- `_max_spi_config`: selects the pins for the chip-select and initialises the instance as a master. It remaps SPI modes 1 and 2, then sets standard width and 8-bit words. A failed SDK call becomes -EINVAL after a shutdown. An unknown mode is refused with no shutdown.
- `max_spi_init` and `max_spi_remove`: allocate, fill, configure and free the descriptor and its state.
- `max_spi_transfer`: reconfigures the instance when the chip-select differs from the one its static `last_slave_id` array holds for the instance. That array is written only after a successful reconfiguration inside a transfer; `max_spi_init` configures the instance without updating it. It then sends the messages in order. For each message it programs the delays, issues a master transaction, stops on E_BAD_PARAM (-EINVAL) or E_BAD_STATE (-EBUSY), and otherwise waits the message's `cs_change_delay`.
- `max_spi_write_and_read`: a transfer of one in-place message that deasserts the chip-select.

Layout:

- `spi_defs.dfy` (`SpiDefs`): fixed-width integer types, constants, the values the binding passes around (messages, requests, pins, init parameters) and the events it causes.
- `spi_timing.dfy` (`SpiTiming`): delay-to-tick conversion and `DelayConfig`, the effect of one `_max_delay_config` call, as functions with lemmas.
- `spi_config.dfy` (`SpiConfig`): pin selection, the mode remap and `ConfigRun`, one `_max_spi_config` run, with lemmas.
- `spi_init.dfy` (`SpiInit`): `InitSpec`, one `max_spi_init` run, with lemmas.
- `spi_transfer.dfy` (`SpiTransfer`): `RunMessages`, the message loop, and `TransferSpec`, a whole transfer, with inductive lemmas about the requests issued, the waits and the return code.
- `maxim_spi.dfy` (`MaxSpi`): the binding itself, as imperative code over the state it changes. Each method is proved against the specification functions above.
  - `Platform` holds the SSTIME registers (an array), `last_slave_id` (an array), the SDK's reply stream, the allocator's outcome stream, the call trace and the live allocations.
  - `SpiDesc` and `SpiState` are the descriptor and its state.

How the world outside the file is modelled:

- **SDK calls.** Every vendor SDK call is recorded as an event in `Platform.trace`. A call whose return value the binding reads takes the next entry of `Platform.replies`. An exhausted stream answers `E_NO_ERROR`.
- **Allocation.** `no_os_calloc` takes the next entry of `Platform.allocs`, where false means NULL. The ghost set `Platform.live` tracks what is allocated and not yet freed.
- **Warnings and waits.** `pr_warning` and `no_os_udelay` are recorded as `DelayWarning` and `Udelay` events.

Behaviour as written that the model keeps:

- **Tick conversion.** The number of ticks is `delay * NS_PER_US / ticks_ns`, where `ticks_ns` is `NANO / clk` rounded to the nearest integer. The division is a floor against a rounded tick period, so the count is not `max(1, round(delay * clk / 10^9))`: a non-zero delay shorter than one tick gives 0, and 0 is written (`ShortDelayWritesZero`).
- **32-bit wrap.** The product `delay * NS_PER_US` is `uint32_t` arithmetic and wraps modulo 2^32. A very long delay can therefore pass the 255-tick check (`LongDelayWraps`).
- **The POST zero test.** The zero test for the POST field looks at `cs_delay_first`, not at `cs_delay_last` (lines 115-116). A zero first delay forces POST to one tick whatever the last delay is (`PostFollowsFirstWhenZero`). A zero last delay with a non-zero first delay writes 0, which the hardware reads as 256 ticks (`PostZeroWrittenWhenFirstNonZero`). The effect outlives the message: POST is rewritten only when the last delay changes (`PostKeptWhileLastUnchanged`), so after (0, 20) a later (5, 20) leaves POST at one tick while the cache says 20 us (`PostQuirkPersists`).
- **The delay cache.** After a successful call the cache holds both requested delays, not only the fields that changed. The fields that did not change already held the requested value, so the two readings agree.
- **`last_slave_id` and init.** `max_spi_init` configures the instance for the new descriptor but does not record its chip-select. With two descriptors on one instance, A on chip-select 0 and then B on chip-select 2, a transfer on A finds 0 recorded and does not reconfigure, so A's transaction goes out on a peripheral last set up with B's pins and mode (`StaleChipSelectAfterInit`).
- **Double shutdown in `max_spi_init`.** When an SDK call fails during configuration, `max_spi_init` shuts the instance down a second time on its `err_init` path (`InitShutdownTwice`).

Constants taken from the vendor SDK and the C library, whose headers are not part of this model:

- `E_NO_ERROR = 0`, `E_BAD_PARAM = -3`, `E_BAD_STATE = -7`
- `MXC_SPI_INSTANCES = 2`
- `EINVAL = 22`, `ENOMEM = 12`, `EBUSY = 16`
- `NANO = 10^9`

## Model

| member | source | states |
|---|---|---|
| SpiTiming.TicksNsNearest | drivers/platform/maxim/max78000/maxim_spi.c:90 | `ticks_ns` is within half a clock of `NANO / clk`: rounding to the nearest integer |
| SpiTiming.ValidClockRange | drivers/platform/maxim/max78000/maxim_spi.c:89-90 | the tick period is non-zero, so the later division is defined, exactly when 0 < clk <= 2 GHz |
| SpiTiming.DelayNs | drivers/platform/maxim/max78000/maxim_spi.c:100 | `delay * NS_PER_US` in `uint32_t`: congruent to the true product modulo 2^32, never larger, and equal to it when it fits |
| SpiTiming.TickCountFloor | drivers/platform/maxim/max78000/maxim_spi.c:97-100 | the tick count is the floor of the (wrapped) delay in ns over the tick period, and the floor of the true delay when nothing wraps |
| SpiTiming.DelayNoOpWhenCached | drivers/platform/maxim/max78000/maxim_spi.c:83-85 | delays equal to the cached ones leave SSTIME, the cache and the log untouched |
| SpiTiming.DelayRollback | drivers/platform/maxim/max78000/maxim_spi.c:102-135 | a tick count above 255 for a changed field restores SSTIME to its value on entry, even after PRE was rewritten, keeps the cache and logs exactly one warning |
| SpiTiming.DelaySuccess | drivers/platform/maxim/max78000/maxim_spi.c:92-130 | without overflow only the changed fields are rewritten with their tick counts, other SSTIME bits are kept, the cache takes both delays and nothing is logged |
| SpiTiming.DelayCacheTracksApplied | drivers/platform/maxim/max78000/maxim_spi.c:129-135 | the cache becomes the message's delays iff nothing overflowed or nothing changed; otherwise it is kept; the other SSTIME bits never change |
| SpiTiming.PostFollowsFirstWhenZero | drivers/platform/maxim/max78000/maxim_spi.c:115-116 | with a zero first delay, POST gets one tick although a 100 us last delay was asked for |
| SpiTiming.PostZeroWrittenWhenFirstNonZero | drivers/platform/maxim/max78000/maxim_spi.c:115-126 | a zero last delay with a non-zero first delay writes 0 to POST |
| SpiTiming.ShortDelayWritesZero | drivers/platform/maxim/max78000/maxim_spi.c:97-108 | a non-zero delay shorter than one tick writes 0 to PRE |
| SpiTiming.LongDelayWraps | drivers/platform/maxim/max78000/maxim_spi.c:100-102 | a 4295000 us delay wraps to 32704 ns and is applied as 32 ticks instead of being refused |
| SpiTiming.PostKeptWhileLastUnchanged | drivers/platform/maxim/max78000/maxim_spi.c:110-127 | POST is rewritten only when the last delay differs from the cached one |
| SpiTiming.PostQuirkPersists | drivers/platform/maxim/max78000/maxim_spi.c:110-130 | at 1 MHz the delays (5, 10), (0, 10), (0, 20), (5, 20) end with the cache at (5, 20) but POST at one tick |
| SpiTiming.TicksNs | drivers/platform/maxim/max78000/maxim_spi.c:90 | defines the tick period `NO_OS_DIV_ROUND_CLOSEST(NANO, clk)`; `TicksNsNearest` and `ValidClockRange` state its properties |
| SpiTiming.PreTicks | drivers/platform/maxim/max78000/maxim_spi.c:97-100 | defines the PRE tick count: one tick for a zero first delay, else `TickCount` of the first delay (floor, see `TickCountFloor`) |
| SpiTiming.PostTicks | drivers/platform/maxim/max78000/maxim_spi.c:115-118 | defines the POST tick count as written: one tick when the FIRST delay is zero, else `TickCount` of the last delay |
| SpiTiming.DelayConfig | drivers/platform/maxim/max78000/maxim_spi.c:73-136 | defines one `_max_delay_config` call on values: new cache, new SSTIME and warnings; characterised by `DelayNoOpWhenCached`, `DelayRollback`, `DelaySuccess` and `DelayCacheTracksApplied` |
| MaxSpi.DelayConfigure | drivers/platform/maxim/max78000/maxim_spi.c:73-136 | the new SSTIME of the instance, the new delay cache and the log are those `DelayConfig` gives for the state on entry; other instances' registers are unchanged |
| SpiConfig.PinsFor | drivers/platform/maxim/max78000/maxim_spi.c:148-158 | clock, MISO and MOSI on, SDIO2/3 off, exactly SS line `cs` selected (none for cs > 2), VDDIOH iff `vssel` is non-zero |
| SpiConfig.RemapMode | drivers/platform/maxim/max78000/maxim_spi.c:168-183 | defined iff the mode is 0..3; the result is a mode and equals the input iff the input is 0 or 3 |
| SpiConfig.RemapModeInvolution | drivers/platform/maxim/max78000/maxim_spi.c:168-180 | the remap is its own inverse |
| SpiConfig.RemapModeTable | drivers/platform/maxim/max78000/maxim_spi.c:169-180 | 0 to 0, 1 to 2, 2 to 1, 3 to 3 |
| SpiConfig.InitCall | drivers/platform/maxim/max78000/maxim_spi.c:148-162 | defines the `MXC_SPI_Init` call: the instance, `PinsFor` of the chip-select and `vssel`, master and single mode, slave count, polarity and speed from the descriptor |
| SpiConfig.ConfigRun | drivers/platform/maxim/max78000/maxim_spi.c:138-208 | returns 0 or -EINVAL, 0 iff the mode is known and the four SDK calls succeed; the first call is MXC_SPI_Init with the selected pins; later calls are only mode, width, data size or shutdown; one to four replies are consumed |
| SpiConfig.ConfigSuccessCalls | drivers/platform/maxim/max78000/maxim_spi.c:160-203 | a successful configuration makes exactly Init, SetMode(remapped), SetWidth(standard), SetDataSize(8), in that order, and consumes four replies |
| SpiConfig.ConfigShutdown | drivers/platform/maxim/max78000/maxim_spi.c:163-207 | a shutdown happens iff configuration failed for a reason other than an unknown mode, and it is then the last call |
| SpiConfig.ConfigUnknownMode | drivers/platform/maxim/max78000/maxim_spi.c:181-182 | an unknown mode after a successful Init returns -EINVAL with Init as the only call |
| SpiConfig.ConfigIdempotent | drivers/platform/maxim/max78000/maxim_spi.c:185-203 | two successful configurations of the same descriptor make identical calls |
| MaxSpi.SpiConfigure | drivers/platform/maxim/max78000/maxim_spi.c:138-208 | return code, calls made and replies consumed are those of `ConfigRun` for the descriptor; allocations untouched |
| SpiInit.InitSpec | drivers/platform/maxim/max78000/maxim_spi.c:216-267 | defines one `max_spi_init` run on values: return code, calls, and allocator outcomes and SDK replies left; characterised by the four lemmas below |
| SpiInit.InitResult | drivers/platform/maxim/max78000/maxim_spi.c:216-267 | returns 0, -EINVAL or -ENOMEM; -ENOMEM iff the parameters are present and an allocation fails; 0 iff parameters present, both allocations succeed, the instance index is below 2 and configuration succeeds |
| SpiInit.InitFailureCleanup | drivers/platform/maxim/max78000/maxim_spi.c:247-266 | a failed init touches no hardware iff it failed before configuring; one that reached configuration ends with a shutdown |
| SpiInit.InitShutdownTwice | drivers/platform/maxim/max78000/maxim_spi.c:252-261 | an SDK failure during init's configuration gives the calls Init, Shutdown, Shutdown |
| SpiInit.InitUnknownMode | drivers/platform/maxim/max78000/maxim_spi.c:252-261 | an unknown mode during init returns -EINVAL after Init and a single shutdown |
| SpiInit.InitHealthy | drivers/platform/maxim/max78000/maxim_spi.c:227-258 | with every allocation and SDK call succeeding, a valid descriptor gets exactly Init, SetMode, SetWidth and SetDataSize, and 0 is returned |
| MaxSpi.AllocDescriptor | drivers/platform/maxim/max78000/maxim_spi.c:227-245 | NULL iff either allocation fails, with nothing left allocated; otherwise a fresh descriptor and zeroed state filled from the parameters, both now live |
| MaxSpi.ConfigureOrRelease | drivers/platform/maxim/max78000/maxim_spi.c:252-266 | configuration as `ConfigRun` says; on failure one more shutdown, and the state and descriptor are freed |
| MaxSpi.Init | drivers/platform/maxim/max78000/maxim_spi.c:216-267 | return code, calls, allocator and SDK streams are those of `InitSpec`; `last_slave_id` is never changed; on failure the caller's pointer and the live allocations are unchanged; on success the caller gets a fresh descriptor and state holding the parameters, zero cached delays, and both are live |
| MaxSpi.Remove | drivers/platform/maxim/max78000/maxim_spi.c:274-284 | NULL gives -EINVAL and no call; otherwise 0, one shutdown of the instance, and the descriptor and its state are no longer live |
| SpiTransfer.RequestFor | drivers/platform/maxim/max78000/maxim_spi.c:314-323 | the request for a message: the instance and the descriptor's chip-select, the message's buffers and `cs_change`, counts zero, and each length `bytes_number` for a non-NULL buffer and 0 for NULL |
| SpiTransfer.Step | drivers/platform/maxim/max78000/maxim_spi.c:325-326 | one message: `DelayConfig` on the cache and SSTIME, then the transaction for `RequestFor`, which consumes exactly one reply |
| SpiTransfer.RunMessages | drivers/platform/maxim/max78000/maxim_spi.c:316-335 | defines the message loop on values; `RunMessagesResult`, `RunMessagesReplies`, `RunMessagesTransactions`, `RunMessagesUdelays` and `RunMessagesKeepsTrace` state what it does |
| SpiTransfer.TransferSpec | drivers/platform/maxim/max78000/maxim_spi.c:293-336 | defines a whole `max_spi_transfer` on values: reconfiguration against the recorded chip-select, then the loop; `TransferReconfigures`, `TransferConfigFailure` and `TransferWithoutReconfiguration` state what it does |
| SpiTransfer.SingleMessage | drivers/platform/maxim/max78000/maxim_spi.c:349-354 | defines the message of `max_spi_write_and_read`: `data` as both buffers, `bytes_number`, `cs_change` 1, all delays zero; `WriteAndReadRequest` gives its request |
| SpiTransfer.ErrorOf | drivers/platform/maxim/max78000/maxim_spi.c:327-330 | E_BAD_PARAM becomes -EINVAL and E_BAD_STATE becomes -EBUSY |
| SpiTransfer.FirstAbort | drivers/platform/maxim/max78000/maxim_spi.c:326-331 | the index of the first of `n` replies that ends the batch (or `n`): every earlier reply lets the loop go on |
| SpiTransfer.RunMessagesResult | drivers/platform/maxim/max78000/maxim_spi.c:316-335 | the loop returns 0 iff no transaction ends the batch, else the normalised code of the first that does |
| SpiTransfer.RunMessagesReplies | drivers/platform/maxim/max78000/maxim_spi.c:316-331 | the loop consumes one SDK reply per transaction issued: up to and including the first that ends the batch |
| SpiTransfer.RunMessagesTransactions | drivers/platform/maxim/max78000/maxim_spi.c:316-331 | the transactions issued are the requests of the messages in order, up to and including the first that ends the batch, and no others |
| SpiTransfer.RunMessagesUdelays | drivers/platform/maxim/max78000/maxim_spi.c:326-332 | the loop waits the `cs_change_delay` of each message whose transaction went through, in order, and of no other |
| SpiTransfer.RunMessagesKeepsTrace | drivers/platform/maxim/max78000/maxim_spi.c:316-333 | the loop only appends to the trace and never initialises the peripheral |
| SpiTransfer.ConfigViews | drivers/platform/maxim/max78000/maxim_spi.c:160-201 | a configuration initialises the peripheral exactly once and issues no transaction |
| SpiTransfer.TransferReconfigures | drivers/platform/maxim/max78000/maxim_spi.c:305-312 | a transfer initialises the peripheral once iff the chip-select differs from the instance's last one, and records the new chip-select only when that configuration succeeded |
| SpiTransfer.TransferConfigFailure | drivers/platform/maxim/max78000/maxim_spi.c:306-309 | a failed reconfiguration returns -EINVAL before any message: no transaction, no delay change, chip-select cache kept |
| SpiTransfer.TransferWithoutReconfiguration | drivers/platform/maxim/max78000/maxim_spi.c:305-335 | with the chip-select already recorded and the delays already cached, a one-message transfer the SDK accepts makes no configuration call: only the transaction and the wait, and 0 |
| SpiTransfer.BusyStopsBatch | drivers/platform/maxim/max78000/maxim_spi.c:326-332 | of three messages whose second transaction reports E_BAD_STATE, two are issued, -EBUSY is returned and only the first delay is waited |
| SpiTransfer.WriteAndReadRequest | drivers/platform/maxim/max78000/maxim_spi.c:349-356 | the write-and-read message yields a request with both buffers `data`, both lengths `bytes_number` (0 for NULL) and chip-select deassertion |
| MaxSpi.Send | drivers/platform/maxim/max78000/maxim_spi.c:325-326 | delays programmed then the transaction issued: the new state is `Step` of the old, and the code is the next SDK reply |
| MaxSpi.SendMessage | drivers/platform/maxim/max78000/maxim_spi.c:325-332 | one loop iteration: as `Send`, plus the wait when the code does not end the batch |
| MaxSpi.SendAll | drivers/platform/maxim/max78000/maxim_spi.c:314-335 | the return code and the new delay cache, SSTIME, replies and trace are those of `RunMessages` on the first `len` messages |
| MaxSpi.Transfer | drivers/platform/maxim/max78000/maxim_spi.c:293-336 | NULL descriptor or messages give -EINVAL and change nothing, the delay cache included; otherwise return code, `last_slave_id`, SSTIME, delay cache, replies and trace are those of `TransferSpec` |
| MaxSpi.WriteAndRead | drivers/platform/maxim/max78000/maxim_spi.c:345-357 | a transfer, as `TransferSpec` gives it, of the single in-place message with chip-select deassertion |
| MaxSpi.InitTwoOnOneInstance | drivers/platform/maxim/max78000/maxim_spi.c:216-267 | after init of A (instance 0, chip-select 0) and then of B (instance 0, chip-select 2, mode 3), the last Init call selects SS2 only, the mode set is 3, and `last_slave_id[0]` is still 0 |
| MaxSpi.StaleChipSelectAfterInit | drivers/platform/maxim/max78000/maxim_spi.c:297-311 | after InitTwoOnOneInstance, a transfer of one message on A returns 0 and adds only its transaction for chip-select 0 and its wait: no reconfiguration, although the pins last set up are B's |
| MaxSpi.Platform.constructor | drivers/platform/maxim/max78000/maxim_spi.c:297 | `last_slave_id` starts zeroed, like any static |

## Left out

- The rest of the repository (the IIO example application and its wiring) is not part of this model. It only passes parameters to the binding.
- The vendor SDK's internals are not modelled. `MXC_SPI_Init`, `SetMode`, `SetWidth`, `SetDataSize`, `Shutdown` and `MasterTransaction` become trace events, and their return codes come from a scripted stream.
- The bits exchanged on the bus and the buffer contents are not modelled. A buffer is an identity (`Buf`), so the model only records which buffer a request names.
- The SSTIME register is a record of its PRE and POST fields plus the other bits, not a 32-bit word with masks. Only values 0..255 are ever written to a field, and those fit its 8 bits.
- The warning text of `pr_warning` is not modelled; only which field the warning is about is recorded. `no_os_udelay` is recorded with its duration, and no time passes.
- `st->init_param` points at the caller's `max_spi_init_param`. The model copies its value at init, so a caller changing that struct afterwards is not captured.
- The `max_spi_ops` table of function pointers is not modelled; it only names the functions above.
- Concurrent use of the shared `last_slave_id` array and of one instance from several descriptors is not modelled.
- Request fields the binding never sets, such as the completion callback and the width, are not modelled. `ssDeassert` is taken as an integer that receives the `cs_change` byte unchanged.
- `MXC_SPI_GetPeripheralClock` is read on every `_max_delay_config` call that gets past the cache test. The model gives each instance one fixed clock rate (`Platform.clockRate`), so a clock changed between calls by code outside this file is not captured.
- MaxSpi.Transfer: requires a descriptor from a successful init: state present, instance index below 2, and a peripheral clock of at most 2 GHz. The source does not check these. An out-of-range index would read outside `last_slave_id`, and a faster clock would divide by a zero tick period. `len` must not exceed the message array, which the source trusts its caller for.
- MaxSpi.WriteAndRead: requires the same of its descriptor as MaxSpi.Transfer.
- MaxSpi.DelayConfigure: requires the same clock bound, for the same reason.
