# Xpedite core, modelled in Dafny

Xpedite is a profiler for latency-sensitive x86 applications. Probes compiled into the target
record time-stamp and performance counters; an offline Python tool groups the samples into
transactions and reports on them. This project models and proves properties of two parts of it.

The hardware-counter programming path:

- `PerfEvents` (`perf_event_attr_set.dfy`): the bounded set of perf-event attributes. It is a
  fixed-capacity array whose group leader is the only event created disabled.
- `PmuCtlModel` (`pmu_ctl.dfy`): the user-space PMU control object. It covers the counter counts
  (with `uint8_t` wrap-around), the buffer layout `readPmc` fills through RDPMC, the retired perf
  events and the lazily created instance.
- `PmuCtrl` (`pmu_ctrl_ko.dfy`): the kernel module's request path. It holds the byte layout of a
  `PMUCtrlRequest` (93 bytes) and the IA32_PERFEVTSELx, IA32_FIXED_CTR_CTRL and
  IA32_PERF_GLOBAL_CTRL encodings of the Intel SDM Vol. 3B, chapter 18 (sections 18.2.1.1 and
  18.2.2). It also models request validation in `processRequest` and the length check of
  `pmu_write`.
- `PmuArch` (`pmu_arch.dfy`): the per-core sequence of `wrmsr_safe` writes. The sequence stops at
  the first fault, and `pmuEnableEventSet` clears the event set again when it fails. The MSRs are
  a map from address to a 64-bit value.
- `Formatter` (`formatter.dfy`): the buffer and capacity bookkeeping of `pmcrqToString`.
- `PmuRequests` (`pmu_ctrl_py.dfy`): the profiler's side of the device protocol. It covers event
  resolution, the request group written per cpu and its agreement with the kernel's decoding of
  the same bytes.

The transaction logic of the profiler:

- `EventsLoader` (`events_loader.dfy`): the converters, field factories, record classification
  and `loadJson` accounting of the events database loader.
- `Sorting` (`sorting.dfy`): Python's stable `sorted` with a key, as an insertion sort.
- `Transactions` (`transaction.dfy`): counters joined and ordered by time-stamp counter,
  `finalize`, `hasProbes`, sub-collection cloning and the ordered `TransactionCollection`.
- `TransactionLoaders` (`transaction_loader.dfy`): the chaotic and the bounded loader state
  machines, each a class whose step is specified by a function on the loader's state.
- `Histograms` (`histogram.dfy`): `buildDistribution` with `bisect_left` placement, and the
  series-length check of `buildFlotHistograms`.
- `Analytics` (`analytics.dfy`): bundling of elapsed times per category across the current run
  and its benchmarks, and filtering of transactions out of every collection.

Two helper modules sit underneath: `Results` (`results.dfy`: Option and Result) and `PyText`
(`py_text.dfy`: Python's `strip`, `split`, `join`, `startswith` and `int(s, base)` on ASCII
text; as in Python 2, `int` skips surrounding whitespace and whitespace between the sign and the
digits).

Where a step of the source depends on code or hardware outside this model, the model takes it as
a parameter. Examples are which MSR writes fault, RDPMC and RDTSC, `snprintf`, the request mask
builders, `RequestSorter.sort`, `ProbeIndexFactory.buildIndex` and
`TxnFragments.addResumeFragment`. Each operation is proved against a specification function of
its inputs and its old state, and the properties the source promises are proved about those
functions.

## Model

| member | source | states |
|---|---|---|
| `PerfEvents.PerfEventAttrSet.constructor` | include/xpedite/perf/PerfEventAttrSet.H:31-33 | a new set is empty, of generation 0, with every slot value-initialised |
| `PerfEvents.PerfEventAttrSet.Add` | include/xpedite/perf/PerfEventAttrSet.H:35-41 | adding to a full set fails (the runtime_error) and changes nothing; otherwise the attribute, stamped with the struct size, is appended and nothing else changes |
| `PerfEvents.PerfEventAttrSet.AddPMUEvent` | include/xpedite/perf/PerfEventAttrSet.H:43-51 | appends an attribute with the given type, event select and exclusion flags that is disabled exactly when it is the first; the leader stays the only disabled event |
| `PerfEvents.PerfEventAttrSet.IsNonEmpty` | include/xpedite/perf/PerfEventAttrSet.H:53-55 | true exactly when the set's contents are non-empty |
| `PerfEvents.PerfEventAttrSet.Size` | include/xpedite/perf/PerfEventAttrSet.H:57-59 | the length of the set's contents, never above the capacity |
| `PmuCtlModel.FixedPmcSet.Size` | include/xpedite/pmu/PMUCtl.H:72 | at most 3; 0 exactly when no fixed counter is enabled, 3 exactly when all are |
| `PmuCtlModel.FixedIndicesLayout` | include/xpedite/pmu/PMUCtl.H:93-103 | one RDPMC index per enabled fixed counter, exactly the enabled ones, strictly increasing, all in 0x40000000..0x40000002 |
| `PmuCtlModel.ReadLayoutMeaning` | include/xpedite/pmu/PMUCtl.H:87-104 | a probe reads `generic + fixed` values: generic counter i in slot i, then the enabled fixed counters in their fixed order |
| `PmuCtlModel.InertEvents.constructor` | include/xpedite/pmu/PMUCtl.H:36-44 | keeps the events and generation and stamps the TSC read at construction |
| `PmuCtlModel.PmuCtl.constructor` | include/xpedite/pmu/PMUCtl.H:68 | the initial generic count and fixed set are the given ones |
| `PmuCtlModel.PmuCtl.GenericPmcCount` | include/xpedite/pmu/PMUCtl.H:70 | the number of generic counters the probe reads, as last stored |
| `PmuCtlModel.PmuCtl.FixedPmcCount` | include/xpedite/pmu/PMUCtl.H:72 | the size of the fixed set, at most 3 |
| `PmuCtlModel.PmuCtl.PmcCount` | include/xpedite/pmu/PMUCtl.H:73 | the sum of both counts narrowed to `uint8_t`, which is the plain sum when the generic count is below 253 |
| `PmuCtlModel.PmuCtl.ReadPmc` | include/xpedite/pmu/PMUCtl.H:87-104 | the first `generic + fixed` slots hold the probe's layout of reads and every later slot is unchanged |
| `PmuCtlModel.PmuCtl.ReadGeneric` | include/xpedite/pmu/PMUCtl.H:88-91 | slot i holds the read of generic counter i for every i below the generic count, and every later slot is unchanged |
| `PmuCtlModel.PmuCtl.ReadFixed` | include/xpedite/pmu/PMUCtl.H:93-103 | appends exactly the enabled fixed counters' reads after the generic ones |
| `PmuCtlModel.PmuCtl.ReadOne` | include/xpedite/pmu/PMUCtl.H:94 | one more slot holds the read of the given index; later slots are untouched |
| `PmuCtlModel.LayoutRead` | include/xpedite/pmu/PMUCtl.H:87-104 | once generic counters 0..g-1 and then the enabled fixed counters are read, the buffer starts with the probe's layout and the rest is as it was |
| `PmuCtlModel.Registry.constructor` | include/xpedite/pmu/PMUCtl.H:62 | no instance exists before the first `get()` |
| `PmuCtlModel.Registry.Get` | include/xpedite/pmu/PMUCtl.H:108-113 | the first call creates a fresh instance and every later call returns that same one |
| `PmuArch.SplitJoin` | ko/PMUArch.c:100-103 | writing the low and high halves of an offcore value back as high:low gives the value itself |
| `PmuArch.ZeroEventSet` | ko/PMUCtrl.c:313 | the zeroed event set has the C struct's fixed array sizes |
| `PmuArch.Exec` | ko/PMUArch.c:37-47 | a chain of `wrmsr_safe` calls, each attempted only if all before succeeded, ends in 0 or -EIO |
| `PmuArch.ExecLog` | ko/PMUArch.c:37-47 | the writes attempted are all of them without a fault, otherwise a prefix ending in the first faulting write, every earlier write having succeeded |
| `PmuArch.ExecConcat` | ko/PMUArch.c:120-130 | running two chains one after the other, the second only on success, is running their concatenation |
| `PmuArch.ExecPreserves` | ko/PMUArch.c:21-118 | a register no attempted write names keeps its value, fault or not |
| `PmuArch.ExecLastWrite` | ko/PMUArch.c:21-118 | after a run without faults a register holds the value of the last write naming it |
| `PmuArch.ExecZeroes` | ko/PMUArch.c:21-72 | after a fault-free run of zero writes, every register named holds 0 |
| `PmuArch.GpResetWrites` | ko/PMUArch.c:49-60 | resetting the generic counters writes 16 registers, selector i then counter i |
| `PmuArch.GpResetAt` | ko/PMUArch.c:52-55 | write 2i zeroes PerfEvtSel_i and write 2i+1 zeroes IA32_PMC_i |
| `PmuArch.OffcoreResetWrites` | ko/PMUArch.c:62-72 | resetting the offcore responses writes both of them |
| `PmuArch.ClearWrites` | ko/PMUArch.c:120-130 | clearing the event set is 24 writes |
| `PmuArch.ClearWritesZero` | ko/PMUArch.c:120-130 | every write of the clear stores 0 into a global, PEBS, fixed, generic or offcore register |
| `PmuArch.ClearIndex` | ko/PMUArch.c:120-130 | every such register is zeroed by some write of the clear |
| `PmuArch.ClearZeroesAll` | ko/PMUArch.c:120-130 | a clear without faults leaves every counter, selector and control register at 0 |
| `PmuArch.GpEnableWrites` | ko/PMUArch.c:82-93 | one selector write per generic event |
| `PmuArch.OffcoreEnableWrites` | ko/PMUArch.c:95-110 | one response write per offcore event |
| `PmuArch.ProgramWrites` | ko/PMUArch.c:145-159 | programming writes the generic and offcore events plus the fixed and global controls |
| `PmuArch.ProgramPhases` | ko/PMUArch.c:145-159 | programming is the four enable helpers run one after the other, each only on success |
| `PmuArch.ProgramWriteAt` | ko/PMUArch.c:145-159 | the register and value of each programming write, position by position |
| `PmuArch.ProgramAddrsDistinct` | ko/PMUArch.c:145-159 | programming writes each register at most once |
| `PmuArch.ProgramWritesHold` | ko/PMUArch.c:145-159 | after fault-free programming each register holds the value written to it |
| `PmuArch.HeldAt` | ko/PMUArch.c:145-159 | after fault-free programming, the register named by any one write holds that write's value |
| `PmuArch.GpHeld` | ko/PMUArch.c:145 | after fault-free programming, the i-th generic event selector holds the i-th requested selector |
| `PmuArch.OffcoreHeld` | ko/PMUArch.c:147-149 | after fault-free programming, the i-th offcore response register holds the i-th requested response |
| `PmuArch.EnableSuccessValues` | ko/PMUArch.c:132-170 | when enabling succeeds, every generic selector, offcore response, the fixed control and the global control hold the values the event set asks for |
| `PmuArch.EnableSpec` | ko/PMUArch.c:132-170 | more than 8 generic events gives -EFAULT; otherwise the result is 0, or the -EIO of a faulting write |
| `PmuArch.EnableSuccessIsProgram` | ko/PMUArch.c:140-170 | a successful enable is the clear followed by the programming writes, with no rollback |
| `PmuArch.ProgramSuccessValues` | ko/PMUArch.c:145-159 | a fault-free clear and programming run leaves every requested selector, response and control value in its register |
| `PmuArch.GlobalCtrlLayout` | ko/PMUArch.c:155-158 | global-control bit k < 32 is set iff k < gpEvtCount; bits 32-39 are `fixedEvtGlobalCtrl`; higher bits are clear |
| `PmuArch.TooManyGpTouchesNothing` | ko/PMUArch.c:135-138 | more than 8 generic events gives -EFAULT and writes no register |
| `PmuArch.ClearFailureStopsProgramming` | ko/PMUArch.c:140-143 | a fault in the initial clear gives -EIO and only a prefix of the clear, ending in the fault, was attempted |
| `PmuArch.ProgramFailureRollsBack` | ko/PMUArch.c:145-163 | a fault while programming gives -EIO after the whole clear, a prefix of the programming ending in the fault, and a second clear |
| `PmuArch.RollbackZeroes` | ko/PMUArch.c:161-163 | after a rollback whose clear succeeds, every cleared register is 0 |
| `PmuArch.MsrFile.constructor` | ko/PMUArch.c:21 | a register file starts with the given registers and an empty write log |
| `PmuArch.MsrFile.WrmsrSafe` | ko/PMUArch.c:22 | one attempted write: stores high:low, or faults with -EIO and changes no register |
| `PmuArch.MsrFile.ResetGlobalCtrl` | ko/PMUArch.c:21-27 | zeroes IA32_PERF_GLOBAL_CTRL or reports its fault |
| `PmuArch.MsrFile.ResetPEBSEnable` | ko/PMUArch.c:29-35 | zeroes IA32_PEBS_ENABLE or reports its fault |
| `PmuArch.MsrFile.ResetFixedCounters` | ko/PMUArch.c:37-47 | the fixed control and three fixed counters zeroed in order, stopping at the first fault |
| `PmuArch.MsrFile.ResetGpCounters` | ko/PMUArch.c:49-60 | the generic selector/counter pairs zeroed in order, stopping at the first fault |
| `PmuArch.MsrFile.ResetGpPair` | ko/PMUArch.c:53-54 | PerfEvtSel_i zeroed, then IA32_PMC_i only if that succeeded |
| `PmuArch.MsrFile.ResetOffcoreCounters` | ko/PMUArch.c:62-72 | both offcore responses zeroed, stopping at the first fault |
| `PmuArch.MsrFile.EnableFixedCtrCtrl` | ko/PMUArch.c:74-80 | writes `fixedEvtSel` into the fixed-counter control |
| `PmuArch.MsrFile.EnableGpCounters` | ko/PMUArch.c:82-93 | writes each generic selector in order, stopping at the first fault |
| `PmuArch.MsrFile.EnableOffcoreCounters` | ko/PMUArch.c:95-110 | writes each offcore response as its two halves, stopping at the first fault |
| `PmuArch.MsrFile.EnableGlobalCtrl` | ko/PMUArch.c:112-118 | writes high:low into the global control |
| `PmuArch.MsrFile.PmuClearEventSet` | ko/PMUArch.c:120-130 | the five resets chained on success: the whole clear sequence, stopping at the first fault |
| `PmuArch.MsrFile.ProgramEventSet` | ko/PMUArch.c:145-159 | the programming writes, each attempted only if everything before succeeded |
| `PmuArch.MsrFile.PmuEnableEventSet` | ko/PMUArch.c:132-170 | the register file, write log and returned error follow the enable specification, and the event set's error field is the returned value |
| `PmuCtrl.U64Bytes` | ko/PMUCtrl.h:38 | a `uint64_t` occupies 8 bytes |
| `PmuCtrl.LowBytesOf` | ko/PMUCtrl.h:38 | the low 32 bits of a `uint64_t` are its first four bytes, least significant first |
| `PmuCtrl.HighBytesOf` | ko/PMUCtrl.h:38 | the high 32 bits of a `uint64_t` are its last four bytes |
| `PmuCtrl.U64FromBytes` | ko/PMUCtrl.h:38 | a 64-bit value survives its memory image |
| `PmuCtrl.U64BytesFrom` | ko/PMUCtrl.h:38 | an 8-byte image survives the value read from it |
| `PmuCtrl.EncodeFixed` | ko/PMUCtrl.h:19-24 | a packed fixed event is 3 bytes |
| `PmuCtrl.EncodeGp` | ko/PMUCtrl.h:26-36 | a packed generic event is 8 bytes |
| `PmuCtrl.GpEventBytes` | ko/PMUCtrl.h:26-36 | every 8 bytes are the image of the generic event read from them |
| `PmuCtrl.FixedBytes` | ko/PMUCtrl.h:46 | an array of fixed events is 3 bytes per event |
| `PmuCtrl.FixedFromBytes` | ko/PMUCtrl.h:46 | reading fixed events gives one per 3 bytes |
| `PmuCtrl.GpBytes` | ko/PMUCtrl.h:47 | an array of generic events is 8 bytes per event |
| `PmuCtrl.GpFromBytes` | ko/PMUCtrl.h:47 | reading generic events gives one per 8 bytes |
| `PmuCtrl.OffcoreBytes` | ko/PMUCtrl.h:48 | an array of offcore values is 8 bytes per value |
| `PmuCtrl.OffcoreFromBytes` | ko/PMUCtrl.h:48 | reading offcore values gives one per 8 bytes |
| `PmuCtrl.FixedRoundTrip` | ko/PMUCtrl.h:46 | fixed events survive being written and read back |
| `PmuCtrl.FixedBytesOf` | ko/PMUCtrl.h:46 | bytes survive being read as fixed events and written back |
| `PmuCtrl.GpRoundTrip` | ko/PMUCtrl.h:47 | generic events survive being written and read back |
| `PmuCtrl.GpBytesOf` | ko/PMUCtrl.h:47 | bytes survive being read as generic events and written back |
| `PmuCtrl.OffcoreRoundTrip` | ko/PMUCtrl.h:48 | offcore values survive being written and read back |
| `PmuCtrl.OffcoreBytesOf` | ko/PMUCtrl.h:48 | bytes survive being read as offcore values and written back |
| `PmuCtrl.DecodeRequest` | ko/PMUCtrl.c:380 | the 93 bytes copied from user space read as a request with arrays of 3, 8 and 2 |
| `PmuCtrl.EncodeRequest` | ko/PMUCtrl.h:40-49 | the image of a request starts with its cpu byte, and a well-formed request is 93 bytes |
| `PmuCtrl.DecodeEncode` | ko/PMUCtrl.h:40-49 | every well-formed request is 93 bytes, and reading them back gives the request |
| `PmuCtrl.EncodeDecode` | ko/PMUCtrl.h:40-49 | every 93-byte buffer is the image of the request it reads as |
| `PmuCtrl.PerfEvtSelFields` | ko/PMUCtrl.c:182-216 | the event select, unit mask and counter mask bytes of IA32_PERFEVTSELx carry the request's values |
| `PmuCtrl.PerfEvtSelFlags` | ko/PMUCtrl.c:182-216 | USR, OS, E, ANY and INV are set exactly when the request's byte is non-zero; EN is set; PC and INT are clear |
| `PmuCtrl.FeEnablemask` | ko/PMUCtrl.c:228-234 | the mask is 1, 2 or 3; bit 1 iff the user flag is set; bit 0 iff kernel is set or user is not |
| `PmuCtrl.FirstFixedFor` | ko/PMUCtrl.c:218-226 | the first event among the first `count` that names the counter, or none when no event does |
| `PmuCtrl.FixedEvtSelLayout` | ko/PMUCtrl.c:236-272 | each counter's 2-bit enable field holds its first matching event's mask or 0; any-thread, PMI and reserved bits are 0 |
| `PmuCtrl.FixedBitsMeaning` | ko/PMUCtrl.c:277-280 | bit k of the OR is set iff some event names counter k, and no bit from 3 up is set |
| `PmuCtrl.FixedGlobalCtrlMeaning` | ko/PMUCtrl.c:274-288 | the mask is below 8; with valid indices it enables exactly the named counters; for a non-empty list it is 0 iff some index is 3 or more |
| `PmuCtrl.FixedBitsStep` | ko/PMUCtrl.c:278-279 | one more valid event ORs its counter's bit into the mask |
| `PmuCtrl.FindFixedEvtForCtr` | ko/PMUCtrl.c:218-226 | the linear search returns the first matching event, or none |
| `PmuCtrl.FirstAfterMisses` | ko/PMUCtrl.c:220-225 | after a prefix of misses, the next match is the first one, and the end means none |
| `PmuCtrl.BuildFixedEvtSelBitmask` | ko/PMUCtrl.c:236-272 | the fixed-counter control value specified above |
| `PmuCtrl.BuildFixedEvtGlobalCtrlBitmask` | ko/PMUCtrl.c:274-288 | the OR of the counters' bits, or 0 from the first bad index on |
| `PmuCtrl.RequestError` | ko/PMUCtrl.c:315-336 | the validation error is 0, -ENXIO or -EFAULT |
| `PmuCtrl.RequestErrorMeaning` | ko/PMUCtrl.c:315-354 | a request passes iff its cpu is active, its counts fit and every fixed index names a counter; an inactive cpu gives -ENXIO |
| `PmuCtrl.BuildPerfEvtSelBitmask` | ko/PMUCtrl.c:182-216 | every selector has the enable bit (22) set and the pin-control (19) and interrupt (20) bits clear |
| `PmuCtrl.EventSetOf` | ko/PMUCtrl.c:338-356 | the event set built from a valid request can be programmed |
| `PmuCtrl.EventSetOfCopies` | ko/PMUCtrl.c:338-348 | the event set copies the counts and offcore values and encodes each generic event |
| `PmuCtrl.EventSetOfFixedCtrl` | ko/PMUCtrl.c:350-351 | the event set's global-control byte enables exactly the fixed counters the request names |
| `PmuCtrl.NarrowMask` | ko/PMUCtrl.c:351 | storing the global-control mask into the event set's byte keeps its three low bits |
| `PmuCtrl.CopyEvents` | ko/PMUCtrl.c:338-348 | the two copying loops give the event set without its fixed-counter fields |
| `PmuCtrl.BuildEventSet` | ko/PMUCtrl.c:338-356 | the error is the validation error, and a valid request gives its event set |
| `PmuCtrl.ProcessSpec` | ko/PMUCtrl.c:309-369 | a request is answered with its size, -ENXIO or -EFAULT |
| `PmuCtrl.ProcessSucceeds` | ko/PMUCtrl.c:309-369 | the answer is the request size iff the cpu is active, the counts fit, the fixed indices are valid, the cross-call runs and programming does not fault; a rejected request leaves the core untouched |
| `PmuCtrl.ProgrammedRegisters` | ko/PMUCtrl.c:309-369 | after a successful request the core holds the encoded generic events, the offcore values, the fixed-counter control, and a global control enabling exactly the requested counters |
| `PmuCtrl.WidenMask` | ko/PMUArch.c:156-158 | the fixed enable byte, widened into the high half of the global control, keeps its bits |
| `PmuCtrl.Device.constructor` | ko/PMUCtrl.c:38 | no core is active when the device is set up |
| `PmuCtrl.Device.ProcessRequest` | ko/PMUCtrl.c:309-369 | the answer and the core's registers and write log follow the specification, and the cpu joins the active set exactly on success |
| `PmuCtrl.Device.PmuWrite` | ko/PMUCtrl.c:371-385 | a wrong length or a failed copy is -EFAULT and changes nothing; otherwise the bytes are processed as a request |
| `PyText.LStrip` | scripts/lib/xpedite/pmu/eventsLoader.py:93 | a suffix of the text that does not start with a stripped character |
| `PyText.RStrip` | scripts/lib/xpedite/pmu/eventsLoader.py:93 | a prefix of the text that does not end with a stripped character |
| `PyText.Strip` | scripts/lib/xpedite/pmu/eventsLoader.py:93 | the result neither starts nor ends with a stripped character |
| `PyText.StripPadded` | scripts/lib/xpedite/pmu/eventsLoader.py:93 | stripping removes exactly the padding on both sides |
| `PyText.LStripPadded` | scripts/lib/xpedite/pmu/eventsLoader.py:93 | stripping on the left removes exactly the leading padding |
| `PyText.RStripPadded` | scripts/lib/xpedite/pmu/eventsLoader.py:93 | stripping on the right removes exactly the trailing padding |
| `PyText.Find` | scripts/lib/xpedite/pmu/eventsLoader.py:94 | a reported index is an occurrence of the separator |
| `PyText.FindFirst` | scripts/lib/xpedite/pmu/eventsLoader.py:94 | an occurrence with none before it is the one reported |
| `PyText.FindNone` | scripts/lib/xpedite/pmu/eventsLoader.py:94 | whenever the separator occurs, some occurrence at or before it is reported |
| `PyText.Split` | scripts/lib/xpedite/pmu/eventsLoader.py:94 | splitting gives at least one piece |
| `PyText.JoinSplit` | scripts/lib/xpedite/pmu/eventsLoader.py:94 | joining the pieces of a split gives the text back |
| `PyText.SplitJoin` | scripts/lib/xpedite/pmu/eventsLoader.py:94 | splitting a join on a one-character separator that no piece contains gives the pieces back |
| `PyText.NoSeparator` | scripts/lib/xpedite/pmu/eventsLoader.py:94 | a text without the separator character has no occurrence of it |
| `PyText.DigitValue` | scripts/lib/xpedite/pmu/eventsLoader.py:75 | a digit's value is at most 16, 16 meaning "not a digit" |
| `PyText.Rem` | scripts/lib/xpedite/pmu/eventsLoader.py:75 | the remainder is below the base and recomposes the number |
| `PyText.DigitChar` | scripts/lib/xpedite/report/histogram.py:73-74 | the digit character has the given value and is left alone by strip, sign and prefix handling |
| `PyText.ShowNat` | scripts/lib/xpedite/report/histogram.py:73-74 | a non-empty digit string with no leading zero |
| `PyText.HexWidth` | scripts/lib/xpedite/transactionLoader.py:146 | exactly `w` hex digits |
| `PyText.ValueShowNat` | scripts/lib/xpedite/report/histogram.py:73-74 | the printed digits of `n` have the value `n` |
| `PyText.ValueHexWidth` | scripts/lib/xpedite/transactionLoader.py:146 | `w` hex digits of `n` have the value of `n`'s low `w` digits |
| `PyText.ParsePlain` | scripts/lib/xpedite/pmu/eventsLoader.py:75-76 | plain digits parse to their value |
| `PyText.ParseNegative` | scripts/lib/xpedite/pmu/eventsLoader.py:104 | a minus sign before plain digits negates their value |
| `PyText.ParseInt` | scripts/lib/xpedite/pmu/eventsLoader.py:94 | a text parses only when something remains after stripping whitespace, and to a negative value only after a leading minus |
| `PyText.ParseNegativeSpaced` | scripts/lib/xpedite/pmu/eventsLoader.py:104 | whitespace between the minus sign and the digits is skipped, as Python 2's `int` does |
| `PyText.ParseShowInt` | scripts/lib/xpedite/report/histogram.py:73-74 | parsing undoes printing, in base 10 and base 16 |
| `PyText.ParseShowNegative` | scripts/lib/xpedite/report/histogram.py:73-74 | parsing undoes printing for negative numbers |
| `PyText.ParseHexWidth` | scripts/lib/xpedite/transactionLoader.py:146 | the fixed-width hex id at the end of a counter's data parses back to the id |
| `Formatter.GpItems` | lib/xpedite/pmu/Formatter.c:53 | the generic slots, each handed to the generic formatter, in array order |
| `Formatter.FixedItems` | lib/xpedite/pmu/Formatter.c:62 | the fixed slots, each handed to the fixed formatter, in array order |
| `Formatter.OffcoreItems` | lib/xpedite/pmu/Formatter.c:71 | the offcore slots, each handed to the offcore formatter, in array order |
| `Formatter.Items` | lib/xpedite/pmu/Formatter.c:51-76 | the events are printed in order: all 8 generic slots, then 3 fixed, then 2 offcore |
| `Formatter.RemainingBounds` | lib/xpedite/pmu/Formatter.c:52-76 | without room nothing is consumed; otherwise the room never drops below one character and never grows |
| `Formatter.ToStringResultBounds` | lib/xpedite/pmu/Formatter.c:45-78 | the result is at most `size - 1` when there is room for a terminator, else 0 |
| `Formatter.RemainingSplit` | lib/xpedite/pmu/Formatter.c:52-76 | the three loops chain: printing `a + b` prints `a`, then `b` in the room `a` leaves |
| `Formatter.FailureIsZero` | lib/xpedite/pmu/Formatter.c:54-56 | a formatter error, reached while there is room, makes the whole result 0 |
| `Formatter.FailureStops` | lib/xpedite/pmu/Formatter.c:54-56 | a formatter error on an event reached with room fails the whole print |
| `Formatter.NoRoomNoCalls` | lib/xpedite/pmu/Formatter.c:52 | with room for at most the terminator, no formatter is consulted and the result is 0 |
| `Formatter.RemainingWhenAllFit` | lib/xpedite/pmu/Formatter.c:52-77 | when every text fits, the result is the sum of the formatters' lengths |
| `Formatter.ToBoolenChar` | lib/xpedite/pmu/Formatter.c:23-25 | 'y' exactly for a nonzero flag, else 'n' |
| `Formatter.PmcrqToString` | lib/xpedite/pmu/Formatter.c:45-78 | the three clamped loops return the number of characters the specification gives |
| `Formatter.PrintStep` | lib/xpedite/pmu/Formatter.c:52-58 | one printed event: the room left afterwards is the room after the clamped step |
| `Formatter.PrintFails` | lib/xpedite/pmu/Formatter.c:54-56 | a formatter error on an event, reached with room, makes the rest fail |
| `Formatter.PrintDone` | lib/xpedite/pmu/Formatter.c:52 | nothing more is printed once the slots are exhausted or only the terminator's room is left |
| `Formatter.PrintGp` | lib/xpedite/pmu/Formatter.c:51-58 | the loop over the generic slots leaves exactly the room the specification gives, or fails exactly when it does |
| `Formatter.PrintFixed` | lib/xpedite/pmu/Formatter.c:60-67 | the loop over the fixed slots leaves exactly the room the specification gives, or fails exactly when it does |
| `Formatter.PrintOffcore` | lib/xpedite/pmu/Formatter.c:69-76 | the loop over the offcore slots leaves exactly the room the specification gives, or fails exactly when it does |
| `PmuRequests.ConcatSnoc` | scripts/lib/xpedite/pmu/pmuctrl.py:57-73 | the group grows by one mask at a time |
| `PmuRequests.Padded` | scripts/lib/xpedite/pmu/pmuctrl.py:60-73 | a section has as many masks as the larger of its slot count and its request count |
| `PmuRequests.PaddedAt` | scripts/lib/xpedite/pmu/pmuctrl.py:60-73 | a section holds the requests' masks in order, then only default masks |
| `PmuRequests.RequestGroupHeader` | scripts/lib/xpedite/pmu/pmuctrl.py:57-59 | a group starts with the bytes cpu, #fixed, #generic, #offcore, and `struct.pack` refuses it exactly when one of them does not fit a byte |
| `PmuRequests.HeaderOf` | scripts/lib/xpedite/pmu/pmuctrl.py:57-59 | the first four bytes of a group are its header |
| `PmuRequests.ConcatLength` | scripts/lib/xpedite/pmu/pmuctrl.py:60-73 | masks of equal size `k` concatenate to `k` bytes each |
| `PmuRequests.GroupLength` | scripts/lib/xpedite/pmu/pmuctrl.py:49-74 | a group is 4 + 3·max(3, #fixed) + 8·max(8, #generic) + 8·max(2, #offcore) bytes: the kernel's request size exactly when no section overflows |
| `PmuRequests.FixedFromAppend` | ko/PMUCtrl.h:46 | reading fixed events from joined bytes is reading each part |
| `PmuRequests.GpFromAppend` | ko/PMUCtrl.h:47 | reading generic events from joined bytes is reading each part |
| `PmuRequests.OffcoreFromAppend` | ko/PMUCtrl.h:48 | reading offcore values from joined bytes is reading each part |
| `PmuRequests.FixedFromConcat` | scripts/lib/xpedite/pmu/pmuctrl.py:60-63 | 3-byte masks read back as one fixed event per mask, in order |
| `PmuRequests.GpFromConcat` | scripts/lib/xpedite/pmu/pmuctrl.py:65-68 | 8-byte masks read back as one generic event per mask, in order |
| `PmuRequests.OffcoreFromConcat` | scripts/lib/xpedite/pmu/pmuctrl.py:70-73 | 8-byte masks read back as one little-endian offcore value per mask, in order |
| `PmuRequests.GroupDecodes` | scripts/lib/xpedite/pmu/pmuctrl.py:49-74 | a group whose sections fit is read by the kernel module as the request with that cpu and those counts, its events decoding the requests' masks in order and the default masks after them |
| `PmuRequests.DecodeSections` | scripts/lib/xpedite/pmu/pmuctrl.py:49-74 | the request read from a header and three sections carries their contents |
| `PmuRequests.DecodeParts` | ko/PMUCtrl.h:40-49 | a request image cut into header, fixed, generic and offcore parts reads each part into its field |
| `PmuRequests.FixedSection` | scripts/lib/xpedite/pmu/pmuctrl.py:60-63 | the fixed section is 9 bytes and reads back as the requests' events, then default ones |
| `PmuRequests.GpSection` | scripts/lib/xpedite/pmu/pmuctrl.py:65-68 | the generic section is 64 bytes and reads back as the requests' events, then default ones |
| `PmuRequests.OffcoreSection` | scripts/lib/xpedite/pmu/pmuctrl.py:70-73 | the offcore section is 16 bytes and reads back as the requests' values, then default ones |
| `PmuRequests.ClassifyDefined` | scripts/lib/xpedite/pmu/pmuctrl.py:91-99 | classification succeeds exactly when every request is generic, offcore or fixed |
| `PmuRequests.Filter` | scripts/lib/xpedite/pmu/pmuctrl.py:91-97 | the requests of one class are a sub-list of the requests |
| `PmuRequests.ClassifyFilters` | scripts/lib/xpedite/pmu/pmuctrl.py:89-97 | each list receives exactly the requests of its class, in their order |
| `PmuRequests.FilterMembers` | scripts/lib/xpedite/pmu/pmuctrl.py:91-97 | a request is in a class's list exactly when it was built and is of that class |
| `PmuRequests.FilterSizes` | scripts/lib/xpedite/pmu/pmuctrl.py:91-97 | without an unknown class, every request lands in exactly one list |
| `PmuRequests.ResolveMeaning` | scripts/lib/xpedite/pmu/pmuctrl.py:76-100 | more than 11 events raise; otherwise resolution succeeds exactly when every request has a known class, and the lists are each class's requests in order |
| `PmuRequests.RequestsAppend` | scripts/lib/xpedite/pmu/pmuctrl.py:89-90 | the requests of two runs of events are those of each run |
| `PmuRequests.ClassifyAppendNone` | scripts/lib/xpedite/pmu/pmuctrl.py:98-99 | once a request of no known class is met, classification fails however the run goes on |
| `PmuRequests.ClassifyNext` | scripts/lib/xpedite/pmu/pmuctrl.py:91-97 | classifying one more request adds it to its class's list |
| `PmuRequests.RequestsSnoc` | scripts/lib/xpedite/pmu/pmuctrl.py:89-90 | the requests of one more event follow those before it |
| `PmuRequests.RequestsSplit` | scripts/lib/xpedite/pmu/pmuctrl.py:89-90 | the requests of all events are those of a prefix, then the rest |
| `PmuRequests.FailedPrefix` | scripts/lib/xpedite/pmu/pmuctrl.py:98-99 | a request of no known class makes resolution raise |
| `PmuRequests.EmitFrom` | scripts/lib/xpedite/pmu/pmuctrl.py:137-144 | the loop from cpu i on packs cpu i's group, writes it, and goes on only when the device accepts it |
| `PmuRequests.EmitPackFails` | scripts/lib/xpedite/pmu/pmuctrl.py:138 | a group that cannot be packed stops the loop before anything more is written |
| `PmuRequests.EmitRefused` | scripts/lib/xpedite/pmu/pmuctrl.py:143-144 | a group the device refuses is written and the flush raises, so the loop stops right after it |
| `PmuRequests.EmitAdvance` | scripts/lib/xpedite/pmu/pmuctrl.py:137-144 | a group the device accepts is written and the loop goes on with the next cpu |
| `PmuRequests.EmitMeaning` | scripts/lib/xpedite/pmu/pmuctrl.py:137-144 | the k-th group written is the k-th cpu's; the loop completes exactly when every cpu got its group and the device accepted each; otherwise it stops at the first cpu whose group cannot be packed, or right after the first group the device refuses |
| `PmuRequests.EmitAccepted` | scripts/lib/xpedite/pmu/pmuctrl.py:137-144 | with sized masks, fitting sections and byte-sized cpu ids no group fails to pack: every group written is of the request size and addressed to its cpu, and only a device refusal can stop the loop |
| `PmuRequests.EventState.constructor` | scripts/lib/xpedite/pmu/pmuctrl.py:88 | a new event state has the cpus and no requests |
| `PmuRequests.EventState.AddGenericPmuRequest` | scripts/lib/xpedite/pmu/pmuctrl.py:93 | appends to the generic list only |
| `PmuRequests.EventState.AddOffcorePmuRequest` | scripts/lib/xpedite/pmu/pmuctrl.py:95 | appends to the offcore list only |
| `PmuRequests.EventState.AddFixedPmuRequest` | scripts/lib/xpedite/pmu/pmuctrl.py:97 | appends to the fixed list only |
| `PmuRequests.BuildRequestGroup` | scripts/lib/xpedite/pmu/pmuctrl.py:49-74 | the header and the three padded sections, or the `struct.pack` error |
| `PmuRequests.RequestGroup` | scripts/lib/xpedite/pmu/pmuctrl.py:49-74 | a group is packed only for a cpu that fits a byte, and it starts with that byte |
| `PmuRequests.AppendSection` | scripts/lib/xpedite/pmu/pmuctrl.py:60-63 | a loop over the requests' masks, then a loop of default masks up to the slot count |
| `PmuRequests.PMUCtrl.constructor` | scripts/lib/xpedite/pmu/pmuctrl.py:32-34 | nothing has been written to the device |
| `PmuRequests.PMUCtrl.ResolveEvents` | scripts/lib/xpedite/pmu/pmuctrl.py:76-100 | the exception resolution raises, or a fresh event state holding the classified requests |
| `PmuRequests.Resolve` | scripts/lib/xpedite/pmu/pmuctrl.py:84-100 | resolution succeeds only for at most 11 events |
| `PmuRequests.PMUCtrl.Enable` | scripts/lib/xpedite/pmu/pmuctrl.py:124-145 | refuses without a device; resolution and allocation errors write nothing; otherwise one group per cpu is written, stopping at the first that cannot be packed or right after the first the device refuses, with the struct error or the IOError raised |
| `PmuRequests.PMUCtrl.WriteGroups` | scripts/lib/xpedite/pmu/pmuctrl.py:137-144 | appends exactly the groups the emission gives, the refused one included, and returns the exception that stopped the loop, if any |
| `PmuRequests.PMUCtrl.WriteGroup` | scripts/lib/xpedite/pmu/pmuctrl.py:135-144 | one turn of the loop: a group that cannot be packed raises and is not written; otherwise it is written, and the flush raises exactly when the device refuses it |
| `PmuRequests.Emit` | scripts/lib/xpedite/pmu/pmuctrl.py:134-144 | at most one group per cpu is written, and one for every cpu when nothing stops the loop |
| `PmuRequests.InactiveBytesRefused` | ko/PMUCtrl.c:315-318 | the kernel refuses a request image whose cpu byte names a cpu that is not online |
| `PmuRequests.InactiveCpuRefused` | scripts/lib/xpedite/pmu/pmuctrl.py:49-74 | a group for a cpu that is not online packs, and the kernel refuses it |
| `PmuRequests.EmitStopsAtInactiveCpu` | scripts/lib/xpedite/pmu/pmuctrl.py:134-144 | enabling stops with the device error at the first cpu that is not online, after writing at most the groups up to that cpu |
| `PmuRequests.AddRequests` | scripts/lib/xpedite/pmu/pmuctrl.py:91-99 | each request goes to its class's list; a request of no known class stops with failure |
| `PmuRequests.AllocateEvents` | scripts/lib/xpedite/pmu/pmuctrl.py:103-122 | the sorter's answer replaces non-empty generic requests when it is non-empty and as long; otherwise it is a failure that changes nothing; fixed and offcore requests are untouched |
| `PmuRequests.Allocated` | scripts/lib/xpedite/pmu/pmuctrl.py:103-122 | allocation keeps the fixed and offcore requests and the number of generic ones, and changes nothing when there are no generic requests |
| `EventsLoader.ParseAll` | scripts/lib/xpedite/pmu/eventsLoader.py:94 | when every piece parses, one integer per piece |
| `EventsLoader.ParseAllMeaning` | scripts/lib/xpedite/pmu/eventsLoader.py:94 | the generator succeeds exactly when every piece parses, and then holds each piece's integer at its position |
| `EventsLoader.Shown` | scripts/lib/xpedite/pmu/eventsLoader.py:94 | one printed integer per integer |
| `EventsLoader.ParseShown` | scripts/lib/xpedite/pmu/eventsLoader.py:94 | printed integers parse back to themselves |
| `EventsLoader.NotInShowInt` | scripts/lib/xpedite/pmu/eventsLoader.py:94 | a character that is neither a digit nor a sign never occurs in a printed integer |
| `EventsLoader.NotInJoin` | scripts/lib/xpedite/pmu/eventsLoader.py:94 | a character in neither the pieces nor the separator is not in their join |
| `EventsLoader.ShownPieces` | scripts/lib/xpedite/pmu/eventsLoader.py:93-94 | the printed pieces hold no comma, and their join holds no quote |
| `EventsLoader.DecodePmcListRoundTrip` | scripts/lib/xpedite/pmu/eventsLoader.py:91-94 | `decodePmcList` reads a printed counter list, quoted or not, back as the set of its integers |
| `EventsLoader.DecodePmcList` | scripts/lib/xpedite/pmu/eventsLoader.py:91-94 | a decoded counter list is never empty, since splitting always yields a piece |
| `EventsLoader.JoinNonEmpty` | scripts/lib/xpedite/pmu/eventsLoader.py:131 | a join of non-empty pieces is non-empty |
| `EventsLoader.HexValuesRoundTrip` | scripts/lib/xpedite/pmu/eventsLoader.py:131 | the offcore converter reads a printed list of hex event codes back, in order |
| `EventsLoader.FixedCounterRoundTrip` | scripts/lib/xpedite/pmu/eventsLoader.py:124-125 | the fixed-counter converter reads 'Fixed counter n' as n |
| `EventsLoader.FixedCounterWithoutPrefix` | scripts/lib/xpedite/pmu/eventsLoader.py:124-125 | a text without the prefix makes the fixed-counter converter raise |
| `EventsLoader.SplitAtPrefix` | scripts/lib/xpedite/pmu/eventsLoader.py:124 | a text starting with the separator splits into an empty piece and the pieces of the rest |
| `EventsLoader.FindAbsent` | scripts/lib/xpedite/pmu/eventsLoader.py:124 | a text without the separator's first character has no occurrence of it |
| `EventsLoader.BuildOk` | scripts/lib/xpedite/pmu/eventsLoader.py:50-55 | `build` finishes exactly when the converter of every registered field accepts its value |
| `EventsLoader.BuildKeeps` | scripts/lib/xpedite/pmu/eventsLoader.py:50-55 | an attribute no registered field sets keeps its value, or its absence |
| `EventsLoader.BuildSets` | scripts/lib/xpedite/pmu/eventsLoader.py:29-31 | when `build` finishes, a registered field's attribute holds the field's converted value unless a later field sets it again |
| `EventsLoader.UarchEvent.constructor` | scripts/lib/xpedite/pmu/eventsLoader.py:139 | an event has its class and the attributes its constructor sets |
| `EventsLoader.ObjectFactory.constructor` | scripts/lib/xpedite/pmu/eventsLoader.py:36-37 | a new factory has no initializers |
| `EventsLoader.ObjectFactory.Add` | scripts/lib/xpedite/pmu/eventsLoader.py:39-48 | registers a field's initializer, replacing any earlier one for that field |
| `EventsLoader.ObjectFactory.Build` | scripts/lib/xpedite/pmu/eventsLoader.py:50-55 | sets the event's attributes as the specification of `build` gives, and reports whether a converter raised |
| `EventsLoader.FactoriesDiffer` | scripts/lib/xpedite/pmu/eventsLoader.py:121-132 | the fixed and offcore factories register the generic fields and differ only in the counter fields or the event code |
| `EventsLoader.JsonGenericCoreFactory` | scripts/lib/xpedite/pmu/eventsLoader.py:97-118 | a fresh factory with the generic initializers |
| `EventsLoader.JsonFixedCoreFactory` | scripts/lib/xpedite/pmu/eventsLoader.py:121-126 | a fresh factory with the fixed initializers |
| `EventsLoader.JsonOffCoreFactory` | scripts/lib/xpedite/pmu/eventsLoader.py:128-132 | a fresh factory with the offcore initializers |
| `EventsLoader.Lookup` | scripts/lib/xpedite/pmu/eventsLoader.py:136 | a value exactly when the record has the field, and then that field's value |
| `EventsLoader.IsOffcoreEventRecord` | scripts/lib/xpedite/pmu/eventsLoader.py:146-150 | a record is judged not offcore only when it names an event other than OFFCORE_RESPONSE; a record with neither flag nor name raises |
| `EventsLoader.JsonFactoryKind` | scripts/lib/xpedite/pmu/eventsLoader.py:134-144 | a factory is chosen only when the offcore test completes, and a non-offcore one only for a record with a Counter field |
| `EventsLoader.OffcoreMeaning` | scripts/lib/xpedite/pmu/eventsLoader.py:146-150 | an offcore record has a nonzero integer flag, or no or a zero flag and the name OFFCORE_RESPONSE; a non-numeric flag raises |
| `EventsLoader.FactoryChoice` | scripts/lib/xpedite/pmu/eventsLoader.py:134-144 | the offcore factory for offcore records, then the fixed one for a counter named 'Fixed counter ...', the generic one otherwise |
| `EventsLoader.JsonFactory` | scripts/lib/xpedite/pmu/eventsLoader.py:134-144 | the chosen class and a fresh factory with its initializers, or the exception the tests raise |
| `EventsLoader.Outcomes` | scripts/lib/xpedite/pmu/eventsLoader.py:165-176 | one outcome per record |
| `EventsLoader.Outcome` | scripts/lib/xpedite/pmu/eventsLoader.py:166-176 | a loaded event has the class the factory test chooses, and a record that test rejects is incompatible |
| `EventsLoader.Finish` | scripts/lib/xpedite/pmu/eventsLoader.py:179-183 | the database is returned exactly when no event is uninitialized and no record incompatible; uninitialized events are reported first |
| `EventsLoader.LoadAccounting` | scripts/lib/xpedite/pmu/eventsLoader.py:165-176 | every record counts once as loaded, uninitialized or incompatible, and the database has at most as many events as were loaded |
| `EventsLoader.CollectOk` | scripts/lib/xpedite/pmu/eventsLoader.py:179-183 | the loop ends with a database exactly when every record loads |
| `EventsLoader.LoadJsonOk` | scripts/lib/xpedite/pmu/eventsLoader.py:152-183 | `loadJson` returns a database exactly when every record loads |
| `EventsLoader.LoadedNames` | scripts/lib/xpedite/pmu/eventsLoader.py:176 | a name is in the database exactly when some record loads an event of that name |
| `EventsLoader.LastWins` | scripts/lib/xpedite/pmu/eventsLoader.py:176 | the event kept under a name is that of the last record loading that name |
| `EventsLoader.LoadRecord` | scripts/lib/xpedite/pmu/eventsLoader.py:166-175 | the outcome of one record, and for a loaded one a fresh event of its class and attributes |
| `EventsLoader.OutcomesSnoc` | scripts/lib/xpedite/pmu/eventsLoader.py:165 | visiting one more record appends its outcome |
| `EventsLoader.Keep` | scripts/lib/xpedite/pmu/eventsLoader.py:168-176 | an incompatible record or uninitialized event joins its list, a loaded event is stored under its name, and every other entry is kept |
| `EventsLoader.LoadJson` | scripts/lib/xpedite/pmu/eventsLoader.py:152-183 | raises exactly what the specification raises; otherwise holds one fresh event per name, with the attributes the specification gives |
| `EventsLoader.LoadRecords` | scripts/lib/xpedite/pmu/eventsLoader.py:165-176 | after the loop the event map and both lists stand for the database the outcomes of all records build, and every stored event is fresh |
| `Sorting.InsertBy` | scripts/lib/xpedite/transaction.py:128 | inserting adds exactly one element |
| `Sorting.SortBy` | scripts/lib/xpedite/transaction.py:128 | sorting keeps the length |
| `Sorting.InsertByPermutes` | scripts/lib/xpedite/transaction.py:128 | inserting adds exactly the inserted element to the multiset |
| `Sorting.InsertByBound` | scripts/lib/xpedite/transaction.py:128 | inserting an element whose key is at least a bound keeps every key at least that bound |
| `Sorting.InsertBySorted` | scripts/lib/xpedite/transaction.py:128 | inserting into an ordered list keeps it ordered |
| `Sorting.SortByMeaning` | scripts/lib/xpedite/transaction.py:128 | `sorted(xs, key)` is ordered by the key and is a permutation of `xs` |
| `Sorting.SortBySorted` | scripts/lib/xpedite/transaction.py:59 | sorting an ordered list changes nothing |
| `Sorting.InsertByElement` | scripts/lib/xpedite/transaction.py:59 | an element of an insertion is the inserted one or an old one |
| `Sorting.InsertByDistinct` | scripts/lib/xpedite/transaction.py:59 | inserting an element with a new identity keeps identities distinct |
| `Sorting.SortByDistinct` | scripts/lib/xpedite/transaction.py:59-61 | sorting keeps distinct identities distinct |
| `Sorting.InsertByStable` | scripts/lib/xpedite/transaction.py:128 | an inserted element lands before every element of the same key |
| `Sorting.SortByStable` | scripts/lib/xpedite/transaction.py:128 | `sorted` is stable: the elements of each key appear in their input order |
| `Transactions.NewTransaction` | scripts/lib/xpedite/transaction.py:101-108 | a new transaction holds just its first counter and id, with no end probe and nothing finalized |
| `Transactions.AddCounter` | scripts/lib/xpedite/transaction.py:110-119 | appends the counter; the end-probe flag becomes the old flag or the new one, so it is never cleared; nothing else changes |
| `Transactions.AddCounters` | scripts/lib/xpedite/transaction.py:110-119 | adding several counters appends them in order and changes nothing else |
| `Transactions.Join` | scripts/lib/xpedite/transaction.py:121-128 | the counters of both transactions, ordered by tsc and as a permutation; id and flags of `self` are kept |
| `Transactions.MinIndex` | scripts/lib/xpedite/transaction.py:172 | `min(key=tsc)`: the first counter with the smallest tsc |
| `Transactions.MaxIndex` | scripts/lib/xpedite/transaction.py:173 | `max(key=tsc)`: the first counter with the largest tsc |
| `Transactions.Finalize` | scripts/lib/xpedite/transaction.py:166-176 | begin and end are counters of the transaction bounding every tsc; route and probe map come from the index; nothing else changes |
| `Transactions.ElapsedTscIsSpread` | scripts/lib/xpedite/transaction.py:162-176 | after `finalize` the elapsed tsc is never negative and every counter lies within it |
| `Transactions.GetElapsedTsc` | scripts/lib/xpedite/transaction.py:162-164 | the elapsed tsc is non-negative exactly when the end is not before the begin, and it bounds the offset from the begin of every counter between them |
| `Transactions.HasProbes` | scripts/lib/xpedite/transaction.py:139-149 | true exactly when every given probe is in the probe map |
| `Transactions.CloneMetaData` | scripts/lib/xpedite/transaction.py:44-46 | an empty sub collection with the same name, cpu info, probes, metrics and events |
| `Transactions.CloneKeepsOnlyMetaData` | scripts/lib/xpedite/transaction.py:44-46 | a clone depends only on the meta data, and cloning a clone changes nothing |
| `Transactions.Find` | scripts/lib/xpedite/transaction.py:59 | the first entry with the key, or none exactly when no entry has it |
| `Transactions.Put` | scripts/lib/xpedite/transaction.py:59 | a dictionary store: an existing key keeps its place, a new key goes last |
| `Transactions.OrderedDictOfUnique` | scripts/lib/xpedite/transaction.py:59-61 | with unique keys, building the `OrderedDict` keeps every entry in order, so the size check never raises |
| `Transactions.FinalizeAll` | scripts/lib/xpedite/transaction.py:57-58 | every transaction of the map is finalized, in the same order |
| `Transactions.TransactionCollection.constructor` | scripts/lib/xpedite/transaction.py:54-66 | the transactions are finalized and ordered by begin tsc, as a permutation with unique ids and none lost, and the meta data is kept |
| `TransactionLoaders.CountersInAppend` | scripts/lib/xpedite/transactionLoader.py:69-72 | a transaction appended to a list adds its counters to the count |
| `TransactionLoaders.CountersInUpdate` | scripts/lib/xpedite/transactionLoader.py:69-70 | replacing one transaction changes the count by the difference of the sizes |
| `TransactionLoaders.HeldAdd` | scripts/lib/xpedite/transactionLoader.py:166 | a counter added to the open transaction is one more counter held |
| `TransactionLoaders.HeldAppendStart` | scripts/lib/xpedite/transactionLoader.py:169-170 | appending the open transaction and starting one with the counter holds one more |
| `TransactionLoaders.HeldCompromiseStart` | scripts/lib/xpedite/transactionLoader.py:172-174 | compromising the open transaction and starting one with the counter holds one more |
| `TransactionLoaders.IntactReplace` | scripts/lib/xpedite/transactionLoader.py:170 | opening a transaction that holds a counter keeps the loader invariant (unique keys, no empty transaction) |
| `TransactionLoaders.IntactCompromise` | scripts/lib/xpedite/transactionLoader.py:173-174 | compromising the open transaction keeps the loader invariant |
| `TransactionLoaders.AppendTo` | scripts/lib/xpedite/transactionLoader.py:62-72 | the key is present afterwards; the map grows by one exactly when the key was new and by none otherwise; other entries are untouched |
| `TransactionLoaders.AppendToUnique` | scripts/lib/xpedite/transactionLoader.py:69-72 | appending keeps the keys unique |
| `TransactionLoaders.AppendToNonEmpty` | scripts/lib/xpedite/transactionLoader.py:69-72 | appending a transaction that holds a counter leaves no transaction empty |
| `TransactionLoaders.AppendToCounters` | scripts/lib/xpedite/transactionLoader.py:69-72 | appending loses no counter: a join keeps the counters of both transactions |
| `TransactionLoaders.IntactAppend` | scripts/lib/xpedite/transactionLoader.py:62-72 | appending the open transaction keeps the loader invariant |
| `TransactionLoaders.AbstractEndLoadKeeps` | scripts/lib/xpedite/transactionLoader.py:105-109 | ending a load keeps every counter, the invariant and the loaded transactions, and leaves none open |
| `TransactionLoaders.AbstractTransactionLoader.constructor` | scripts/lib/xpedite/transactionLoader.py:41-48 | a new loader is in the state `reset` gives |
| `TransactionLoaders.AbstractTransactionLoader.Reset` | scripts/lib/xpedite/transactionLoader.py:41-48 | counts, lists and the map are emptied and no transaction is open |
| `TransactionLoaders.AbstractTransactionLoader.AppendTransaction` | scripts/lib/xpedite/transactionLoader.py:62-72 | the map becomes the join-or-insert of the transaction; nothing else changes |
| `TransactionLoaders.AbstractTransactionLoader.EndLoad` | scripts/lib/xpedite/transactionLoader.py:105-109 | an open transaction is moved to the compromised list |
| `TransactionLoaders.AbstractTransactionLoader.GetCount` | scripts/lib/xpedite/transactionLoader.py:117-119 | the number of loaded transactions plus one when a transaction is open |
| `TransactionLoaders.MarkCounter` | scripts/lib/xpedite/transactionLoader.py:136-148 | data shorter than 8 characters leaves the counter as it is; otherwise the parse fails exactly when the last 8 characters are not hex; probe and tsc never change |
| `TransactionLoaders.MarkCounterParsed` | scripts/lib/xpedite/transactionLoader.py:136-148 | when the data is any payload followed by 8 characters that parse with `int(…, 16)` to an id, the counter is marked with that id and keeps the payload as its data |
| `TransactionLoaders.MarkCounterReadsId` | scripts/lib/xpedite/transactionLoader.py:144-147 | a payload followed by 8 hex digits of an id gives that id and leaves the payload as data |
| `TransactionLoaders.Counted` | scripts/lib/xpedite/transactionLoader.py:158 | the processed count grows by one and nothing else in the loader state changes (the same step opens the bounded loader's `loadCounter`, line 238) |
| `TransactionLoaders.ContinueAccounts` | scripts/lib/xpedite/transactionLoader.py:160-180 | with a transaction open, a counter is held once more, or nothing changes when marking raised |
| `TransactionLoaders.ContinueIntact` | scripts/lib/xpedite/transactionLoader.py:160-180 | with a transaction open, loading a counter keeps the loader invariant |
| `TransactionLoaders.StartAccounts` | scripts/lib/xpedite/transactionLoader.py:181-184 | with no transaction open, a counter is held once more, or nothing changes when marking raised |
| `TransactionLoaders.ChaoticLoadAccounts` | scripts/lib/xpedite/transactionLoader.py:150-184 | every call adds one to the processed count; a success holds exactly one more counter; a raise changes nothing else; the invariant is kept |
| `TransactionLoaders.ChaoticLoad` | scripts/lib/xpedite/transactionLoader.py:150-184 | every counter loaded is counted as processed, and when marking raises nothing else changes |
| `TransactionLoaders.ChaoticLoadPlaces` | scripts/lib/xpedite/transactionLoader.py:158-184 | the counter ends up in exactly one place: last in the open transaction (possibly new), or the one new loose counter |
| `TransactionLoaders.ChaoticDistortion` | scripts/lib/xpedite/transactionLoader.py:164-178 | the distortion count stays at most 2; an explicit probe without an id sets it to 2; appending needs it at 0; compromising needs it positive and takes one off |
| `TransactionLoaders.ChaoticEndLoadKeeps` | scripts/lib/xpedite/transactionLoader.py:186-194 | every counter and the invariant are kept; nothing is left open and no distortion is pending |
| `TransactionLoaders.ChaoticEndLoad` | scripts/lib/xpedite/transactionLoader.py:186-194 | no transaction is left open, no distortion is pending, and the processed count is unchanged |
| `TransactionLoaders.ChaoticEndLoadRule` | scripts/lib/xpedite/transactionLoader.py:186-194 | with no distortion pending the open transaction is appended to (or joined into) the transactions; otherwise it is appended to the compromised transactions; with nothing open the loader is unchanged |
| `TransactionLoaders.ChaoticTransactionLoader.constructor` | scripts/lib/xpedite/transactionLoader.py:124-134 | a new chaotic loader has the reset state and a distortion count of 0 |
| `TransactionLoaders.ChaoticTransactionLoader.LoadCounter` | scripts/lib/xpedite/transactionLoader.py:150-184 | the new state is `loadCounter`'s step, and `ok` is false when marking raised |
| `TransactionLoaders.ChaoticTransactionLoader.Continue` | scripts/lib/xpedite/transactionLoader.py:160-180 | the step taken while a transaction is open |
| `TransactionLoaders.ChaoticTransactionLoader.Start` | scripts/lib/xpedite/transactionLoader.py:181-184 | the step taken with no transaction open |
| `TransactionLoaders.ChaoticTransactionLoader.EndLoad` | scripts/lib/xpedite/transactionLoader.py:186-194 | the new state is the chaotic end of load |
| `TransactionLoaders.NextTransaction` | scripts/lib/xpedite/transactionLoader.py:280-296 | a one-counter transaction without end probe: a resuming counter keys it by its data, any other by the next fragment id; suspending is cleared |
| `TransactionLoaders.BoundedAppendAssigns` | scripts/lib/xpedite/transactionLoader.py:225-228 | unless resuming or suspending, the transaction is appended under `nextTxnId + 1`, so ids stay strictly increasing; otherwise nothing is loaded |
| `TransactionLoaders.BoundedAppend` | scripts/lib/xpedite/transactionLoader.py:218-228 | the next id grows by at most one, the loaded list by at most one transaction, and the open transaction is untouched |
| `TransactionLoaders.HeldTransactions` | scripts/lib/xpedite/transactionLoader.py:69-72 | what is held counts the loaded transactions through their counters |
| `TransactionLoaders.BoundedAppendHeld` | scripts/lib/xpedite/transactionLoader.py:218-228 | appending keeps every counter |
| `TransactionLoaders.BoundedAppendIntact` | scripts/lib/xpedite/transactionLoader.py:218-228 | appending a transaction that holds a counter keeps the bounded invariant |
| `TransactionLoaders.HeldReplace` | scripts/lib/xpedite/transactionLoader.py:247 | replacing the open transaction changes what is held by the difference of the sizes |
| `TransactionLoaders.BoundedFlushIntact` | scripts/lib/xpedite/transactionLoader.py:243-245 | turning the waiting counters loose keeps the bounded invariant |
| `TransactionLoaders.NextTransactionIntact` | scripts/lib/xpedite/transactionLoader.py:280-296 | building a transaction keeps the bounded invariant |
| `TransactionLoaders.BoundedReplaceIntact` | scripts/lib/xpedite/transactionLoader.py:247 | opening a transaction that holds a counter keeps the bounded invariant |
| `TransactionLoaders.BoundedCloseAccounts` | scripts/lib/xpedite/transactionLoader.py:241-247 | closing holds one more counter, turns the waiting counters loose and opens a transaction of the one counter |
| `TransactionLoaders.BoundedCloseAppends` | scripts/lib/xpedite/transactionLoader.py:225-228 | the closed transaction is loaded under the next id unless resuming or suspending |
| `TransactionLoaders.BoundedCloseIntact` | scripts/lib/xpedite/transactionLoader.py:241-247 | closing keeps the bounded invariant |
| `TransactionLoaders.BoundedContinueHeld` | scripts/lib/xpedite/transactionLoader.py:240-264 | with a transaction open, the counter is held |
| `TransactionLoaders.BoundedContinueIntact` | scripts/lib/xpedite/transactionLoader.py:240-264 | with a transaction open, loading keeps the bounded invariant |
| `TransactionLoaders.BoundedStartKeeps` | scripts/lib/xpedite/transactionLoader.py:265-278 | with no transaction open, the counter is held and the invariant kept |
| `TransactionLoaders.BoundedCountedKeeps` | scripts/lib/xpedite/transactionLoader.py:238 | counting a counter keeps what is held and the invariant |
| `TransactionLoaders.BoundedLoadAccounts` | scripts/lib/xpedite/transactionLoader.py:230-278 | every call adds one to the processed count and holds exactly one more counter |
| `TransactionLoaders.BoundedLoad` | scripts/lib/xpedite/transactionLoader.py:230-278 | every counter loaded is counted as processed |
| `TransactionLoaders.BoundedLoadIntact` | scripts/lib/xpedite/transactionLoader.py:230-278 | `loadCounter` keeps ids increasing and no transaction empty |
| `TransactionLoaders.BoundedEndWithoutBegin` | scripts/lib/xpedite/transactionLoader.py:271-276 | an end probe with nothing open makes a compromised transaction of its counter and the waiting ones, and empties the waiting list |
| `TransactionLoaders.BoundedEndCloses` | scripts/lib/xpedite/transactionLoader.py:250-259 | an end or suspend probe takes the waiting counters and its own into the open transaction and marks it ended; a suspend probe sets `suspendingTxn` |
| `TransactionLoaders.BoundedAfterEnd` | scripts/lib/xpedite/transactionLoader.py:241-264 | after the end probe a begin probe loads the open transaction under the next id and opens a new one; a plain counter waits |
| `TransactionLoaders.BoundedEndLoadAccounts` | scripts/lib/xpedite/transactionLoader.py:298-305 | `endLoad` keeps every counter and leaves nothing open |
| `TransactionLoaders.BoundedEndLoad` | scripts/lib/xpedite/transactionLoader.py:298-305 | no transaction is left open, and at most one more id is assigned |
| `TransactionLoaders.BoundedEndLoadIntact` | scripts/lib/xpedite/transactionLoader.py:298-305 | `endLoad` keeps the bounded invariant |
| `TransactionLoaders.BoundedEndLoadRule` | scripts/lib/xpedite/transactionLoader.py:298-305 | the open transaction is loaded under the next id iff it has ended, and compromised iff it has not |
| `TransactionLoaders.BoundedTransactionLoader.constructor` | scripts/lib/xpedite/transactionLoader.py:199-216 | a new bounded loader has the reset state, zero ids, no fragment and is not suspending; the invariant holds |
| `TransactionLoaders.BoundedTransactionLoader.AppendTransaction` | scripts/lib/xpedite/transactionLoader.py:218-228 | the new state is the bounded append |
| `TransactionLoaders.BoundedTransactionLoader.BuildTransaction` | scripts/lib/xpedite/transactionLoader.py:280-296 | returns the transaction and state `NextTransaction` gives |
| `TransactionLoaders.BoundedTransactionLoader.LoadCounter` | scripts/lib/xpedite/transactionLoader.py:230-278 | the new state is `loadCounter`'s step |
| `TransactionLoaders.BoundedTransactionLoader.Continue` | scripts/lib/xpedite/transactionLoader.py:240-264 | the step taken while a transaction is open |
| `TransactionLoaders.BoundedTransactionLoader.Close` | scripts/lib/xpedite/transactionLoader.py:241-247 | closing the open transaction for a begin or resume counter |
| `TransactionLoaders.BoundedTransactionLoader.Start` | scripts/lib/xpedite/transactionLoader.py:265-278 | the step taken with no transaction open |
| `TransactionLoaders.BoundedTransactionLoader.EndLoad` | scripts/lib/xpedite/transactionLoader.py:298-305 | the new state is the bounded end of load |
| `Histograms.BisectFrom` | scripts/lib/xpedite/report/histogram.py:138 | the binary search of `bisect_left` stays between `lo` and `hi` |
| `Histograms.BisectLeft` | scripts/lib/xpedite/report/histogram.py:138 | `bisect_left` yields an index of at most the list's length |
| `Histograms.BisectFromFinds` | scripts/lib/xpedite/report/histogram.py:138 | on sorted boundaries everything before the index is below the value and everything from it on is at least the value |
| `Histograms.BisectLeftFinds` | scripts/lib/xpedite/report/histogram.py:138 | `bisect_left` on sorted buckets is the first index whose bucket is at least the value |
| `Histograms.Slot` | scripts/lib/xpedite/report/histogram.py:138-142 | every value is counted in a bucket that exists |
| `Histograms.Tallies` | scripts/lib/xpedite/report/histogram.py:135 | there is one count per bucket |
| `Histograms.Tally` | scripts/lib/xpedite/report/histogram.py:137-143 | a bucket counts at most every value |
| `Histograms.Conflated` | scripts/lib/xpedite/report/histogram.py:141-143 | at most every value is conflated |
| `Histograms.Distribution` | scripts/lib/xpedite/report/histogram.py:127-144 | the result exists unless a value meets an empty list of buckets, and then has one count per bucket |
| `Histograms.TalliesAppend` | scripts/lib/xpedite/report/histogram.py:137-143 | one more value adds one to the count of its bucket only, and to the conflated count iff it lies beyond the last bucket |
| `Histograms.BuildDistribution` | scripts/lib/xpedite/report/histogram.py:127-144 | the loop's counts and conflated count are those of the distribution, and the empty-bucket case raises |
| `Histograms.Place` | scripts/lib/xpedite/report/histogram.py:138-143 | one value raises the count of its bucket, or of the last bucket when it lies beyond them all, and reports whether it was beyond |
| `Histograms.SumUpdate` | scripts/lib/xpedite/report/histogram.py:140-142 | raising one count changes the total by the same amount |
| `Histograms.TalliesSum` | scripts/lib/xpedite/report/histogram.py:137-143 | for non-empty buckets the counts add up to the number of values |
| `Histograms.ZeroSum` | scripts/lib/xpedite/report/histogram.py:135 | the initial counts add up to 0 |
| `Histograms.SlotMeaning` | scripts/lib/xpedite/report/histogram.py:138-143 | on sorted buckets a value goes to the first bucket at least its size, and a value beyond the last bucket to the last bucket |
| `Histograms.ConflatedCountsAbove` | scripts/lib/xpedite/report/histogram.py:141-143 | on sorted buckets the conflated count is the number of values greater than the last bucket |
| `Histograms.FirstOverlongMeaning` | scripts/lib/xpedite/report/histogram.py:71-74 | the index found is the first series longer than the ticks; none is found iff every series fits |
| `Histograms.FirstOverlong` | scripts/lib/xpedite/report/histogram.py:71-74 | an index found names a series longer than the ticks |
| `Histograms.CheckSeriesLengths` | scripts/lib/xpedite/report/histogram.py:71-74 | raises, with the index in the message, exactly when some series is longer than the ticks, and for the first such series |
| `Analytics.MergeNothing` | scripts/lib/xpedite/analytics/__init__.py:50 | an empty benchmark map changes no bundle |
| `Analytics.Merge` | scripts/lib/xpedite/analytics/__init__.py:51-60 | the categories are the old ones, plus the map's only for the current run, and every existing bundle is only extended |
| `Analytics.FoldStep` | scripts/lib/xpedite/analytics/__init__.py:41-60 | the bundles after one more collection are the old bundles merged with its map |
| `Analytics.Fold` | scripts/lib/xpedite/analytics/__init__.py:41-60 | after every collection the categories are exactly the current run's |
| `Analytics.ElapsedTimeBundles` | scripts/lib/xpedite/analytics/__init__.py:31-72 | raises exactly when the current run's map is empty; otherwise the categories are the current run's |
| `Analytics.AbsorbStep` | scripts/lib/xpedite/analytics/__init__.py:51-60 | one more category of a map merged in: appended to its bundle, started by collection 0, or dropped |
| `Analytics.AbsorbAll` | scripts/lib/xpedite/analytics/__init__.py:51-60 | once every category is merged in, the bundles are the merge of the map |
| `Analytics.MergeCollection` | scripts/lib/xpedite/analytics/__init__.py:51-60 | the inner loop's bundles are the merge of the collection's map |
| `Analytics.BuildElapsedTimeBundles` | scripts/lib/xpedite/analytics/__init__.py:31-72 | the loop's result is the bundles of the collections in order, or the exception for an empty current run |
| `Analytics.FoldAt` | scripts/lib/xpedite/analytics/__init__.py:50-60 | a category has a bundle iff collection 0 has it, and its bundle is the lists of every collection that has it, in order |
| `Analytics.ColumnShape` | scripts/lib/xpedite/analytics/__init__.py:52-56 | a bundle holds at most one list per collection, and the first comes from collection 0 |
| `Analytics.ElapsedTimeBundlesMeaning` | scripts/lib/xpedite/analytics/__init__.py:31-72 | it raises iff collection 0's map is empty; the categories are exactly collection 0's; a bundle starts with collection 0's list and has at most one list per collection |
| `Analytics.Kept` | scripts/lib/xpedite/analytics/__init__.py:141-144 | filtering never adds transactions |
| `Analytics.KeptMeaning` | scripts/lib/xpedite/analytics/__init__.py:136-150 | a transaction remains iff it was there and passes the filter; the number removed is the number that fail it |
| `Analytics.Rejected` | scripts/lib/xpedite/analytics/__init__.py:141-144 | the rejected count is the number of transactions the filter did not keep |
| `Analytics.KeptUnique` | scripts/lib/xpedite/analytics/__init__.py:141-144 | survivors keep their ids, so the keys stay unique |
| `Analytics.KeptIdempotent` | scripts/lib/xpedite/analytics/__init__.py:141-144 | filtering twice removes nothing more |
| `Analytics.FilterCollection` | scripts/lib/xpedite/analytics/__init__.py:138-144 | the collection keeps exactly its transactions that pass the filter, and the count is the number removed |
| `Analytics.MapsOf` | scripts/lib/xpedite/analytics/__init__.py:137-138 | the dictionary of every collection, in order |
| `Analytics.NamesOf` | scripts/lib/xpedite/analytics/__init__.py:137-142 | the name of every collection, in order |
| `Analytics.TotalRejectedStep` | scripts/lib/xpedite/analytics/__init__.py:149 | the total after one more collection adds that collection's removed count |
| `Analytics.TotalRejected` | scripts/lib/xpedite/analytics/__init__.py:136-150 | collections without transactions remove nothing |
| `Analytics.FilterTransactions` | scripts/lib/xpedite/analytics/__init__.py:126-150 | every collection keeps exactly its transactions that pass the filter, and the total returned is the number removed across the collections |

## Left out

- Kernel device plumbing (`pmu_init`, `pmu_exit`, `pmu_open`, `pmu_release`, device registration, the mutex, `printk`, setting CR4.PCE): these are I/O and privileged side effects with no state the request path reads.
- `smp_call_function_single` and the clearing of other cores: cross-cpu concurrency. `processRequest` programs the target core's register file directly, and the failure of the call is the parameter `ipiFails`.
- `copy_from_user` is modelled only as its failure, the parameter `copyFails`.
- Which `wrmsr_safe` writes fault is hardware behaviour. Each core's register file takes it as an oracle.
- `PMUCtl::poll`, `enablePerfEvents`, `disablePerfEvents`, `attachPerfEvents`, and the lock-free side of `readPmc`: only declarations are available, so they have no behaviour to model.
- RDPMC and RDTSC are functions given as parameters.
- The `PMUCtl` constructor's body is not shown. The model's constructor takes the counter counts as parameters.
- `PerfEventAttrSet::buildPerfEventAttrs`, `toString` and the perf-event system calls: declared only.
- The capacity `XPEDITE_PMC_CTRL_CORE_EVENT_MAX` comes from a header outside this model, so it is a parameter.
- The text the formatters of `pmcrqToString` print: each formatter is a function from an event and the room it gets to `snprintf`'s return value. Only the buffer bookkeeping is modelled.
- The mask builders of the pmu request classes (`buildMask`, `defaultMask`) are abstract byte strings. The request factory over the events database is a function from an event to its requests. `RequestSorter.sort` is a function that may fail.
- `EventState` belongs to xpedite.pmu.event, which is not part of this model. Its `add*PmuRequest` methods are taken to append to their list, and its cpu set is a sequence.
- `PMUCtrl.__enter__` and `__exit__`: opening and closing the device file is I/O. Whether the device is open is a field, and the bytes written are recorded as a sequence.
- The device's answer to a written group is the parameter `accepts` of `enable`: whether the kernel's `pmu_write` returns the group's length, so that `flush` does not raise IOError. The kernel side of that answer is `PmuCtrl.Device.PmuWrite`; the profiler model takes the answer to depend on the group's bytes alone, not on the state of the machine at the time of the write.
- Logging (`LOGGER` calls) in every module, including the set of categories `buildElapsedTimeBundles` has warned about, which only suppresses repeated warnings.
- `EventsLoader.loadCsv`, and the reading and JSON decoding of the events file: `loadJson` is modelled over the list of records, each a sequence of text fields.
- The attributes `uarchEvent` objects set in their constructors and `unInitialized()` belong to xpedite.pmu.uarchEvent, which is not part of this model. They are parameters of the event classes. The field converters are values of the `Conversion` type.
- Text is ASCII: no Unicode handling of Python strings.
- `Transaction` is modelled as a value, not an object. `addCounter`, `join` and `finalize` return the updated transaction, so the model does not capture aliasing of one transaction object from several places, such as the fragment store.
- `ProbeMap` and `ProbeIndexFactory` are not part of this model. The probe map is a map from a counter's probe to its user probe, and `buildIndex` is a function parameter of `finalize`.
- The `Probe` and `Counter` classes are not part of this model. They are reduced to the attributes the loaders read.
- `TxnFragments` is not part of this model. `addResumeFragment` is a function giving the truthiness of the fragment it returns. `addSuspendFragment` and its link id do not change loader state and are not modelled. `endCollection` (the joining of fragments) is left out. The transactions `appendTransaction` leaves to the fragment store are recorded in `heldBack`, so that counter accounting stays exact.
- The loaders' `name`, `cpuInfo`, `probes`, `threadId`, `tlsAddr`, `report`, `beginCollection`, `beginLoad` and `getData`: these are bookkeeping and reporting with no effect on how transactions are built. `getData` builds a `TransactionCollection`, which is modelled on its own.
- A `ValueError` that `int(..., 16)` raises in `markCounter` is the `ok == false` result of `loadCounter`, and the state then keeps the already incremented processed count.
- `TransactionAggregator.groupElapsedTime` and `getSubCollection` are not part of this model. `buildElapsedTimeBundles` takes each collection's category map as input, and the exception's message text is a constant.
- The iteration order of a Python 2 dict (`iteritems`) is taken to be the order of the sequence representing it. In `filterTransactions` the map is an `OrderedDict`, whose Python 2.7 iterator survives deleting the entry it has just yielded, so deleting while iterating neither raises nor skips an entry and the model's result is what the program computes; the iterator mechanics themselves are not modelled.
- Floating-point histogram code (`buildBuckets`, `formatBuckets`, `formatLegend`, the bar offsets and widths of `buildFlotHistograms`): bucket boundaries and values are integers here.
- Analytics.FilterTransactions: requires the collections of the repository to be distinct objects. The source's repository holds each collection once.
