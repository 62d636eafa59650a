/**
 * Per-core programming of the performance-monitoring MSRs (ko/PMUArch.c).
 *
 * The core's model-specific registers are a map from MSR address to a 64-bit
 * value.  `wrmsr_safe` either performs a write or faults; which writes fault is
 * a property of the hardware, given to the model as an oracle.  Every helper of
 * the source becomes a method whose effect is stated against `Exec`, the
 * specification of "perform these writes in order, stop at the first fault".
 */
module PmuArch {

  /* Register and counter limits (ko/fwd.h:16-20). */
  const GP_EVENT_MAX: int := 8
  const FIXED_EVENT_MAX: int := 3
  const OFFCORE_EVENT_MAX: int := 2

  /* Linux error numbers used by the module. */
  const EIO: int := 5
  const ENXIO: int := 6
  const EFAULT: int := 14

  /* MSR addresses (ko/PMUArch.h:18-49). */
  const IA32_PEBS_ENABLE: int := 0x3F1
  const IA32_PERF_GLOBAL_CTRL: int := 0x38F
  const IA32_FIXED_CTR_CTRL: int := 0x38D
  const IA32_FIXED_CTR0: int := 0x309
  const IA32_FIXED_CTR1: int := 0x30A
  const IA32_FIXED_CTR2: int := 0x30B
  const PERF_EVT_SEL0: int := 0x186
  const IA32_PMC0: int := 0xC1
  const OFFCORE_RSP_0: int := 0x1A6

  /** One attempted `wrmsr_safe`: the address and the 64-bit value high:low. */
  datatype MsrWrite = MsrWrite(addr: int, value: bv64)

  /** The 64-bit value that `wrmsr_safe(msr, low, high)` stores. */
  function Msr64(low: bv32, high: bv32): bv64 {
    ((high as bv64) << 32) | (low as bv64)
  }

  /** The low and high 32-bit halves of a 64-bit value, as C's `(u32)v` and `v >> 32`. */
  function Low32(v: bv64): bv32 { (v & 0xFFFF_FFFF) as bv32 }
  function High32(v: bv64): bv32 { (v >> 32) as bv32 }

  /** Splitting a value into halves and writing them back as high:low gives the value. */
  lemma SplitJoin(v: bv64)
    ensures Msr64(Low32(v), High32(v)) == v
  {
  }

  /** Bit k of a 64-bit value. */
  predicate Bit(v: bv64, k: bv8)
    requires k < 64
  {
    (v >> k) & 1 == 1
  }

  /** The event set handed to a core for programming (ko/PMUArch.h:51-60). */
  datatype PMUEventSet = PMUEventSet(
    fixedEvtGlobalCtrl: bv8,
    fixedEvtSel: bv32,
    gpEvtCount: bv8,
    gpEvtSel: seq<bv32>,
    offcoreEvtCount: bv8,
    offcoreEvtSel: seq<bv64>,
    err: int)

  /** The fixed-size arrays of the C struct. */
  predicate WellFormed(es: PMUEventSet) {
    |es.gpEvtSel| == GP_EVENT_MAX && |es.offcoreEvtSel| == OFFCORE_EVENT_MAX
  }

  /** The set produced by `memset(&eventSet, 0, sizeof(eventSet))`. */
  function ZeroEventSet(): (es: PMUEventSet)
    ensures WellFormed(es)
  {
    PMUEventSet(0, 0, 0, seq(GP_EVENT_MAX, _ => 0), 0, seq(OFFCORE_EVENT_MAX, _ => 0), 0)
  }

  /** A core's registers after some writes, the error reported, and the log of every attempted write. */
  datatype Outcome = Outcome(err: int, msrs: map<int, bv64>, log: seq<MsrWrite>)

  /**
   * Performs `ws` in order on `m`, appending each attempt to the log `t`, and
   * stops at the first write that faults; a faulting write changes no register
   * and yields -EIO.
   */
  function Exec(faults: MsrWrite -> bool, m: map<int, bv64>, t: seq<MsrWrite>, ws: seq<MsrWrite>): (o: Outcome)
    ensures o.err == 0 || o.err == -EIO
    decreases |ws|
  {
    if ws == [] then Outcome(0, m, t)
    else if faults(ws[0]) then Outcome(-EIO, m, t + [ws[0]])
    else Exec(faults, m[ws[0].addr := ws[0].value], t + [ws[0]], ws[1..])
  }

  /**
   * The log of a run is the old log followed by the writes attempted: all of
   * them when no write faults, otherwise a prefix ending in the first faulting
   * one, every write before which succeeded.
   */
  lemma {:induction false} ExecLog(faults: MsrWrite -> bool, m: map<int, bv64>, t: seq<MsrWrite>, ws: seq<MsrWrite>)
    ensures var o := Exec(faults, m, t, ws);
      var n := |o.log| - |t|;
      && 0 <= n <= |ws| && o.log == t + ws[..n]
      && (o.err == 0 ==> n == |ws|)
      && (o.err != 0 ==> 0 < n && faults(ws[n - 1]))
      && (forall i :: 0 <= i < n && (o.err == 0 || i < n - 1) ==> !faults(ws[i]))
    decreases |ws|
  {
    if ws != [] && !faults(ws[0]) {
      var w, rest := ws[0], ws[1..];
      ExecLog(faults, m[w.addr := w.value], t + [w], rest);
      var o := Exec(faults, m, t, ws);
      var n := |o.log| - |t|;
      assert ws[..n] == [w] + rest[..n - 1];
      assert forall i :: 1 <= i < |ws| ==> ws[i] == rest[i - 1];
    }
  }

  /** Continues a run after `o` with `ws`, unless `o` already failed. */
  function Then(faults: MsrWrite -> bool, o: Outcome, ws: seq<MsrWrite>): Outcome {
    if o.err != 0 then o else Exec(faults, o.msrs, o.log, ws)
  }

  /** Running a concatenation is running its parts one after the other. */
  lemma {:induction false} ExecConcat(faults: MsrWrite -> bool, m: map<int, bv64>, t: seq<MsrWrite>, a: seq<MsrWrite>, b: seq<MsrWrite>)
    ensures Exec(faults, m, t, a + b) == Then(faults, Exec(faults, m, t, a), b)
    decreases |a|
  {
    if a == [] {
      assert a + b == b;
    } else {
      assert (a + b)[0] == a[0];
      assert (a + b)[1..] == a[1..] + b;
      if !faults(a[0]) {
        ExecConcat(faults, m[a[0].addr := a[0].value], t + [a[0]], a[1..], b);
      }
    }
  }

  /** A register that no write in `ws` names keeps its value, whether or not the run faults. */
  lemma {:induction false} ExecPreserves(faults: MsrWrite -> bool, m: map<int, bv64>, t: seq<MsrWrite>, ws: seq<MsrWrite>, a: int)
    requires forall j :: 0 <= j < |ws| ==> ws[j].addr != a
    ensures a in Exec(faults, m, t, ws).msrs <==> a in m
    ensures a in m ==> Exec(faults, m, t, ws).msrs[a] == m[a]
    decreases |ws|
  {
    if ws != [] && !faults(ws[0]) {
      assert forall j :: 0 <= j < |ws[1..]| ==> ws[1..][j] == ws[j + 1];
      ExecPreserves(faults, m[ws[0].addr := ws[0].value], t + [ws[0]], ws[1..], a);
    }
  }

  /** After a run without faults, a register holds the value of the last write that names it. */
  lemma {:induction false} ExecLastWrite(faults: MsrWrite -> bool, m: map<int, bv64>, t: seq<MsrWrite>, ws: seq<MsrWrite>, i: nat)
    requires i < |ws|
    requires Exec(faults, m, t, ws).err == 0
    requires forall j :: i < j < |ws| ==> ws[j].addr != ws[i].addr
    ensures ws[i].addr in Exec(faults, m, t, ws).msrs
    ensures Exec(faults, m, t, ws).msrs[ws[i].addr] == ws[i].value
    decreases |ws|
  {
    var m' := m[ws[0].addr := ws[0].value];
    assert forall j :: 0 <= j < |ws[1..]| ==> ws[1..][j] == ws[j + 1];
    if i == 0 {
      ExecPreserves(faults, m', t + [ws[0]], ws[1..], ws[0].addr);
    } else {
      ExecLastWrite(faults, m', t + [ws[0]], ws[1..], i - 1);
    }
  }

  /** After a run without faults of writes that all store 0, every register named holds 0. */
  lemma {:induction false} ExecZeroes(faults: MsrWrite -> bool, m: map<int, bv64>, t: seq<MsrWrite>, ws: seq<MsrWrite>, i: nat)
    requires i < |ws|
    requires Exec(faults, m, t, ws).err == 0
    requires forall j :: 0 <= j < |ws| ==> ws[j].value == 0
    ensures ws[i].addr in Exec(faults, m, t, ws).msrs && Exec(faults, m, t, ws).msrs[ws[i].addr] == 0
    decreases |ws|
  {
    var m' := m[ws[0].addr := ws[0].value];
    assert forall j :: 0 <= j < |ws[1..]| ==> ws[1..][j] == ws[j + 1];
    if i > 0 {
      ExecZeroes(faults, m', t + [ws[0]], ws[1..], i - 1);
    } else if k :| 0 <= k < |ws[1..]| && ws[1..][k].addr == ws[0].addr {
      ExecZeroes(faults, m', t + [ws[0]], ws[1..], k);
    } else {
      ExecPreserves(faults, m', t + [ws[0]], ws[1..], ws[0].addr);
    }
  }

  // ---------------------------------------------------------------------
  // The write sequences of the source, in the order the source issues them.
  // ---------------------------------------------------------------------

  /** resetFixedCounters: FIXED_CTR_CTRL, then FIXED_CTR0..2, all 0 (ko/PMUArch.c:37-47). */
  function FixedResetWrites(): seq<MsrWrite> {
    [MsrWrite(IA32_FIXED_CTR_CTRL, 0), MsrWrite(IA32_FIXED_CTR0, 0),
     MsrWrite(IA32_FIXED_CTR1, 0), MsrWrite(IA32_FIXED_CTR2, 0)]
  }

  /** resetGpCounters: PerfEvtSel_i then PMC_i for i = 0..7, interleaved (ko/PMUArch.c:49-60). */
  function GpResetWrites(): (ws: seq<MsrWrite>)
    ensures |ws| == 2 * GP_EVENT_MAX
  {
    seq(2 * GP_EVENT_MAX, k requires 0 <= k =>
      MsrWrite(if k % 2 == 0 then PERF_EVT_SEL0 + k / 2 else IA32_PMC0 + k / 2, 0))
  }

  /** resetOffcoreCounters: OFFCORE_RSP_0, OFFCORE_RSP_1 (ko/PMUArch.c:62-72). */
  function OffcoreResetWrites(): (ws: seq<MsrWrite>)
    ensures |ws| == OFFCORE_EVENT_MAX
  {
    seq(OFFCORE_EVENT_MAX, k => MsrWrite(OFFCORE_RSP_0 + k, 0))
  }

  /** The writes of resetGpCounters for counter i: PerfEvtSel_i at 2i, PMC_i at 2i+1. */
  lemma GpResetAt(i: nat)
    requires i < GP_EVENT_MAX
    ensures GpResetWrites()[2 * i] == MsrWrite(PERF_EVT_SEL0 + i, 0)
    ensures GpResetWrites()[2 * i + 1] == MsrWrite(IA32_PMC0 + i, 0)
  {
  }

  /** pmuClearEventSet: the full sequence of zero writes (ko/PMUArch.c:120-130). */
  function ClearWrites(): (ws: seq<MsrWrite>)
    ensures |ws| == 24
  {
    [MsrWrite(IA32_PERF_GLOBAL_CTRL, 0)] + [MsrWrite(IA32_PEBS_ENABLE, 0)]
      + FixedResetWrites() + GpResetWrites() + OffcoreResetWrites()
  }

  /** The registers pmuClearEventSet zeroes. */
  predicate Cleared(a: int) {
    a == IA32_PERF_GLOBAL_CTRL || a == IA32_PEBS_ENABLE || a == IA32_FIXED_CTR_CTRL
      || IA32_FIXED_CTR0 <= a <= IA32_FIXED_CTR2
      || PERF_EVT_SEL0 <= a < PERF_EVT_SEL0 + GP_EVENT_MAX
      || IA32_PMC0 <= a < IA32_PMC0 + GP_EVENT_MAX
      || OFFCORE_RSP_0 <= a < OFFCORE_RSP_0 + OFFCORE_EVENT_MAX
  }

  /** Every write of the clear sequence stores 0, into a register `Cleared` names. */
  lemma ClearWritesZero(j: nat)
    requires j < |ClearWrites()|
    ensures ClearWrites()[j].value == 0 && Cleared(ClearWrites()[j].addr)
  {
    var ws := ClearWrites();
    if 6 <= j < 22 {
      assert ws[j] == GpResetWrites()[j - 6];
    } else if 22 <= j {
      assert ws[j] == OffcoreResetWrites()[j - 22];
    }
  }

  /** Every register `Cleared` names is written by the clear sequence: the position of that write. */
  function ClearIndex(a: int): (j: nat)
    requires Cleared(a)
    ensures j < |ClearWrites()| && ClearWrites()[j] == MsrWrite(a, 0)
  {
    var ws := ClearWrites();
    if a == IA32_PERF_GLOBAL_CTRL then 0
    else if a == IA32_PEBS_ENABLE then 1
    else if a == IA32_FIXED_CTR_CTRL then 2
    else if IA32_FIXED_CTR0 <= a <= IA32_FIXED_CTR2 then 3 + (a - IA32_FIXED_CTR0)
    else if PERF_EVT_SEL0 <= a < PERF_EVT_SEL0 + GP_EVENT_MAX then
      var k := 2 * (a - PERF_EVT_SEL0);
      assert ws[6 + k] == GpResetWrites()[k];
      6 + k
    else if IA32_PMC0 <= a < IA32_PMC0 + GP_EVENT_MAX then
      var k := 2 * (a - IA32_PMC0) + 1;
      assert ws[6 + k] == GpResetWrites()[k];
      6 + k
    else
      assert ws[22 + (a - OFFCORE_RSP_0)] == OffcoreResetWrites()[a - OFFCORE_RSP_0];
      22 + (a - OFFCORE_RSP_0)
  }

  /** enableGpCounters: PerfEvtSel_i := gpEvtSel[i] for i < gpEvtCount (ko/PMUArch.c:82-93). */
  function GpEnableWrites(es: PMUEventSet): (ws: seq<MsrWrite>)
    requires WellFormed(es) && es.gpEvtCount as int <= GP_EVENT_MAX
    ensures |ws| == es.gpEvtCount as int
  {
    seq(es.gpEvtCount as int, i requires 0 <= i < es.gpEvtCount as int =>
      MsrWrite(PERF_EVT_SEL0 + i, Msr64(es.gpEvtSel[i], 0)))
  }

  /** enableOffcoreCounters: OFFCORE_RSP_i := low/high halves of offcoreEvtSel[i] (ko/PMUArch.c:95-110). */
  function OffcoreEnableWrites(es: PMUEventSet): (ws: seq<MsrWrite>)
    requires WellFormed(es) && es.offcoreEvtCount as int <= OFFCORE_EVENT_MAX
    ensures |ws| == es.offcoreEvtCount as int
  {
    seq(es.offcoreEvtCount as int, i requires 0 <= i < es.offcoreEvtCount as int =>
      MsrWrite(OFFCORE_RSP_0 + i, Msr64(Low32(es.offcoreEvtSel[i]), High32(es.offcoreEvtSel[i]))))
  }

  /** The low half of IA32_PERF_GLOBAL_CTRL: `(1 << gpEvtCount) - 1`, one enable bit per generic counter. */
  function GpGlobalEnableBits(n: bv8): bv32
    requires n as int <= GP_EVENT_MAX
  {
    ((1 as bv32) << n) - 1
  }

  /** The value written to IA32_PERF_GLOBAL_CTRL (ko/PMUArch.c:155-158). */
  function GlobalCtrlValue(es: PMUEventSet): bv64
    requires es.gpEvtCount as int <= GP_EVENT_MAX
  {
    Msr64(GpGlobalEnableBits(es.gpEvtCount), es.fixedEvtGlobalCtrl as bv32)
  }

  /** The event sets pmuEnableEventSet can program: the C arrays, and no more events than they hold. */
  predicate Programmable(es: PMUEventSet) {
    WellFormed(es) && es.gpEvtCount as int <= GP_EVENT_MAX && es.offcoreEvtCount as int <= OFFCORE_EVENT_MAX
  }

  /** All programming writes of pmuEnableEventSet after the initial clear, in order. */
  function ProgramWrites(es: PMUEventSet): (ws: seq<MsrWrite>)
    requires Programmable(es)
    ensures |ws| == es.gpEvtCount as int + es.offcoreEvtCount as int + 2
  {
    GpEnableWrites(es) + OffcoreEnableWrites(es)
      + [MsrWrite(IA32_FIXED_CTR_CTRL, Msr64(es.fixedEvtSel, 0))]
      + [MsrWrite(IA32_PERF_GLOBAL_CTRL, GlobalCtrlValue(es))]
  }

  /** The programming writes are the four phases of pmuEnableEventSet run one after the other. */
  lemma ProgramPhases(faults: MsrWrite -> bool, m: map<int, bv64>, t: seq<MsrWrite>, es: PMUEventSet)
    requires Programmable(es)
    ensures Exec(faults, m, t, ProgramWrites(es)) ==
      Then(faults, Then(faults, Then(faults, Exec(faults, m, t, GpEnableWrites(es)), OffcoreEnableWrites(es)),
        [MsrWrite(IA32_FIXED_CTR_CTRL, Msr64(es.fixedEvtSel, 0))]), [MsrWrite(IA32_PERF_GLOBAL_CTRL, GlobalCtrlValue(es))])
  {
    var g := GpEnableWrites(es);
    var o := OffcoreEnableWrites(es);
    var f := [MsrWrite(IA32_FIXED_CTR_CTRL, Msr64(es.fixedEvtSel, 0))];
    var gl := [MsrWrite(IA32_PERF_GLOBAL_CTRL, GlobalCtrlValue(es))];
    ExecConcat(faults, m, t, g, o);
    ExecConcat(faults, m, t, g + o, f);
    ExecConcat(faults, m, t, g + o + f, gl);
  }

  /** The state after the initial clear of pmuEnableEventSet. */
  function AfterClear(faults: MsrWrite -> bool, m: map<int, bv64>, t: seq<MsrWrite>): Outcome {
    Exec(faults, m, t, ClearWrites())
  }

  /** The state after the initial clear and the programming writes. */
  function AfterProgram(faults: MsrWrite -> bool, m: map<int, bv64>, t: seq<MsrWrite>, es: PMUEventSet): Outcome
    requires Programmable(es)
  {
    Then(faults, AfterClear(faults, m, t), ProgramWrites(es))
  }

  /**
   * The whole effect of pmuEnableEventSet: more than 8 generic events is
   * -EFAULT with no write; otherwise clear, then program, and if programming
   * faults, clear again (the rollback) and report the programming error.
   */
  function EnableSpec(faults: MsrWrite -> bool, m: map<int, bv64>, t: seq<MsrWrite>, es: PMUEventSet): (o: Outcome)
    requires WellFormed(es) && es.offcoreEvtCount as int <= OFFCORE_EVENT_MAX
    ensures if es.gpEvtCount as int > GP_EVENT_MAX then o.err == -EFAULT else o.err == 0 || o.err == -EIO
  {
    if es.gpEvtCount as int > GP_EVENT_MAX then Outcome(-EFAULT, m, t)
    else
      var c := AfterClear(faults, m, t);
      if c.err != 0 then c
      else
        var p := AfterProgram(faults, m, t, es);
        if p.err == 0 then p
        else
          var r := Exec(faults, p.msrs, p.log, ClearWrites());
          Outcome(p.err, r.msrs, r.log)
  }

  // ---------------------------------------------------------------------
  // Properties of the specification.
  // ---------------------------------------------------------------------

  /** A clear without faults leaves every counter, selector and control register at 0. */
  lemma ClearZeroesAll(faults: MsrWrite -> bool, m: map<int, bv64>, t: seq<MsrWrite>, a: int)
    requires Exec(faults, m, t, ClearWrites()).err == 0
    requires Cleared(a)
    ensures a in Exec(faults, m, t, ClearWrites()).msrs && Exec(faults, m, t, ClearWrites()).msrs[a] == 0
  {
    forall j | 0 <= j < |ClearWrites()| ensures ClearWrites()[j].value == 0 {
      ClearWritesZero(j);
    }
    ExecZeroes(faults, m, t, ClearWrites(), ClearIndex(a));
  }

  /** The k-th programming write, stated position by position. */
  lemma ProgramWriteAt(es: PMUEventSet, k: nat)
    requires Programmable(es)
    requires k < |ProgramWrites(es)|
    ensures var g, o := es.gpEvtCount as int, es.offcoreEvtCount as int;
      ProgramWrites(es)[k] ==
        if k < g then MsrWrite(PERF_EVT_SEL0 + k, es.gpEvtSel[k] as bv64)
        else if k < g + o then MsrWrite(OFFCORE_RSP_0 + (k - g), es.offcoreEvtSel[k - g])
        else if k == g + o then MsrWrite(IA32_FIXED_CTR_CTRL, es.fixedEvtSel as bv64)
        else MsrWrite(IA32_PERF_GLOBAL_CTRL, GlobalCtrlValue(es))
  {
    var g, o := es.gpEvtCount as int, es.offcoreEvtCount as int;
    var ws := ProgramWrites(es);
    if k < g {
      assert ws[k] == GpEnableWrites(es)[k];
    } else if k < g + o {
      assert ws[k] == OffcoreEnableWrites(es)[k - g];
      SplitJoin(es.offcoreEvtSel[k - g]);
    }
  }

  /** The programming writes name pairwise distinct registers. */
  lemma ProgramAddrsDistinct(es: PMUEventSet, i: nat, j: nat)
    requires Programmable(es)
    requires i < j < |ProgramWrites(es)|
    ensures ProgramWrites(es)[i].addr != ProgramWrites(es)[j].addr
  {
    ProgramWriteAt(es, i);
    ProgramWriteAt(es, j);
  }

  /** Register `a` is present in `m` and holds `v`. */
  predicate Holds(m: map<int, bv64>, a: int, v: bv64) {
    a in m && m[a] == v
  }

  /**
   * When pmuEnableEventSet succeeds, its outcome is that of the clear and the
   * programming writes, and each generic selector, offcore response, the
   * fixed-counter control and the global control hold the values the event
   * set asks for.
   */
  lemma EnableSuccessValues(faults: MsrWrite -> bool, m: map<int, bv64>, t: seq<MsrWrite>, es: PMUEventSet)
    requires Programmable(es)
    requires EnableSpec(faults, m, t, es).err == 0
    ensures EnableSpec(faults, m, t, es) == AfterProgram(faults, m, t, es)
    ensures forall i :: 0 <= i < es.gpEvtCount as int ==>
      Holds(AfterProgram(faults, m, t, es).msrs, PERF_EVT_SEL0 + i, es.gpEvtSel[i] as bv64)
    ensures forall i :: 0 <= i < es.offcoreEvtCount as int ==>
      Holds(AfterProgram(faults, m, t, es).msrs, OFFCORE_RSP_0 + i, es.offcoreEvtSel[i])
    ensures Holds(AfterProgram(faults, m, t, es).msrs, IA32_FIXED_CTR_CTRL, es.fixedEvtSel as bv64)
    ensures Holds(AfterProgram(faults, m, t, es).msrs, IA32_PERF_GLOBAL_CTRL, GlobalCtrlValue(es))
  {
    EnableSuccessIsProgram(faults, m, t, es);
    ProgramSuccessValues(faults, m, t, es);
  }

  /** A successful pmuEnableEventSet is its clear followed by its programming writes, with no rollback. */
  lemma EnableSuccessIsProgram(faults: MsrWrite -> bool, m: map<int, bv64>, t: seq<MsrWrite>, es: PMUEventSet)
    requires Programmable(es)
    requires EnableSpec(faults, m, t, es).err == 0
    ensures EnableSpec(faults, m, t, es) == AfterProgram(faults, m, t, es)
    ensures AfterProgram(faults, m, t, es).err == 0
  {
  }

  /** A clear and programming run without faults leaves the requested values in their registers. */
  lemma ProgramSuccessValues(faults: MsrWrite -> bool, m: map<int, bv64>, t: seq<MsrWrite>, es: PMUEventSet)
    requires Programmable(es)
    requires AfterProgram(faults, m, t, es).err == 0
    ensures forall i :: 0 <= i < es.gpEvtCount as int ==>
      Holds(AfterProgram(faults, m, t, es).msrs, PERF_EVT_SEL0 + i, es.gpEvtSel[i] as bv64)
    ensures forall i :: 0 <= i < es.offcoreEvtCount as int ==>
      Holds(AfterProgram(faults, m, t, es).msrs, OFFCORE_RSP_0 + i, es.offcoreEvtSel[i])
    ensures Holds(AfterProgram(faults, m, t, es).msrs, IA32_FIXED_CTR_CTRL, es.fixedEvtSel as bv64)
    ensures Holds(AfterProgram(faults, m, t, es).msrs, IA32_PERF_GLOBAL_CTRL, GlobalCtrlValue(es))
  {
    var c := AfterClear(faults, m, t);
    var m' := Exec(faults, c.msrs, c.log, ProgramWrites(es)).msrs;
    assert AfterProgram(faults, m, t, es).msrs == m';
    var g, o := es.gpEvtCount as int, es.offcoreEvtCount as int;
    forall i | 0 <= i < g ensures Holds(m', PERF_EVT_SEL0 + i, es.gpEvtSel[i] as bv64) {
      GpHeld(faults, c.msrs, c.log, es, i);
    }
    forall i | 0 <= i < o ensures Holds(m', OFFCORE_RSP_0 + i, es.offcoreEvtSel[i]) {
      OffcoreHeld(faults, c.msrs, c.log, es, i);
    }
    ProgramWriteAt(es, g + o);
    HeldAt(faults, c.msrs, c.log, es, g + o, IA32_FIXED_CTR_CTRL, es.fixedEvtSel as bv64);
    ProgramWriteAt(es, g + o + 1);
    HeldAt(faults, c.msrs, c.log, es, g + o + 1, IA32_PERF_GLOBAL_CTRL, GlobalCtrlValue(es));
  }

  /** After fault-free programming, the i-th generic selector holds the requested selector. */
  lemma GpHeld(faults: MsrWrite -> bool, m: map<int, bv64>, t: seq<MsrWrite>, es: PMUEventSet, i: nat)
    requires Programmable(es) && Exec(faults, m, t, ProgramWrites(es)).err == 0
    requires i < es.gpEvtCount as int
    ensures Holds(Exec(faults, m, t, ProgramWrites(es)).msrs, PERF_EVT_SEL0 + i, es.gpEvtSel[i] as bv64)
  {
    ProgramWriteAt(es, i);
    HeldAt(faults, m, t, es, i, PERF_EVT_SEL0 + i, es.gpEvtSel[i] as bv64);
  }

  /** After fault-free programming, the i-th offcore response register holds the requested response. */
  lemma OffcoreHeld(faults: MsrWrite -> bool, m: map<int, bv64>, t: seq<MsrWrite>, es: PMUEventSet, i: nat)
    requires Programmable(es) && Exec(faults, m, t, ProgramWrites(es)).err == 0
    requires i < es.offcoreEvtCount as int
    ensures Holds(Exec(faults, m, t, ProgramWrites(es)).msrs, OFFCORE_RSP_0 + i, es.offcoreEvtSel[i])
  {
    var g := es.gpEvtCount as int;
    ProgramWriteAt(es, g + i);
    HeldAt(faults, m, t, es, g + i, OFFCORE_RSP_0 + i, es.offcoreEvtSel[i]);
  }

  /** After fault-free programming, the register of the k-th write holds its value. */
  lemma HeldAt(faults: MsrWrite -> bool, m: map<int, bv64>, t: seq<MsrWrite>, es: PMUEventSet, k: nat,
               addr: int, value: bv64)
    requires Programmable(es) && Exec(faults, m, t, ProgramWrites(es)).err == 0
    requires k < |ProgramWrites(es)| && ProgramWrites(es)[k] == MsrWrite(addr, value)
    ensures Holds(Exec(faults, m, t, ProgramWrites(es)).msrs, addr, value)
  {
    ProgramWritesHold(faults, m, t, es);
  }

  /** Programming writes every register once, so after a run without faults each register holds the value written to it. */
  lemma ProgramWritesHold(faults: MsrWrite -> bool, m: map<int, bv64>, t: seq<MsrWrite>, es: PMUEventSet)
    requires Programmable(es)
    requires Exec(faults, m, t, ProgramWrites(es)).err == 0
    ensures var ws := ProgramWrites(es);
      forall i :: 0 <= i < |ws| ==> Holds(Exec(faults, m, t, ws).msrs, ws[i].addr, ws[i].value)
  {
    var ws := ProgramWrites(es);
    forall i | 0 <= i < |ws|
      ensures Holds(Exec(faults, m, t, ws).msrs, ws[i].addr, ws[i].value)
    {
      forall j | i < j < |ws| ensures ws[j].addr != ws[i].addr {
        ProgramAddrsDistinct(es, i, j);
      }
      ExecLastWrite(faults, m, t, ws, i);
    }
  }

  /**
   * IA32_PERF_GLOBAL_CTRL enables exactly generic counters 0..gpEvtCount-1 in
   * its low half and, in its high half, the fixed counters named by
   * fixedEvtGlobalCtrl (section 18.2.2 of the Intel SDM, Vol. 3B).
   */
  lemma GlobalCtrlLayout(es: PMUEventSet, k: bv8)
    requires es.gpEvtCount as int <= GP_EVENT_MAX
    requires k < 64
    ensures k < 32 ==> (Bit(GlobalCtrlValue(es), k) <==> k < es.gpEvtCount)
    ensures 32 <= k < 40 ==> (Bit(GlobalCtrlValue(es), k) <==> Bit(es.fixedEvtGlobalCtrl as bv64, k - 32))
    ensures 40 <= k ==> !Bit(GlobalCtrlValue(es), k)
  {
  }

  /** More than 8 generic events: -EFAULT, and no register is written. */
  lemma TooManyGpTouchesNothing(faults: MsrWrite -> bool, m: map<int, bv64>, t: seq<MsrWrite>, es: PMUEventSet)
    requires WellFormed(es) && es.offcoreEvtCount as int <= OFFCORE_EVENT_MAX
    requires es.gpEvtCount as int > GP_EVENT_MAX
    ensures EnableSpec(faults, m, t, es) == Outcome(-EFAULT, m, t)
  {
  }

  /**
   * A fault during the initial clear stops everything: -EIO, and only a
   * prefix of the clear sequence, ending in the faulting write, was attempted.
   */
  lemma ClearFailureStopsProgramming(faults: MsrWrite -> bool, m: map<int, bv64>, t: seq<MsrWrite>, es: PMUEventSet)
    requires Programmable(es)
    requires AfterClear(faults, m, t).err != 0
    ensures EnableSpec(faults, m, t, es).err == -EIO
    ensures exists k :: (0 < k <= |ClearWrites()| && faults(ClearWrites()[k - 1])
      && EnableSpec(faults, m, t, es).log == t + ClearWrites()[..k])
  {
    ExecLog(faults, m, t, ClearWrites());
  }

  /**
   * A fault during programming is rolled back: the error reported is the
   * programming error, and the log is the whole clear, a prefix of the
   * programming writes ending in the faulting one, then a prefix of a second
   * clear.
   */
  lemma ProgramFailureRollsBack(faults: MsrWrite -> bool, m: map<int, bv64>, t: seq<MsrWrite>, es: PMUEventSet)
    requires Programmable(es)
    requires AfterClear(faults, m, t).err == 0
    requires AfterProgram(faults, m, t, es).err != 0
    ensures EnableSpec(faults, m, t, es).err == -EIO
    ensures exists k, r :: (0 < k <= |ProgramWrites(es)| && faults(ProgramWrites(es)[k - 1]) && 0 < r <= |ClearWrites()| &&
      EnableSpec(faults, m, t, es).log == t + ClearWrites() + ProgramWrites(es)[..k] + ClearWrites()[..r])
  {
    var c := AfterClear(faults, m, t);
    ExecLog(faults, m, t, ClearWrites());
    assert ClearWrites()[..24] == ClearWrites();
    var p := AfterProgram(faults, m, t, es);
    ExecLog(faults, c.msrs, c.log, ProgramWrites(es));
    var o := Exec(faults, p.msrs, p.log, ClearWrites());
    ExecLog(faults, p.msrs, p.log, ClearWrites());
    var k := |p.log| - |c.log|;
    var r := |o.log| - |p.log|;
    assert 0 < r;
    assert o.log == t + ClearWrites() + ProgramWrites(es)[..k] + ClearWrites()[..r];
  }

  /** After a rolled-back programming fault whose second clear succeeds, every cleared register is 0. */
  lemma RollbackZeroes(faults: MsrWrite -> bool, m: map<int, bv64>, t: seq<MsrWrite>, es: PMUEventSet, a: int)
    requires Programmable(es)
    requires Cleared(a)
    requires AfterClear(faults, m, t).err == 0
    requires AfterProgram(faults, m, t, es).err != 0
    requires AfterClear(faults, AfterProgram(faults, m, t, es).msrs, AfterProgram(faults, m, t, es).log).err == 0
    ensures a in EnableSpec(faults, m, t, es).msrs && EnableSpec(faults, m, t, es).msrs[a] == 0
  {
    var p := AfterProgram(faults, m, t, es);
    ClearZeroesAll(faults, p.msrs, p.log, a);
  }

  // ---------------------------------------------------------------------
  // The register file and the source's helpers.
  // ---------------------------------------------------------------------

  /** The MSRs of one core. */
  class MsrFile {
    /** Current register values. */
    var msrs: map<int, bv64>
    /** Every `wrmsr_safe` attempted so far, in order, including faulting ones. */
    ghost var trace: seq<MsrWrite>
    /** Which writes fault (#GP on a missing MSR or reserved bits); an oracle of the hardware. */
    const faults: MsrWrite -> bool

    constructor (msrs: map<int, bv64>, faults: MsrWrite -> bool)
      ensures this.msrs == msrs && this.faults == faults && trace == []
    {
      this.msrs := msrs;
      this.faults := faults;
      trace := [];
    }

    /** The state of the register file as an outcome, with error `err`. */
    ghost function State(err: int): Outcome
      reads this
    {
      Outcome(err, msrs, trace)
    }

    /** wrmsr_safe: writes high:low, or faults with -EIO and leaves the register unchanged. */
    method WrmsrSafe(addr: int, low: bv32, high: bv32) returns (err: int)
      modifies this
      ensures State(err) == Exec(faults, old(msrs), old(trace), [MsrWrite(addr, Msr64(low, high))])
    {
      var w := MsrWrite(addr, Msr64(low, high));
      assert [w][1..] == [];
      trace := trace + [w];
      if faults(w) {
        err := -EIO;
      } else {
        msrs := msrs[addr := w.value];
        err := 0;
      }
    }

    /** resetGlobalCtrl (ko/PMUArch.c:21-27). */
    method ResetGlobalCtrl() returns (err: int)
      modifies this
      ensures State(err) == Exec(faults, old(msrs), old(trace), [MsrWrite(IA32_PERF_GLOBAL_CTRL, 0)])
    {
      err := WrmsrSafe(IA32_PERF_GLOBAL_CTRL, 0, 0);
    }

    /** resetPEBSEnable (ko/PMUArch.c:29-35). */
    method ResetPEBSEnable() returns (err: int)
      modifies this
      ensures State(err) == Exec(faults, old(msrs), old(trace), [MsrWrite(IA32_PEBS_ENABLE, 0)])
    {
      err := WrmsrSafe(IA32_PEBS_ENABLE, 0, 0);
    }

    /** resetFixedCounters: four writes chained on success (ko/PMUArch.c:37-47). */
    method ResetFixedCounters() returns (err: int)
      modifies this
      ensures State(err) == Exec(faults, old(msrs), old(trace), FixedResetWrites())
    {
      ghost var m0, t0 := msrs, trace;
      ghost var w0, w1, w2, w3 := [FixedResetWrites()[0]], [FixedResetWrites()[1]], [FixedResetWrites()[2]], [FixedResetWrites()[3]];
      assert FixedResetWrites() == w0 + w1 + w2 + w3;
      ExecConcat(faults, m0, t0, w0, w1);
      ExecConcat(faults, m0, t0, w0 + w1, w2);
      ExecConcat(faults, m0, t0, w0 + w1 + w2, w3);
      err := WrmsrSafe(IA32_FIXED_CTR_CTRL, 0, 0);
      if err == 0 { err := WrmsrSafe(IA32_FIXED_CTR0, 0, 0); }
      if err == 0 { err := WrmsrSafe(IA32_FIXED_CTR1, 0, 0); }
      if err == 0 { err := WrmsrSafe(IA32_FIXED_CTR2, 0, 0); }
    }

    /** resetGpCounters: the interleaved PerfEvtSel/PMC loop, stopping at the first fault (ko/PMUArch.c:49-60). */
    method ResetGpCounters() returns (err: int)
      modifies this
      ensures State(err) == Exec(faults, old(msrs), old(trace), GpResetWrites())
    {
      ghost var m0, t0 := msrs, trace;
      ghost var ws := GpResetWrites();
      err := 0;
      var i := 0;
      while i < GP_EVENT_MAX && err == 0
        invariant 0 <= i <= GP_EVENT_MAX
        invariant Exec(faults, m0, t0, ws) == Then(faults, State(err), ws[2 * i..])
      {
        assert ws[2 * i..] == ws[2 * i..2 * i + 2] + ws[2 * i + 2..];
        ExecConcat(faults, msrs, trace, ws[2 * i..2 * i + 2], ws[2 * i + 2..]);
        err := ResetGpPair(i);
        i := i + 1;
      }
    }

    /** One iteration of resetGpCounters: PerfEvtSel_i, then IA32_PMC_i only if the first write succeeded. */
    method ResetGpPair(i: int) returns (err: int)
      requires 0 <= i < GP_EVENT_MAX
      modifies this
      ensures State(err) == Exec(faults, old(msrs), old(trace), GpResetWrites()[2 * i..2 * i + 2])
    {
      GpResetAt(i);
      ghost var ws := GpResetWrites()[2 * i..2 * i + 2];
      assert ws == [MsrWrite(PERF_EVT_SEL0 + i, 0)] + [MsrWrite(IA32_PMC0 + i, 0)];
      ExecConcat(faults, msrs, trace, [MsrWrite(PERF_EVT_SEL0 + i, 0)], [MsrWrite(IA32_PMC0 + i, 0)]);
      err := WrmsrSafe(PERF_EVT_SEL0 + i, 0, 0);
      if err == 0 {
        err := WrmsrSafe(IA32_PMC0 + i, 0, 0);
      }
    }

    /** resetOffcoreCounters: a loop stopping at the first fault (ko/PMUArch.c:62-72). */
    method ResetOffcoreCounters() returns (err: int)
      modifies this
      ensures State(err) == Exec(faults, old(msrs), old(trace), OffcoreResetWrites())
    {
      ghost var m0, t0 := msrs, trace;
      ghost var ws := OffcoreResetWrites();
      err := 0;
      var i := 0;
      while i < OFFCORE_EVENT_MAX && err == 0
        invariant 0 <= i <= OFFCORE_EVENT_MAX
        invariant Exec(faults, m0, t0, ws) == Then(faults, State(err), ws[i..])
      {
        assert ws[i..] == [ws[i]] + ws[i + 1..];
        ExecConcat(faults, msrs, trace, [ws[i]], ws[i + 1..]);
        err := WrmsrSafe(OFFCORE_RSP_0 + i, 0, 0);
        i := i + 1;
      }
    }

    /** enableFixedCtrCtrl (ko/PMUArch.c:74-80). */
    method EnableFixedCtrCtrl(es: PMUEventSet) returns (err: int)
      modifies this
      ensures State(err) == Exec(faults, old(msrs), old(trace), [MsrWrite(IA32_FIXED_CTR_CTRL, Msr64(es.fixedEvtSel, 0))])
    {
      err := WrmsrSafe(IA32_FIXED_CTR_CTRL, es.fixedEvtSel, 0);
    }

    /** enableGpCounters: stops at the first faulting PerfEvtSel write (ko/PMUArch.c:82-93). */
    method EnableGpCounters(es: PMUEventSet) returns (err: int)
      requires WellFormed(es) && es.gpEvtCount as int <= GP_EVENT_MAX
      modifies this
      ensures State(err) == Exec(faults, old(msrs), old(trace), GpEnableWrites(es))
    {
      ghost var m0, t0 := msrs, trace;
      ghost var ws := GpEnableWrites(es);
      err := 0;
      var i := 0;
      while i < es.gpEvtCount as int
        invariant 0 <= i <= es.gpEvtCount as int && err == 0
        invariant Exec(faults, m0, t0, ws) == Exec(faults, msrs, trace, ws[i..])
      {
        assert ws[i] == MsrWrite(PERF_EVT_SEL0 + i, Msr64(es.gpEvtSel[i], 0));
        assert ws[i..] == [ws[i]] + ws[i + 1..];
        ExecConcat(faults, msrs, trace, [ws[i]], ws[i + 1..]);
        err := WrmsrSafe(PERF_EVT_SEL0 + i, es.gpEvtSel[i], 0);
        if err != 0 {
          return;
        }
        i := i + 1;
      }
    }

    /** enableOffcoreCounters: low and high halves of each offcore value, stopping at the first fault (ko/PMUArch.c:95-110). */
    method EnableOffcoreCounters(es: PMUEventSet) returns (err: int)
      requires WellFormed(es) && es.offcoreEvtCount as int <= OFFCORE_EVENT_MAX
      modifies this
      ensures State(err) == Exec(faults, old(msrs), old(trace), OffcoreEnableWrites(es))
    {
      ghost var m0, t0 := msrs, trace;
      ghost var ws := OffcoreEnableWrites(es);
      err := 0;
      var i := 0;
      while i < es.offcoreEvtCount as int
        invariant 0 <= i <= es.offcoreEvtCount as int && err == 0
        invariant Exec(faults, m0, t0, ws) == Exec(faults, msrs, trace, ws[i..])
      {
        var low := Low32(es.offcoreEvtSel[i]);
        var high := High32(es.offcoreEvtSel[i]);
        assert ws[i] == MsrWrite(OFFCORE_RSP_0 + i, Msr64(low, high));
        assert ws[i..] == [ws[i]] + ws[i + 1..];
        ExecConcat(faults, msrs, trace, [ws[i]], ws[i + 1..]);
        err := WrmsrSafe(OFFCORE_RSP_0 + i, low, high);
        if err != 0 {
          return;
        }
        i := i + 1;
      }
    }

    /** enableGlobalCtrl (ko/PMUArch.c:112-118). */
    method EnableGlobalCtrl(low: bv32, high: bv32) returns (err: int)
      modifies this
      ensures State(err) == Exec(faults, old(msrs), old(trace), [MsrWrite(IA32_PERF_GLOBAL_CTRL, Msr64(low, high))])
    {
      err := WrmsrSafe(IA32_PERF_GLOBAL_CTRL, low, high);
    }

    /** pmuClearEventSet: the five reset helpers chained on success (ko/PMUArch.c:120-130). */
    method PmuClearEventSet() returns (err: int)
      modifies this
      ensures State(err) == Exec(faults, old(msrs), old(trace), ClearWrites())
    {
      ghost var m0, t0 := msrs, trace;
      ghost var a := [MsrWrite(IA32_PERF_GLOBAL_CTRL, 0)];
      ghost var b := [MsrWrite(IA32_PEBS_ENABLE, 0)];
      ghost var c := FixedResetWrites();
      ghost var d := GpResetWrites();
      ghost var e := OffcoreResetWrites();
      ExecConcat(faults, m0, t0, a, b);
      ExecConcat(faults, m0, t0, a + b, c);
      ExecConcat(faults, m0, t0, a + b + c, d);
      ExecConcat(faults, m0, t0, a + b + c + d, e);
      err := ResetGlobalCtrl();
      if err == 0 { err := ResetPEBSEnable(); }
      if err == 0 { err := ResetFixedCounters(); }
      if err == 0 { err := ResetGpCounters(); }
      if err == 0 { err := ResetOffcoreCounters(); }
    }

    /**
     * The programming phase of pmuEnableEventSet (ko/PMUArch.c:145-159): the
     * generic selectors, the offcore responses, the fixed-counter control and
     * the global control, each attempted only if everything before succeeded.
     */
    method ProgramEventSet(es: PMUEventSet) returns (err: int)
      requires Programmable(es)
      modifies this
      ensures State(err) == Exec(faults, old(msrs), old(trace), ProgramWrites(es))
    {
      ProgramPhases(faults, msrs, trace, es);
      err := EnableGpCounters(es);
      ghost var s1 := State(err);
      if err == 0 {
        err := EnableOffcoreCounters(es);
      }
      assert State(err) == Then(faults, s1, OffcoreEnableWrites(es));
      ghost var s2 := State(err);
      if err == 0 {
        err := EnableFixedCtrCtrl(es);
      }
      assert State(err) == Then(faults, s2, [MsrWrite(IA32_FIXED_CTR_CTRL, Msr64(es.fixedEvtSel, 0))]);
      ghost var s3 := State(err);
      var low := GpGlobalEnableBits(es.gpEvtCount);
      var high := es.fixedEvtGlobalCtrl as bv32;
      if err == 0 {
        err := EnableGlobalCtrl(low, high);
      }
    }

    /**
     * pmuEnableEventSet (ko/PMUArch.c:132-170): rejects more than 8 generic
     * events without touching any register; otherwise clears, programs, and
     * rolls back with a second clear on a programming fault.  The returned
     * value is always the event set's new `_err`.
     */
    method PmuEnableEventSet(es: PMUEventSet) returns (es': PMUEventSet, ret: int)
      requires WellFormed(es) && es.offcoreEvtCount as int <= OFFCORE_EVENT_MAX
      modifies this
      ensures es' == es.(err := ret)
      ensures State(ret) == EnableSpec(faults, old(msrs), old(trace), es)
    {
      if es.gpEvtCount as int > GP_EVENT_MAX {
        return es.(err := -EFAULT), -EFAULT;
      }
      var err := PmuClearEventSet();
      if err != 0 {
        return es.(err := err), err;
      }
      err := ProgramEventSet(es);
      if err != 0 {
        var _ := PmuClearEventSet();
      }
      es', ret := es.(err := err), err;
    }
  }
}
