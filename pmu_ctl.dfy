/**
 * The user-space PMU control object (include/xpedite/pmu/PMUCtl.H): how many general-purpose and
 * fixed counters a probe reads, the layout in which `readPmc` stores them, the queue entries for
 * retired perf events, and the lazily created process-wide instance.
 */
module PmuCtlModel {

  /** `uint8_t`. */
  type UInt8 = x: int | 0 <= x < 256

  /** RDPMC selects fixed counter k with ECX = (1 << 30) | k (Intel SDM Vol. 2B, RDPMC). */
  const INST_RETIRED_ANY_INDEX: int := 0x4000_0000
  const CPU_CLK_UNHALTED_CORE_INDEX: int := 0x4000_0001
  const CPU_CLK_UNHALTED_REF_INDEX: int := 0x4000_0002

  /** The three fixed counters a probe may read, each enabled or not. */
  datatype FixedPmcSet = FixedPmcSet(instRetiredAny: bool, cpuClkUnhaltedCore: bool, cpuClkUnhaltedRef: bool)
  {
    /** `size()`: how many fixed counters are enabled. */
    function Size(): (n: nat)
      ensures n <= 3
      ensures n == 0 <==> !instRetiredAny && !cpuClkUnhaltedCore && !cpuClkUnhaltedRef
      ensures n == 3 <==> instRetiredAny && cpuClkUnhaltedCore && cpuClkUnhaltedRef
    {
      (if instRetiredAny then 1 else 0) + (if cpuClkUnhaltedCore then 1 else 0) + (if cpuClkUnhaltedRef then 1 else 0)
    }
  }

  /** The RDPMC indices of the enabled fixed counters, in the order `readPmc` reads them. */
  function FixedIndices(f: FixedPmcSet): seq<int> {
    (if f.instRetiredAny then [INST_RETIRED_ANY_INDEX] else [])
      + (if f.cpuClkUnhaltedCore then [CPU_CLK_UNHALTED_CORE_INDEX] else [])
      + (if f.cpuClkUnhaltedRef then [CPU_CLK_UNHALTED_REF_INDEX] else [])
  }

  /** The RDPMC indices read by a probe: the generic counters 0..g-1, then the enabled fixed ones. */
  function ReadIndices(g: nat, f: FixedPmcSet): seq<int> {
    seq(g, i => i) + FixedIndices(f)
  }

  /** The values `readPmc` stores, given the counter each RDPMC index reads. */
  function ReadLayout(g: nat, f: FixedPmcSet, rdpmc: int -> bv64): seq<bv64> {
    var ix := ReadIndices(g, f);
    seq(|ix|, k requires 0 <= k < |ix| => rdpmc(ix[k]))
  }

  /**
   * The fixed indices are exactly those of the enabled counters, strictly increasing, each with
   * bit 30 set, one per enabled counter.
   */
  lemma FixedIndicesLayout(f: FixedPmcSet)
    ensures |FixedIndices(f)| == f.Size()
    ensures INST_RETIRED_ANY_INDEX in FixedIndices(f) <==> f.instRetiredAny
    ensures CPU_CLK_UNHALTED_CORE_INDEX in FixedIndices(f) <==> f.cpuClkUnhaltedCore
    ensures CPU_CLK_UNHALTED_REF_INDEX in FixedIndices(f) <==> f.cpuClkUnhaltedRef
    ensures forall a, b :: 0 <= a < b < |FixedIndices(f)| ==> FixedIndices(f)[a] < FixedIndices(f)[b]
    ensures forall a :: 0 <= a < |FixedIndices(f)| ==>
      INST_RETIRED_ANY_INDEX <= FixedIndices(f)[a] <= CPU_CLK_UNHALTED_REF_INDEX
  {
  }

  /**
   * A probe's reads: `g + size` values, the generic counter i in slot i, then the enabled fixed
   * counters in the order INST_RETIRED_ANY, CPU_CLK_UNHALTED_CORE, CPU_CLK_UNHALTED_REF.
   */
  lemma ReadLayoutMeaning(g: nat, f: FixedPmcSet, rdpmc: int -> bv64)
    ensures |ReadLayout(g, f, rdpmc)| == g + f.Size()
    ensures forall i :: 0 <= i < g ==> ReadLayout(g, f, rdpmc)[i] == rdpmc(i)
    ensures forall k :: 0 <= k < f.Size() ==> ReadLayout(g, f, rdpmc)[g + k] == rdpmc(FixedIndices(f)[k])
  {
    FixedIndicesLayout(f);
  }

  /** `InertEvents`: perf events retired at `generation`, stamped with the TSC read at construction. */
  class InertEvents<E> {
    const events: E
    const generation: bv64
    const tsc: bv64

    /** `rdtsc` stands for the RDTSC instruction's result at the time of construction. */
    constructor (events: E, generation: bv64, rdtsc: bv64)
      ensures this.events == events && this.generation == generation && tsc == rdtsc
    {
      this.events := events;
      this.generation := generation;
      tsc := rdtsc;
    }
  }

  /** `PmuCtl`, restricted to the counts that decide what a probe reads. */
  class PmuCtl {
    var genericPmcCount: UInt8
    var fixedPmcSet: FixedPmcSet

    /** The constructor's body is outside this model; the initial counts are its parameters. */
    constructor (genericPmcCount: UInt8, fixedPmcSet: FixedPmcSet)
      ensures this.genericPmcCount == genericPmcCount && this.fixedPmcSet == fixedPmcSet
    {
      this.genericPmcCount := genericPmcCount;
      this.fixedPmcSet := fixedPmcSet;
    }

    /** `genericPmcCount()`: the number of generic counters a probe reads. */
    function GenericPmcCount(): (n: UInt8)
      reads this
      ensures n == genericPmcCount
    {
      genericPmcCount
    }

    /** `fixedPmcCount()`: the fixed set's size. */
    function FixedPmcCount(): (n: UInt8)
      reads this
      ensures n == fixedPmcSet.Size() <= 3
    {
      fixedPmcSet.Size()
    }

    /** `pmcCount()`: the sum of both counts, narrowed to `uint8_t` on return. */
    function PmcCount(): (n: UInt8)
      reads this
      ensures n == (GenericPmcCount() + FixedPmcCount()) % 256
      ensures GenericPmcCount() < 253 ==> n == GenericPmcCount() + FixedPmcCount()
    {
      (GenericPmcCount() + FixedPmcCount()) % 256
    }

    /**
     * `readPmc`: fills the first `genericPmcCount + fixedPmcCount` slots of the buffer with the
     * probe's reads and leaves the rest. `rdpmc` stands for the RDPMC instruction. The counts
     * themselves are not written (no `modifies this`).
     */
    method ReadPmc(buffer: array<bv64>, rdpmc: int -> bv64)
      requires buffer.Length >= genericPmcCount + fixedPmcSet.Size()
      modifies buffer
      ensures var n := genericPmcCount + fixedPmcSet.Size();
        buffer[..n] == ReadLayout(genericPmcCount, fixedPmcSet, rdpmc) && buffer[n..] == old(buffer[n..])
    {
      ghost var before := buffer[..];
      var i, ix := ReadGeneric(buffer, rdpmc, before);
      i := ReadFixed(buffer, i, rdpmc, before, ix);
      LayoutRead(buffer, before, genericPmcCount, fixedPmcSet, ix, rdpmc);
    }

    /** The loop `for (; i < genericPmcCount_; ++i) buffer_[i] = RDPMC(i)`. */
    method ReadGeneric(buffer: array<bv64>, rdpmc: int -> bv64, ghost before: seq<bv64>)
      returns (i: int, ghost ix: seq<int>)
      requires genericPmcCount <= buffer.Length && before == buffer[..]
      modifies buffer
      ensures i == genericPmcCount == |ix| && (forall k :: 0 <= k < i ==> ix[k] == k)
      ensures ReadSoFar(buffer, before, ix, rdpmc)
    {
      i, ix := 0, [];
      while i < genericPmcCount
        invariant 0 <= i <= genericPmcCount && |ix| == i && forall k :: 0 <= k < i ==> ix[k] == k
        invariant ReadSoFar(buffer, before, ix, rdpmc)
      {
        i := ReadOne(buffer, i, i, rdpmc, before, ix);
        ix := ix + [i - 1];
      }
    }

    /** The three guarded `buffer_[i++] = RDPMC(0x4000000k)` statements. */
    method ReadFixed(buffer: array<bv64>, i: int, rdpmc: int -> bv64, ghost before: seq<bv64>, ghost ix: seq<int>)
      returns (j: int)
      requires i == |ix| && i + fixedPmcSet.Size() <= buffer.Length && ReadSoFar(buffer, before, ix, rdpmc)
      modifies buffer
      ensures j == i + |FixedIndices(fixedPmcSet)| && ReadSoFar(buffer, before, ix + FixedIndices(fixedPmcSet), rdpmc)
    {
      j := i;
      ghost var read := ix;
      if fixedPmcSet.instRetiredAny {
        j := ReadOne(buffer, j, INST_RETIRED_ANY_INDEX, rdpmc, before, read);
        read := read + [INST_RETIRED_ANY_INDEX];
      }
      if fixedPmcSet.cpuClkUnhaltedCore {
        j := ReadOne(buffer, j, CPU_CLK_UNHALTED_CORE_INDEX, rdpmc, before, read);
        read := read + [CPU_CLK_UNHALTED_CORE_INDEX];
      }
      if fixedPmcSet.cpuClkUnhaltedRef {
        j := ReadOne(buffer, j, CPU_CLK_UNHALTED_REF_INDEX, rdpmc, before, read);
        read := read + [CPU_CLK_UNHALTED_REF_INDEX];
      }
      assert read == ix + FixedIndices(fixedPmcSet);
    }

    /** `buffer_[i++] = RDPMC(index)` for one fixed counter. */
    method ReadOne(buffer: array<bv64>, i: int, index: int, rdpmc: int -> bv64, ghost before: seq<bv64>, ghost ix: seq<int>)
      returns (j: int)
      requires i == |ix| < buffer.Length && ReadSoFar(buffer, before, ix, rdpmc)
      modifies buffer
      ensures j == i + 1 && ReadSoFar(buffer, before, ix + [index], rdpmc)
    {
      buffer[i] := rdpmc(index);
      j := i + 1;
    }
  }

  /** The first `|ix|` slots hold the reads of `ix`; the later slots still hold what they held `before`. */
  ghost predicate ReadSoFar(buffer: array<bv64>, before: seq<bv64>, ix: seq<int>, rdpmc: int -> bv64)
    reads buffer
  {
    |before| == buffer.Length && |ix| <= buffer.Length
    && (forall k :: 0 <= k < |ix| ==> buffer[k] == rdpmc(ix[k]))
    && (forall k :: |ix| <= k < buffer.Length ==> buffer[k] == before[k])
  }

  /** Once the generic counters 0..g-1 and then the fixed ones are read, the buffer starts with the layout. */
  lemma LayoutRead(buffer: array<bv64>, before: seq<bv64>, g: nat, f: FixedPmcSet, ix: seq<int>, rdpmc: int -> bv64)
    requires |ix| == g && forall k :: 0 <= k < g ==> ix[k] == k
    requires ReadSoFar(buffer, before, ix + FixedIndices(f), rdpmc)
    ensures g + f.Size() <= buffer.Length
    ensures buffer[..g + f.Size()] == ReadLayout(g, f, rdpmc) && buffer[g + f.Size()..] == before[g + f.Size()..]
  {
    assert ix == seq(g, k => k);
    FixedIndicesLayout(f);
    SlotsOf(buffer, before, ix + FixedIndices(f), rdpmc);
  }

  /** The slots read so far are the layout of `ix`, and the rest are as they were. */
  lemma SlotsOf(buffer: array<bv64>, before: seq<bv64>, ix: seq<int>, rdpmc: int -> bv64)
    requires ReadSoFar(buffer, before, ix, rdpmc)
    ensures buffer[..|ix|] == seq(|ix|, k requires 0 <= k < |ix| => rdpmc(ix[k]))
    ensures buffer[|ix|..] == before[|ix|..]
  {
  }

  /** The static `PmuCtl::_instance` pointer behind `PmuCtl::get()`. */
  class Registry {
    var instance: PmuCtl?

    constructor ()
      ensures instance == null
    {
      instance := null;
    }

    /** `get()`: creates the instance on the first call only and returns the same one afterwards. */
    method Get(genericPmcCount: UInt8, fixedPmcSet: FixedPmcSet) returns (p: PmuCtl)
      modifies this
      ensures old(instance) != null ==> p == old(instance) && instance == old(instance)
      ensures old(instance) == null ==> (fresh(p) && instance == p
        && p.genericPmcCount == genericPmcCount && p.fixedPmcSet == fixedPmcSet)
    {
      if instance == null {
        instance := new PmuCtl(genericPmcCount, fixedPmcSet);
      }
      p := instance;
    }
  }
}
