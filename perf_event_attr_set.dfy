/**
 * The bounded set of perf-event attributes (include/xpedite/perf/PerfEventAttrSet.H): a fixed-size
 * array of `perf_event_attr` records filled from the front, whose first element, the group leader,
 * is the only one created disabled.
 */
module PerfEvents {

  /** The fields of `struct perf_event_attr` that the set writes; all others stay zero. */
  datatype PerfEventAttr = PerfEventAttr(
    eventType: bv32, size: bv32, config: bv64, excludeUser: bool, excludeKernel: bool, disabled: bool)

  /** A value-initialised `perf_event_attr {}`. */
  const ZERO_ATTR: PerfEventAttr := PerfEventAttr(0, 0, 0, false, false, false)

  /**
   * `PerfEventAttrSet`: `values` is the `std::array` of `capacity` attributes (the build-time
   * constant XPEDITE_PMC_CTRL_CORE_EVENT_MAX), `attrSize` is `sizeof(perf_event_attr)`.
   */
  class PerfEventAttrSet {
    const capacity: nat
    const attrSize: bv32
    const values: array<PerfEventAttr>
    var size: int
    var generation: bv64

    /** The array has its fixed length and holds `size` events, never more than fit. */
    predicate Valid()
      reads this
    {
      values.Length == capacity && 0 <= size <= capacity
    }

    /** The events added so far, in order. */
    function Contents(): seq<PerfEventAttr>
      reads this, values
      requires Valid()
    {
      values[..size]
    }

    /** Only the first event, the group leader, is disabled. */
    predicate LeaderDisabled()
      reads this, values
      requires Valid()
    {
      forall i :: 0 <= i < size ==> (values[i].disabled <==> i == 0)
    }

    /** The value-initialising constructor: an empty set of generation 0, all slots zero. */
    constructor (capacity: nat, attrSize: bv32)
      ensures Valid() && fresh(values)
      ensures this.capacity == capacity && this.attrSize == attrSize
      ensures size == 0 && generation == 0 && !IsNonEmpty()
      ensures values[..] == seq(capacity, _ => ZERO_ATTR)
      ensures LeaderDisabled()
    {
      this.capacity := capacity;
      this.attrSize := attrSize;
      values := new PerfEventAttr[capacity](_ => ZERO_ATTR);
      size := 0;
      generation := 0;
    }

    /**
     * `add`: `ok == false` stands for the runtime_error thrown on a full set, which leaves the set
     * untouched; otherwise the attribute, stamped with the struct size, goes to the next free slot.
     */
    method Add(attr: PerfEventAttr) returns (ok: bool)
      requires Valid()
      modifies this, values
      ensures Valid() && generation == old(generation)
      ensures ok <==> old(size) < capacity
      ensures !ok ==> size == old(size) && values[..] == old(values[..])
      ensures ok ==> size == old(size) + 1 && values[..] == old(values[..])[old(size) := attr.(size := attrSize)]
      ensures ok ==> Contents() == old(Contents()) + [attr.(size := attrSize)]
    {
      if size >= values.Length {
        return false;
      }
      values[size] := attr.(size := attrSize);
      size := size + 1;
      ok := true;
      assert values[..size] == old(values[..size]) + [attr.(size := attrSize)];
    }

    /**
     * `addPMUEvent`: an attribute with the given type, event select and exclusion flags, disabled
     * exactly when it is the first of the set. Adding keeps the leader the only disabled event.
     */
    method AddPMUEvent(eventType: bv32, eventSelect: bv16, excludeUser: bool, excludeKernel: bool) returns (ok: bool)
      requires Valid()
      modifies this, values
      ensures Valid() && generation == old(generation)
      ensures ok <==> old(size) < capacity
      ensures !ok ==> size == old(size) && values[..] == old(values[..])
      ensures ok ==> size == old(size) + 1 && values[..] == old(values[..])[old(size) :=
        PerfEventAttr(eventType, attrSize, eventSelect as bv64, excludeUser, excludeKernel, old(size) == 0)]
      ensures ok ==> (Contents() == old(Contents())
        + [PerfEventAttr(eventType, attrSize, eventSelect as bv64, excludeUser, excludeKernel, old(size) == 0)])
      ensures old(LeaderDisabled()) ==> LeaderDisabled()
    {
      var attr := PerfEventAttr(eventType, 0, eventSelect as bv64, excludeUser, excludeKernel, size == 0);
      ok := Add(attr);
    }

    /** `operator bool`: true exactly when some event has been added. */
    function IsNonEmpty(): (b: bool)
      reads this, values
      ensures Valid() ==> (b <==> |Contents()| > 0)
    {
      size != 0
    }

    /** `size()`: the number of events added, within the capacity. */
    function Size(): (n: int)
      reads this, values
      ensures Valid() ==> n == |Contents()| && 0 <= n <= capacity
    {
      size
    }
  }
}
