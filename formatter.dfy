/**
 * The bookkeeping of the request pretty-printer (lib/xpedite/pmu/Formatter.c): `pmcrqToString`
 * hands each event of a request to a formatter together with the room left in the output buffer,
 * advances past what the formatter wrote and reports the number of characters used. The
 * formatters themselves (snprintf calls) are a function from an event and the room it is given
 * to snprintf's return value: the length of the full text, or a negative error.
 */
module Formatter {
  import opened Results
  import opened PmuArch
  import opened PmuCtrl

  /** One event of a request, as handed to its formatter. */
  datatype Item = GpItem(gp: PMUGpEvent) | FixedItem(fixed: PMUFixedEvent) | OffcoreItem(offcore: bv64)

  /** The general-purpose slots, as handed to `gpEventToString`. */
  function GpItems(events: seq<PMUGpEvent>): (items: seq<Item>)
    ensures |items| == |events| && forall i :: 0 <= i < |events| ==> items[i] == GpItem(events[i])
  {
    seq(|events|, i requires 0 <= i < |events| => GpItem(events[i]))
  }

  /** The fixed slots, as handed to `fixedEventToString`. */
  function FixedItems(events: seq<PMUFixedEvent>): (items: seq<Item>)
    ensures |items| == |events| && forall i :: 0 <= i < |events| ==> items[i] == FixedItem(events[i])
  {
    seq(|events|, i requires 0 <= i < |events| => FixedItem(events[i]))
  }

  /** The offcore slots, as handed to `offcoreEventToString`. */
  function OffcoreItems(events: seq<bv64>): (items: seq<Item>)
    ensures |items| == |events| && forall i :: 0 <= i < |events| ==> items[i] == OffcoreItem(events[i])
  {
    seq(|events|, i requires 0 <= i < |events| => OffcoreItem(events[i]))
  }

  /** The order of printing: all 8 general-purpose slots, then 3 fixed, then 2 offcore. */
  function Items(r: PMUCtrlRequest): (items: seq<Item>)
    requires WellFormedRequest(r)
    ensures |items| == GP_EVENT_MAX + FIXED_EVENT_MAX + OFFCORE_EVENT_MAX
    ensures forall i :: 0 <= i < GP_EVENT_MAX ==> items[i] == GpItem(r.gpEvents[i])
    ensures forall i :: 0 <= i < FIXED_EVENT_MAX ==> items[GP_EVENT_MAX + i] == FixedItem(r.fixedEvents[i])
    ensures forall i :: 0 <= i < OFFCORE_EVENT_MAX ==>
      items[GP_EVENT_MAX + FIXED_EVENT_MAX + i] == OffcoreItem(r.offcoreEvents[i])
  {
    GpItems(r.gpEvents) + FixedItems(r.fixedEvents) + OffcoreItems(r.offcoreEvents)
  }

  /** What one step consumes: the formatter's length, clamped to leave room for the terminator. */
  function Clamp(fmtSize: int, capacity: int): int {
    if fmtSize < capacity then fmtSize else capacity - 1
  }

  /**
   * The capacity left after printing `items` from `capacity` on, or None when a formatter fails.
   * Printing stops once at most one character (the terminator) is left.
   */
  function Remaining(items: seq<Item>, fmt: (Item, int) -> int, capacity: int): Option<int>
    decreases |items|
  {
    if |items| == 0 || capacity <= 1 then Some(capacity)
    else
      var fmtSize := fmt(items[0], capacity);
      if fmtSize < 0 then None else Remaining(items[1..], fmt, capacity - Clamp(fmtSize, capacity))
  }

  /** The value `pmcrqToString(request, buffer, size)` returns. */
  function ToStringResult(r: PMUCtrlRequest, fmt: (Item, int) -> int, size: int): int
    requires WellFormedRequest(r)
  {
    match Remaining(Items(r), fmt, size)
    case None => 0
    case Some(capacity) => size - capacity
  }

  /** The room never drops below one character once printing starts, and never grows. */
  lemma {:induction false} RemainingBounds(items: seq<Item>, fmt: (Item, int) -> int, capacity: int)
    ensures capacity <= 1 ==> Remaining(items, fmt, capacity) == Some(capacity)
    ensures capacity >= 1 && Remaining(items, fmt, capacity).Some? ==>
      1 <= Remaining(items, fmt, capacity).value <= capacity
    decreases |items|
  {
    if |items| > 0 && capacity > 1 {
      var fmtSize := fmt(items[0], capacity);
      if fmtSize >= 0 {
        RemainingBounds(items[1..], fmt, capacity - Clamp(fmtSize, capacity));
      }
    }
  }

  /** The result is at most `size - 1` characters when there is room for a terminator, else 0. */
  lemma ToStringResultBounds(r: PMUCtrlRequest, fmt: (Item, int) -> int, size: int)
    requires WellFormedRequest(r)
    ensures size >= 1 ==> 0 <= ToStringResult(r, fmt, size) <= size - 1
    ensures size <= 1 ==> ToStringResult(r, fmt, size) == 0
  {
    RemainingBounds(Items(r), fmt, size);
  }

  /** Printing `a + b` is printing `a`, then printing `b` in the room `a` leaves. */
  lemma {:induction false} RemainingSplit(a: seq<Item>, b: seq<Item>, fmt: (Item, int) -> int, capacity: int)
    ensures Remaining(a + b, fmt, capacity) ==
      match Remaining(a, fmt, capacity)
      case None => None
      case Some(c) => Remaining(b, fmt, c)
    decreases |a|
  {
    if |a| == 0 {
      assert a + b == b;
    } else if capacity <= 1 {
      RemainingBounds(b, fmt, capacity);
    } else {
      assert (a + b)[1..] == a[1..] + b;
      var fmtSize := fmt(a[0], capacity);
      if fmtSize >= 0 {
        RemainingSplit(a[1..], b, fmt, capacity - Clamp(fmtSize, capacity));
      }
    }
  }

  /**
   * A negative formatter result makes the whole result 0: `j` events were printed, more than one
   * character of room is left, and the formatter fails on event `j`.
   */
  lemma FailureIsZero(r: PMUCtrlRequest, fmt: (Item, int) -> int, size: int, j: nat, c: int)
    requires WellFormedRequest(r) && j < |Items(r)|
    requires Remaining(Items(r)[..j], fmt, size) == Some(c) && c > 1 && fmt(Items(r)[j], c) < 0
    ensures ToStringResult(r, fmt, size) == 0
  {
    FailureStops(Items(r), fmt, size, j, c);
  }

  /** A formatter failing on `items[j]`, reached with room after printing `items[..j]`, fails the whole print. */
  lemma FailureStops(items: seq<Item>, fmt: (Item, int) -> int, size: int, j: nat, c: int)
    requires j < |items|
    requires Remaining(items[..j], fmt, size) == Some(c) && c > 1 && fmt(items[j], c) < 0
    ensures Remaining(items, fmt, size).None?
  {
    assert items == items[..j] + items[j..];
    RemainingSplit(items[..j], items[j..], fmt, size);
  }

  /** Without room for more than the terminator, no formatter is consulted and nothing is used. */
  lemma NoRoomNoCalls(r: PMUCtrlRequest, fmt: (Item, int) -> int, fmt': (Item, int) -> int, size: int)
    requires WellFormedRequest(r) && size <= 1
    ensures ToStringResult(r, fmt, size) == ToStringResult(r, fmt', size) == 0
  {
  }

  /** When every text fits, the result is the sum of the formatters' lengths. */
  lemma {:induction false} RemainingWhenAllFit(items: seq<Item>, fmt: (Item, int) -> int, capacity: int, total: int)
    requires Fits(items, fmt, capacity, total)
    ensures Remaining(items, fmt, capacity) == Some(capacity - total)
    decreases |items|
  {
    if |items| > 0 {
      var fmtSize := fmt(items[0], capacity);
      RemainingWhenAllFit(items[1..], fmt, capacity - fmtSize, total - fmtSize);
    }
  }

  /**
   * Every formatter succeeds with a text shorter than the room it is given and leaves more than
   * one character, and the lengths add up to `total`.
   */
  predicate Fits(items: seq<Item>, fmt: (Item, int) -> int, capacity: int, total: int)
    decreases |items|
  {
    if |items| == 0 then total == 0
    else
      capacity > 1 && 0 <= fmt(items[0], capacity) < capacity - 1
      && Fits(items[1..], fmt, capacity - fmt(items[0], capacity), total - fmt(items[0], capacity))
  }

  /** `toBoolenChar`: 'y' for a nonzero flag, 'n' for zero. */
  function ToBoolenChar(v: int): (c: char)
    ensures c == 'y' || c == 'n'
    ensures c == 'y' <==> v != 0
  {
    if v != 0 then 'y' else 'n'
  }

  /** One printed event: the room left after `items[j..]` is the room left after `items[j + 1..]` from the clamped step. */
  lemma PrintStep(items: seq<Item>, fmt: (Item, int) -> int, j: nat, capacity: int)
    requires j < |items| && capacity > 1 && fmt(items[j], capacity) >= 0
    ensures Remaining(items[j..], fmt, capacity)
      == Remaining(items[j + 1..], fmt, capacity - Clamp(fmt(items[j], capacity), capacity))
  {
    assert items[j..][1..] == items[j + 1..];
  }

  /** A formatter failing on `items[j]` makes the rest fail. */
  lemma PrintFails(items: seq<Item>, fmt: (Item, int) -> int, j: nat, capacity: int)
    requires j < |items| && capacity > 1 && fmt(items[j], capacity) < 0
    ensures Remaining(items[j..], fmt, capacity).None?
  {
  }

  /** Nothing more is printed once the items are exhausted or the room is down to the terminator. */
  lemma PrintDone(items: seq<Item>, fmt: (Item, int) -> int, j: nat, capacity: int)
    requires j <= |items| && (j == |items| || capacity <= 1)
    ensures Remaining(items[j..], fmt, capacity) == Some(capacity)
  {
  }

  /**
   * `pmcrqToString`: three loops over the gp, fixed and offcore slots, each stopping once at most
   * one character of room is left. A negative formatter result returns 0 at once.
   */
  method PmcrqToString(r: PMUCtrlRequest, fmt: (Item, int) -> int, size: int) returns (result: int)
    requires WellFormedRequest(r)
    ensures result == ToStringResult(r, fmt, size)
  {
    var gp, fixed, offcore := GpItems(r.gpEvents), FixedItems(r.fixedEvents), OffcoreItems(r.offcoreEvents);
    assert Items(r) == gp + fixed + offcore;
    RemainingSplit(gp + fixed, offcore, fmt, size);
    RemainingSplit(gp, fixed, fmt, size);
    var capacity := PrintGp(r.gpEvents, fmt, size);
    if capacity.None? {
      return 0;
    }
    capacity := PrintFixed(r.fixedEvents, fmt, capacity.value);
    if capacity.None? {
      return 0;
    }
    capacity := PrintOffcore(r.offcoreEvents, fmt, capacity.value);
    if capacity.None? {
      return 0;
    }
    result := size - capacity.value;
  }

  /** The loop over the gp slots: the room left, or None when a formatter fails. */
  method PrintGp(events: seq<PMUGpEvent>, fmt: (Item, int) -> int, size: int) returns (left: Option<int>)
    requires |events| == GP_EVENT_MAX
    ensures left == Remaining(GpItems(events), fmt, size)
  {
    ghost var items := GpItems(events);
    var capacity := size;
    var i := 0;
    while capacity > 1 && i < GP_EVENT_MAX
      invariant 0 <= i <= GP_EVENT_MAX
      invariant Remaining(items, fmt, size) == Remaining(items[i..], fmt, capacity)
    {
      var fmtSize := fmt(GpItem(events[i]), capacity);
      if fmtSize < 0 {
        PrintFails(items, fmt, i, capacity);
        return None;
      }
      PrintStep(items, fmt, i, capacity);
      fmtSize := if fmtSize < capacity then fmtSize else capacity - 1;
      i, capacity := i + 1, capacity - fmtSize;
    }
    PrintDone(items, fmt, i, capacity);
    left := Some(capacity);
  }

  /** The loop over the fixed slots: the room left, or None when a formatter fails. */
  method PrintFixed(events: seq<PMUFixedEvent>, fmt: (Item, int) -> int, size: int) returns (left: Option<int>)
    requires |events| == FIXED_EVENT_MAX
    ensures left == Remaining(FixedItems(events), fmt, size)
  {
    ghost var items := FixedItems(events);
    var capacity := size;
    var i := 0;
    while capacity > 1 && i < FIXED_EVENT_MAX
      invariant 0 <= i <= FIXED_EVENT_MAX
      invariant Remaining(items, fmt, size) == Remaining(items[i..], fmt, capacity)
    {
      var fmtSize := fmt(FixedItem(events[i]), capacity);
      if fmtSize < 0 {
        PrintFails(items, fmt, i, capacity);
        return None;
      }
      PrintStep(items, fmt, i, capacity);
      fmtSize := if fmtSize < capacity then fmtSize else capacity - 1;
      i, capacity := i + 1, capacity - fmtSize;
    }
    PrintDone(items, fmt, i, capacity);
    left := Some(capacity);
  }

  /** The loop over the offcore slots: the room left, or None when a formatter fails. */
  method PrintOffcore(events: seq<bv64>, fmt: (Item, int) -> int, size: int) returns (left: Option<int>)
    requires |events| == OFFCORE_EVENT_MAX
    ensures left == Remaining(OffcoreItems(events), fmt, size)
  {
    ghost var items := OffcoreItems(events);
    var capacity := size;
    var i := 0;
    while capacity > 1 && i < OFFCORE_EVENT_MAX
      invariant 0 <= i <= OFFCORE_EVENT_MAX
      invariant Remaining(items, fmt, size) == Remaining(items[i..], fmt, capacity)
    {
      var fmtSize := fmt(OffcoreItem(events[i]), capacity);
      if fmtSize < 0 {
        PrintFails(items, fmt, i, capacity);
        return None;
      }
      PrintStep(items, fmt, i, capacity);
      fmtSize := if fmtSize < capacity then fmtSize else capacity - 1;
      i, capacity := i + 1, capacity - fmtSize;
    }
    PrintDone(items, fmt, i, capacity);
    left := Some(capacity);
  }
}
