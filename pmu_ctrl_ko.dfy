/**
 * The kernel module's request path (ko/PMUCtrl.c): the wire layout of a
 * PMUCtrlRequest (ko/PMUCtrl.h), the register encodings of the Intel SDM
 * Vol. 3B, chapter 18 (IA32_PERFEVTSELx, section 18.2.1.1; IA32_FIXED_CTR_CTRL
 * and IA32_PERF_GLOBAL_CTRL, section 18.2.2), request validation, and the
 * programming of the target core.
 */
module PmuCtrl {
  import opened Results
  import opened PmuArch

  /** sizeof(PMUCtrlRequest): 4 header bytes, 3 fixed events of 3 bytes, 8 generic of 8, 2 offcore of 8. */
  const REQUEST_SIZE: int := 93

  /** A fixed-counter event request (ko/PMUCtrl.h:19-24). */
  datatype PMUFixedEvent = PMUFixedEvent(ctrIndex: bv8, user: bv8, kernel: bv8)

  /** A general-purpose event request (ko/PMUCtrl.h:26-36). */
  datatype PMUGpEvent = PMUGpEvent(
    eventSelect: bv8, unitMask: bv8, user: bv8, kernel: bv8,
    invertCMask: bv8, counterMask: bv8, edgeDetect: bv8, anyThread: bv8)

  /** A request written to the device (ko/PMUCtrl.h:40-49); offcore events are raw 64-bit values. */
  datatype PMUCtrlRequest = PMUCtrlRequest(
    cpu: bv8, fixedEvtCount: bv8, gpEvtCount: bv8, offcoreEvtCount: bv8,
    fixedEvents: seq<PMUFixedEvent>, gpEvents: seq<PMUGpEvent>, offcoreEvents: seq<bv64>)

  /** The fixed-size arrays of the packed C struct. */
  predicate WellFormedRequest(r: PMUCtrlRequest) {
    |r.fixedEvents| == FIXED_EVENT_MAX && |r.gpEvents| == GP_EVENT_MAX && |r.offcoreEvents| == OFFCORE_EVENT_MAX
  }

  // ---------------------------------------------------------------------
  // Wire layout: the packed struct as bytes (x86, little-endian).
  // ---------------------------------------------------------------------

  /** A uint64_t read from its 8 bytes in memory, least significant first. */
  function U64From(b: seq<bv8>): bv64
    requires |b| == 8
  {
    (b[0] as bv64) | ((b[1] as bv64) << 8) | ((b[2] as bv64) << 16) | ((b[3] as bv64) << 24)
      | ((b[4] as bv64) << 32) | ((b[5] as bv64) << 40) | ((b[6] as bv64) << 48) | ((b[7] as bv64) << 56)
  }

  /** The byte of a 64-bit value that starts at bit `k`. */
  function ByteAt(v: bv64, k: bv8): bv8
    requires k < 64
  {
    ((v >> k) & 0xFF) as bv8
  }

  /** The memory image of a uint64_t on x86. */
  function U64Bytes(v: bv64): (b: seq<bv8>)
    ensures |b| == 8
  {
    [ByteAt(v, 0), ByteAt(v, 8), ByteAt(v, 16), ByteAt(v, 24), ByteAt(v, 32), ByteAt(v, 40), ByteAt(v, 48), ByteAt(v, 56)]
  }

  lemma LowBytesOf(b0: bv8, b1: bv8, b2: bv8, b3: bv8, b4: bv8, b5: bv8, b6: bv8, b7: bv8)
    ensures var v := U64From([b0, b1, b2, b3, b4, b5, b6, b7]);
      ByteAt(v, 0) == b0 && ByteAt(v, 8) == b1 && ByteAt(v, 16) == b2 && ByteAt(v, 24) == b3
  {
  }

  lemma HighBytesOf(b0: bv8, b1: bv8, b2: bv8, b3: bv8, b4: bv8, b5: bv8, b6: bv8, b7: bv8)
    ensures var v := U64From([b0, b1, b2, b3, b4, b5, b6, b7]);
      ByteAt(v, 32) == b4 && ByteAt(v, 40) == b5 && ByteAt(v, 48) == b6 && ByteAt(v, 56) == b7
  {
  }

  /** A 64-bit value survives its memory image. */
  lemma U64FromBytes(v: bv64)
    ensures U64From(U64Bytes(v)) == v
  {
  }

  /** A memory image survives the value read from it. */
  lemma U64BytesFrom(b: seq<bv8>)
    requires |b| == 8
    ensures U64Bytes(U64From(b)) == b
  {
    LowBytesOf(b[0], b[1], b[2], b[3], b[4], b[5], b[6], b[7]);
    HighBytesOf(b[0], b[1], b[2], b[3], b[4], b[5], b[6], b[7]);
    assert b == [b[0], b[1], b[2], b[3], b[4], b[5], b[6], b[7]];
  }

  function DecodeFixed(b: seq<bv8>): PMUFixedEvent
    requires |b| == 3
  {
    PMUFixedEvent(b[0], b[1], b[2])
  }

  function DecodeGp(b: seq<bv8>): PMUGpEvent
    requires |b| == 8
  {
    PMUGpEvent(b[0], b[1], b[2], b[3], b[4], b[5], b[6], b[7])
  }

  function EncodeFixed(e: PMUFixedEvent): (b: seq<bv8>)
    ensures |b| == 3
  {
    [e.ctrIndex, e.user, e.kernel]
  }

  function EncodeGp(e: PMUGpEvent): (b: seq<bv8>)
    ensures |b| == 8
  {
    [e.eventSelect, e.unitMask, e.user, e.kernel, e.invertCMask, e.counterMask, e.edgeDetect, e.anyThread]
  }

  lemma GpEventBytes(b: seq<bv8>)
    requires |b| == 8
    ensures EncodeGp(DecodeGp(b)) == b
  {
    assert b == [b[0], b[1], b[2], b[3], b[4], b[5], b[6], b[7]];
  }

  /** The bytes of an array of fixed events, back to back. */
  function FixedBytes(es: seq<PMUFixedEvent>): (b: seq<bv8>)
    ensures |b| == 3 * |es|
  {
    if |es| == 0 then [] else EncodeFixed(es[0]) + FixedBytes(es[1..])
  }

  function FixedFromBytes(b: seq<bv8>): (es: seq<PMUFixedEvent>)
    requires |b| % 3 == 0
    ensures |es| == |b| / 3
  {
    if |b| == 0 then [] else [DecodeFixed(b[..3])] + FixedFromBytes(b[3..])
  }

  function GpBytes(es: seq<PMUGpEvent>): (b: seq<bv8>)
    ensures |b| == 8 * |es|
  {
    if |es| == 0 then [] else EncodeGp(es[0]) + GpBytes(es[1..])
  }

  function GpFromBytes(b: seq<bv8>): (es: seq<PMUGpEvent>)
    requires |b| % 8 == 0
    ensures |es| == |b| / 8
  {
    if |b| == 0 then [] else [DecodeGp(b[..8])] + GpFromBytes(b[8..])
  }

  function OffcoreBytes(vs: seq<bv64>): (b: seq<bv8>)
    ensures |b| == 8 * |vs|
  {
    if |vs| == 0 then [] else U64Bytes(vs[0]) + OffcoreBytes(vs[1..])
  }

  function OffcoreFromBytes(b: seq<bv8>): (vs: seq<bv64>)
    requires |b| % 8 == 0
    ensures |vs| == |b| / 8
  {
    if |b| == 0 then [] else [U64From(b[..8])] + OffcoreFromBytes(b[8..])
  }

  lemma {:induction false} FixedRoundTrip(es: seq<PMUFixedEvent>)
    ensures FixedFromBytes(FixedBytes(es)) == es
  {
    if |es| > 0 {
      var b := FixedBytes(es);
      assert b[..3] == EncodeFixed(es[0]) && b[3..] == FixedBytes(es[1..]);
      FixedRoundTrip(es[1..]);
    }
  }

  lemma {:induction false} FixedBytesOf(b: seq<bv8>)
    requires |b| % 3 == 0
    ensures FixedBytes(FixedFromBytes(b)) == b
  {
    if |b| > 0 {
      var es := FixedFromBytes(b);
      assert es[0] == DecodeFixed(b[..3]) && es[1..] == FixedFromBytes(b[3..]);
      FixedBytesOf(b[3..]);
      assert b == b[..3] + b[3..];
    }
  }

  lemma {:induction false} GpRoundTrip(es: seq<PMUGpEvent>)
    ensures GpFromBytes(GpBytes(es)) == es
  {
    if |es| > 0 {
      var b := GpBytes(es);
      assert b[..8] == EncodeGp(es[0]) && b[8..] == GpBytes(es[1..]);
      GpRoundTrip(es[1..]);
    }
  }

  lemma {:induction false} GpBytesOf(b: seq<bv8>)
    requires |b| % 8 == 0
    ensures GpBytes(GpFromBytes(b)) == b
  {
    if |b| > 0 {
      var es := GpFromBytes(b);
      assert es[0] == DecodeGp(b[..8]) && es[1..] == GpFromBytes(b[8..]);
      GpEventBytes(b[..8]);
      GpBytesOf(b[8..]);
      assert b == b[..8] + b[8..];
    }
  }

  lemma {:induction false} OffcoreRoundTrip(vs: seq<bv64>)
    ensures OffcoreFromBytes(OffcoreBytes(vs)) == vs
  {
    if |vs| > 0 {
      var b := OffcoreBytes(vs);
      assert b[..8] == U64Bytes(vs[0]) && b[8..] == OffcoreBytes(vs[1..]);
      U64FromBytes(vs[0]);
      OffcoreRoundTrip(vs[1..]);
    }
  }

  lemma {:induction false} OffcoreBytesOf(b: seq<bv8>)
    requires |b| % 8 == 0
    ensures OffcoreBytes(OffcoreFromBytes(b)) == b
  {
    if |b| > 0 {
      var vs := OffcoreFromBytes(b);
      assert vs[0] == U64From(b[..8]) && vs[1..] == OffcoreFromBytes(b[8..]);
      U64BytesFrom(b[..8]);
      OffcoreBytesOf(b[8..]);
      assert b == b[..8] + b[8..];
    }
  }

  /** Byte offsets of the sections of the packed struct. */
  const FIXED_OFFSET: int := 4
  const GP_OFFSET: int := 13
  const OFFCORE_OFFSET: int := 77

  /** Reads the packed struct from its 93 bytes, as `copy_from_user` into a `PMUCtrlRequest` does. */
  function DecodeRequest(b: seq<bv8>): (r: PMUCtrlRequest)
    requires |b| == REQUEST_SIZE
    ensures WellFormedRequest(r)
  {
    PMUCtrlRequest(b[0], b[1], b[2], b[3],
      FixedFromBytes(b[FIXED_OFFSET..GP_OFFSET]),
      GpFromBytes(b[GP_OFFSET..OFFCORE_OFFSET]),
      OffcoreFromBytes(b[OFFCORE_OFFSET..REQUEST_SIZE]))
  }

  /** The bytes of a request: the four counts, then each array in declaration order. */
  function EncodeRequest(r: PMUCtrlRequest): (b: seq<bv8>)
    ensures |b| >= 4 && b[0] == r.cpu
    ensures WellFormedRequest(r) ==> |b| == REQUEST_SIZE
  {
    [r.cpu, r.fixedEvtCount, r.gpEvtCount, r.offcoreEvtCount]
      + FixedBytes(r.fixedEvents) + GpBytes(r.gpEvents) + OffcoreBytes(r.offcoreEvents)
  }

  /** Every well-formed request is 93 bytes on the wire, and reading them back gives the request. */
  lemma DecodeEncode(r: PMUCtrlRequest)
    requires WellFormedRequest(r)
    ensures |EncodeRequest(r)| == REQUEST_SIZE
    ensures DecodeRequest(EncodeRequest(r)) == r
  {
    var b := EncodeRequest(r);
    assert b[FIXED_OFFSET..GP_OFFSET] == FixedBytes(r.fixedEvents);
    assert b[GP_OFFSET..OFFCORE_OFFSET] == GpBytes(r.gpEvents);
    assert b[OFFCORE_OFFSET..REQUEST_SIZE] == OffcoreBytes(r.offcoreEvents);
    FixedRoundTrip(r.fixedEvents);
    GpRoundTrip(r.gpEvents);
    OffcoreRoundTrip(r.offcoreEvents);
  }

  /** The first four elements of a sequence, as a display. */
  lemma HeaderSlice<T>(b: seq<T>)
    requires |b| >= 4
    ensures b[..4] == [b[0], b[1], b[2], b[3]]
  {
  }

  /** A sequence is its four slices cut at `i`, `j` and `k`, put back together. */
  lemma SplitFour<T>(b: seq<T>, i: nat, j: nat, k: nat)
    requires i <= j <= k <= |b|
    ensures b == b[..i] + b[i..j] + b[j..k] + b[k..|b|]
  {
  }

  /** Every 93-byte buffer is the encoding of the request it decodes to. */
  lemma EncodeDecode(b: seq<bv8>)
    requires |b| == REQUEST_SIZE
    ensures EncodeRequest(DecodeRequest(b)) == b
  {
    var header, fb, gb, ob := b[..FIXED_OFFSET], b[FIXED_OFFSET..GP_OFFSET], b[GP_OFFSET..OFFCORE_OFFSET], b[OFFCORE_OFFSET..REQUEST_SIZE];
    assert |fb| == 9 && |gb| == 64 && |ob| == 16;
    var d := DecodeRequest(b);
    assert d.fixedEvents == FixedFromBytes(fb) && d.gpEvents == GpFromBytes(gb) && d.offcoreEvents == OffcoreFromBytes(ob);
    FixedBytesOf(fb);
    GpBytesOf(gb);
    OffcoreBytesOf(ob);
    HeaderSlice(b);
    SplitFour(b, FIXED_OFFSET, GP_OFFSET, OFFCORE_OFFSET);
  }

  // ---------------------------------------------------------------------
  // Register encodings.
  // ---------------------------------------------------------------------

  /** Bit k of a 32-bit register value. */
  predicate Bit32(v: bv32, k: bv8)
    requires k < 32
  {
    (v >> k) & 1 == 1
  }

  /** A C truth value stored into a one-bit field: `x != 0`. */
  function Flag(x: bv8): bv32 {
    if x != 0 then 1 else 0
  }

  /**
   * buildPerfEvtSelBitmask (ko/PMUCtrl.c:182-216): the IA32_PERFEVTSELx
   * value for a generic event, laid out as the union's bit-fields.
   */
  function BuildPerfEvtSelBitmask(e: PMUGpEvent): (r: bv32)
    ensures Bit32(r, 22) && !Bit32(r, 19) && !Bit32(r, 20)
  {
    (e.eventSelect as bv32)
      | ((e.unitMask as bv32) << 8)
      | (Flag(e.user) << 16)
      | (Flag(e.kernel) << 17)
      | (Flag(e.edgeDetect) << 18)
      | (Flag(e.anyThread) << 21)
      | ((1 as bv32) << 22)
      | (Flag(e.invertCMask) << 23)
      | ((e.counterMask as bv32) << 24)
  }

  /** The event select, unit mask and counter mask bytes of IA32_PERFEVTSELx carry the request's values unchanged. */
  lemma PerfEvtSelFields(e: PMUGpEvent)
    ensures var r := BuildPerfEvtSelBitmask(e);
      && r & 0xFF == e.eventSelect as bv32
      && (r >> 8) & 0xFF == e.unitMask as bv32
      && (r >> 24) & 0xFF == e.counterMask as bv32
  {
  }

  /**
   * The one-bit fields: USR, OS, E, ANY and INV are set exactly when the
   * request's byte is non-zero; EN is always set; PC and INT are always clear.
   */
  lemma PerfEvtSelFlags(e: PMUGpEvent)
    ensures var r := BuildPerfEvtSelBitmask(e);
      && (Bit32(r, 16) <==> e.user != 0)
      && (Bit32(r, 17) <==> e.kernel != 0)
      && (Bit32(r, 18) <==> e.edgeDetect != 0)
      && !Bit32(r, 19) && !Bit32(r, 20)
      && (Bit32(r, 21) <==> e.anyThread != 0)
      && Bit32(r, 22)
      && (Bit32(r, 23) <==> e.invertCMask != 0)
  {
  }

  /**
   * feEnablemask (ko/PMUCtrl.c:228-234): the 2-bit enable field of a fixed
   * counter, where bit 0 counts at ring 0 and bit 1 above ring 0.  Only user
   * and kernel gives 3, user alone 2, and anything else, including neither, 1.
   */
  function FeEnablemask(e: PMUFixedEvent): (r: bv8)
    ensures r == 1 || r == 2 || r == 3
    ensures (r & 2 == 2) <==> e.user != 0
    ensures (r & 1 == 1) <==> (e.kernel != 0 || e.user == 0)
  {
    if e.user != 0 && e.kernel != 0 then 3 else if e.user != 0 then 2 else 1
  }

  /**
   * The position, among the first `count` fixed events, of the first whose
   * counter index is `ctr` (findFixedEvtForCtr returns a pointer to it).
   */
  function FirstFixedFor(events: seq<PMUFixedEvent>, count: nat, ctr: bv8): (r: Option<nat>)
    requires count <= |events|
    ensures r.Some? ==> (r.value < count && events[r.value].ctrIndex == ctr
      && forall j :: 0 <= j < r.value ==> events[j].ctrIndex != ctr)
    ensures r.None? ==> forall j :: 0 <= j < count ==> events[j].ctrIndex != ctr
    decreases count
  {
    if count == 0 then None
    else
      match FirstFixedFor(events, count - 1, ctr)
      case Some(j) => Some(j)
      case None => if events[count - 1].ctrIndex == ctr then Some(count - 1) else None
  }

  /** The enable field for fixed counter `ctr`: the first matching event's mask, or 0 when none asks for it. */
  function FixedEnable(events: seq<PMUFixedEvent>, count: nat, ctr: bv8): bv32
    requires count <= |events|
  {
    match FirstFixedFor(events, count, ctr)
    case None => 0
    case Some(j) => FeEnablemask(events[j]) as bv32
  }

  /** The IA32_FIXED_CTR_CTRL value buildFixedEvtSelBitmask builds (ko/PMUCtrl.c:236-272). */
  function FixedEvtSel(events: seq<PMUFixedEvent>, count: nat): bv32
    requires count <= |events|
  {
    FixedEnable(events, count, 0) | (FixedEnable(events, count, 1) << 4) | (FixedEnable(events, count, 2) << 8)
  }

  /**
   * IA32_FIXED_CTR_CTRL layout: counter i's enable field sits in bits
   * 4i..4i+1; the any-thread and PMI bits and the reserved bits are 0.
   */
  lemma FixedEvtSelLayout(events: seq<PMUFixedEvent>, count: nat)
    requires count <= |events|
    ensures var r := FixedEvtSel(events, count);
      && r & 3 == FixedEnable(events, count, 0)
      && (r >> 4) & 3 == FixedEnable(events, count, 1)
      && (r >> 8) & 3 == FixedEnable(events, count, 2)
      && r & 0xCCC == 0
      && r < 0x1000
  {
    var e0, e1, e2 := FixedEnable(events, count, 0), FixedEnable(events, count, 1), FixedEnable(events, count, 2);
    assert e0 <= 3 && e1 <= 3 && e2 <= 3;
  }

  /** The fixed events among the first `count` all name a fixed counter (index below 3). */
  predicate FixedIndicesValid(events: seq<PMUFixedEvent>, count: nat)
    requires count <= |events|
  {
    forall j :: 0 <= j < count ==> events[j].ctrIndex as int < FIXED_EVENT_MAX
  }

  /** The OR of `1 << ctrIndex` over the first `count` events. */
  function FixedBits(events: seq<PMUFixedEvent>, count: nat): bv32
    requires count <= |events|
    requires FixedIndicesValid(events, count)
    decreases count
  {
    if count == 0 then 0
    else FixedBits(events, count - 1) | ((1 as bv32) << events[count - 1].ctrIndex)
  }

  /** The value of buildFixedEvtGlobalCtrlBitmask (ko/PMUCtrl.c:274-288): 0 as soon as any index is 3 or more. */
  function FixedGlobalCtrl(events: seq<PMUFixedEvent>, count: nat): bv32
    requires count <= |events|
  {
    if FixedIndicesValid(events, count) then FixedBits(events, count) else 0
  }

  /** Bit k of the OR is set exactly when some event names counter k, and no bit from 3 up is ever set. */
  lemma {:induction false} FixedBitsMeaning(events: seq<PMUFixedEvent>, count: nat, k: bv8)
    requires count <= |events|
    requires FixedIndicesValid(events, count)
    requires k < 32
    ensures Bit32(FixedBits(events, count), k) <==> exists j :: 0 <= j < count && events[j].ctrIndex == k
    ensures FixedBits(events, count) < 8
    decreases count
  {
    if count > 0 {
      FixedBitsMeaning(events, count - 1, k);
      var c := events[count - 1].ctrIndex;
      assert c < 3;
      if Bit32(FixedBits(events, count), k) && !Bit32(FixedBits(events, count - 1), k) {
        assert c == k;
      }
    }
  }

  /**
   * The global-control mask of a request: bit k (k < 3) set iff some fixed
   * event names counter k, and the mask is 0 for a non-empty request exactly
   * when some event names a counter that does not exist.
   */
  lemma FixedGlobalCtrlMeaning(events: seq<PMUFixedEvent>, count: nat)
    requires count <= |events|
    ensures FixedGlobalCtrl(events, count) < 8
    ensures FixedIndicesValid(events, count) ==> forall k: bv8 :: k < 3 ==>
      (Bit32(FixedGlobalCtrl(events, count), k) <==> exists j :: 0 <= j < count && events[j].ctrIndex == k)
    ensures 0 < count ==> (FixedGlobalCtrl(events, count) == 0 <==> !FixedIndicesValid(events, count))
  {
    if FixedIndicesValid(events, count) {
      FixedBitsMeaning(events, count, 0);
      forall k: bv8 | k < 3 ensures Bit32(FixedGlobalCtrl(events, count), k) <==> exists j :: 0 <= j < count && events[j].ctrIndex == k {
        FixedBitsMeaning(events, count, k);
      }
      if 0 < count {
        var c := events[0].ctrIndex;
        FixedBitsMeaning(events, count, c);
        assert Bit32(FixedBits(events, count), c);
      }
    }
  }

  /** One more valid event ORs its counter's bit into the accumulated mask. */
  lemma FixedBitsStep(events: seq<PMUFixedEvent>, i: nat)
    requires i < |events| && FixedIndicesValid(events, i) && events[i].ctrIndex as int < FIXED_EVENT_MAX
    ensures FixedIndicesValid(events, i + 1)
    ensures FixedBits(events, i + 1) == FixedBits(events, i) | ((1 as bv32) << events[i].ctrIndex)
  {
  }

  /** findFixedEvtForCtr (ko/PMUCtrl.c:218-226): a linear search with an early return. */
  method FindFixedEvtForCtr(ctr: bv8, events: seq<PMUFixedEvent>, count: bv8) returns (r: Option<nat>)
    requires count as int <= |events|
    ensures r == FirstFixedFor(events, count as int, ctr)
  {
    var i := 0;
    while i < count as int
      invariant 0 <= i <= count as int
      invariant forall j :: 0 <= j < i ==> events[j].ctrIndex != ctr
    {
      if events[i].ctrIndex == ctr {
        FirstAfterMisses(events, count as int, i, ctr);
        return Some(i);
      }
      i := i + 1;
    }
    FirstAfterMisses(events, count as int, count as int, ctr);
    r := None;
  }

  /** Extending the searched prefix past a miss-only prefix does not change where the first match is. */
  lemma FirstAfterMisses(events: seq<PMUFixedEvent>, count: nat, i: nat, ctr: bv8)
    requires i <= count <= |events|
    requires forall j :: 0 <= j < i ==> events[j].ctrIndex != ctr
    ensures i < count && events[i].ctrIndex == ctr ==> FirstFixedFor(events, count, ctr) == Some(i)
    ensures i == count ==> FirstFixedFor(events, count, ctr) == None
  {
    var r := FirstFixedFor(events, count, ctr);
    if r.Some? {
      assert r.value >= i;
    }
  }

  /** buildFixedEvtSelBitmask (ko/PMUCtrl.c:236-272): one search per fixed counter, then the bit packing. */
  method BuildFixedEvtSelBitmask(events: seq<PMUFixedEvent>, count: bv8) returns (r: bv32)
    requires count as int <= |events|
    ensures r == FixedEvtSel(events, count as int)
  {
    var evt0 := FindFixedEvtForCtr(0, events, count);
    var evt1 := FindFixedEvtForCtr(1, events, count);
    var evt2 := FindFixedEvtForCtr(2, events, count);
    var enable0: bv32 := if evt0.Some? then FeEnablemask(events[evt0.value]) as bv32 else 0;
    var enable1: bv32 := if evt1.Some? then FeEnablemask(events[evt1.value]) as bv32 else 0;
    var enable2: bv32 := if evt2.Some? then FeEnablemask(events[evt2.value]) as bv32 else 0;
    r := enable0 | (enable1 << 4) | (enable2 << 8);
  }

  /** buildFixedEvtGlobalCtrlBitmask (ko/PMUCtrl.c:274-288): an OR accumulator that returns 0 at the first bad index. */
  method BuildFixedEvtGlobalCtrlBitmask(events: seq<PMUFixedEvent>, count: bv8) returns (value: bv32)
    requires count as int <= |events|
    ensures value == FixedGlobalCtrl(events, count as int)
  {
    value := 0;
    var i := 0;
    while i < count as int
      invariant 0 <= i <= count as int
      invariant FixedIndicesValid(events, i)
      invariant value == FixedBits(events, i)
    {
      if (events[i].ctrIndex as int) < FIXED_EVENT_MAX {
        value := value | ((1 as bv32) << events[i].ctrIndex);
      } else {
        assert !FixedIndicesValid(events, count as int) by {
          assert events[i].ctrIndex as int >= FIXED_EVENT_MAX;
        }
        return 0;
      }
      FixedBitsStep(events, i);
      i := i + 1;
    }
  }

  // ---------------------------------------------------------------------
  // Validation and the event set.
  // ---------------------------------------------------------------------

  /** The error processRequest returns before any programming, or 0 when the request passes (ko/PMUCtrl.c:315-336, :350-354). */
  function RequestError(r: PMUCtrlRequest, cpuActive: bool): (err: int)
    requires WellFormedRequest(r)
    ensures err == 0 || err == -ENXIO || err == -EFAULT
  {
    if !cpuActive then -ENXIO
    else if r.fixedEvtCount as int > FIXED_EVENT_MAX then -EFAULT
    else if r.gpEvtCount as int > GP_EVENT_MAX then -EFAULT
    else if r.offcoreEvtCount as int > OFFCORE_EVENT_MAX then -EFAULT
    else if r.fixedEvtCount != 0 && FixedGlobalCtrl(r.fixedEvents, r.fixedEvtCount as int) == 0 then -EFAULT
    else 0
  }

  /** A request passes validation exactly when its cpu is active, its counts fit and every fixed index names a counter. */
  lemma RequestErrorMeaning(r: PMUCtrlRequest, cpuActive: bool)
    requires WellFormedRequest(r)
    ensures RequestError(r, cpuActive) == 0 <==>
      cpuActive && r.fixedEvtCount as int <= FIXED_EVENT_MAX && r.gpEvtCount as int <= GP_EVENT_MAX
      && r.offcoreEvtCount as int <= OFFCORE_EVENT_MAX && FixedIndicesValid(r.fixedEvents, r.fixedEvtCount as int)
    ensures !cpuActive ==> RequestError(r, cpuActive) == -ENXIO
  {
    if r.fixedEvtCount as int <= FIXED_EVENT_MAX {
      FixedGlobalCtrlMeaning(r.fixedEvents, r.fixedEvtCount as int);
    }
  }

  /** The event set processRequest hands to the target core for a request that passed validation. */
  function EventSetOf(r: PMUCtrlRequest): (es: PMUEventSet)
    requires WellFormedRequest(r)
    requires r.fixedEvtCount as int <= FIXED_EVENT_MAX && r.gpEvtCount as int <= GP_EVENT_MAX
    requires r.offcoreEvtCount as int <= OFFCORE_EVENT_MAX
    ensures Programmable(es)
  {
    var fixed := r.fixedEvtCount != 0;
    PMUEventSet(
      if fixed then (FixedGlobalCtrl(r.fixedEvents, r.fixedEvtCount as int) & 0xFF) as bv8 else 0,
      if fixed then FixedEvtSel(r.fixedEvents, r.fixedEvtCount as int) else 0,
      r.gpEvtCount,
      seq(GP_EVENT_MAX, i requires 0 <= i < GP_EVENT_MAX =>
        if i < r.gpEvtCount as int then BuildPerfEvtSelBitmask(r.gpEvents[i]) else 0),
      r.offcoreEvtCount,
      seq(OFFCORE_EVENT_MAX, i requires 0 <= i < OFFCORE_EVENT_MAX =>
        if i < r.offcoreEvtCount as int then r.offcoreEvents[i] else 0),
      0)
  }

  /** Fixed counter k's enable bit in the event set's global-control byte. */
  predicate FixedCtrEnabled(mask: bv8, k: bv8)
    requires k < 8
  {
    (mask >> k) & 1 == 1
  }

  /** The event set copies the counts and offcore values and encodes each generic event. */
  lemma EventSetOfCopies(r: PMUCtrlRequest)
    requires WellFormedRequest(r) && RequestError(r, true) == 0
    ensures var es := EventSetOf(r);
      && es.gpEvtCount == r.gpEvtCount && es.offcoreEvtCount == r.offcoreEvtCount
      && (forall i :: 0 <= i < r.gpEvtCount as int ==> es.gpEvtSel[i] == BuildPerfEvtSelBitmask(r.gpEvents[i]))
      && (forall i :: 0 <= i < r.offcoreEvtCount as int ==> es.offcoreEvtSel[i] == r.offcoreEvents[i])
  {
    RequestErrorMeaning(r, true);
  }

  /** The event set's global-control byte enables exactly the fixed counters the request names. */
  lemma EventSetOfFixedCtrl(r: PMUCtrlRequest)
    requires WellFormedRequest(r) && RequestError(r, true) == 0
    ensures EventSetOf(r).fixedEvtGlobalCtrl < 8
    ensures forall k: bv8 :: k < 3 ==> (FixedCtrEnabled(EventSetOf(r).fixedEvtGlobalCtrl, k) <==>
      exists j :: 0 <= j < r.fixedEvtCount as int && r.fixedEvents[j].ctrIndex == k)
  {
    RequestErrorMeaning(r, true);
    FixedGlobalCtrlMeaning(r.fixedEvents, r.fixedEvtCount as int);
    var m := FixedGlobalCtrl(r.fixedEvents, r.fixedEvtCount as int);
    forall k: bv8 | k < 3
      ensures FixedCtrEnabled(EventSetOf(r).fixedEvtGlobalCtrl, k) <==>
        exists j :: 0 <= j < r.fixedEvtCount as int && r.fixedEvents[j].ctrIndex == k
    {
      if r.fixedEvtCount != 0 {
        NarrowMask(m, k);
      }
    }
  }

  /** Storing the global-control mask into the event set's byte keeps its three low bits. */
  lemma NarrowMask(m: bv32, k: bv8)
    requires m < 8 && k < 3
    ensures (m & 0xFF) as bv8 < 8
    ensures FixedCtrEnabled((m & 0xFF) as bv8, k) <==> Bit32(m, k)
  {
  }

  /**
   * The two copying loops of processRequest (ko/PMUCtrl.c:338-348), starting
   * from the zeroed event set: the generic selects are encoded, the offcore
   * values copied, and the fixed-counter fields are left 0.
   */
  method CopyEvents(r: PMUCtrlRequest) returns (eventSet: PMUEventSet)
    requires WellFormedRequest(r)
    requires r.gpEvtCount as int <= GP_EVENT_MAX && r.offcoreEvtCount as int <= OFFCORE_EVENT_MAX
    requires r.fixedEvtCount as int <= FIXED_EVENT_MAX
    ensures eventSet == EventSetOf(r).(fixedEvtGlobalCtrl := 0, fixedEvtSel := 0)
  {
    eventSet := ZeroEventSet();
    var i := 0;
    while i < r.gpEvtCount as int
      invariant 0 <= i <= r.gpEvtCount as int
      invariant eventSet == ZeroEventSet().(gpEvtSel := eventSet.gpEvtSel)
      invariant |eventSet.gpEvtSel| == GP_EVENT_MAX
      invariant forall k :: 0 <= k < GP_EVENT_MAX ==>
        eventSet.gpEvtSel[k] == if k < i then BuildPerfEvtSelBitmask(r.gpEvents[k]) else 0
    {
      eventSet := eventSet.(gpEvtSel := eventSet.gpEvtSel[i := BuildPerfEvtSelBitmask(r.gpEvents[i])]);
      i := i + 1;
    }
    eventSet := eventSet.(gpEvtCount := r.gpEvtCount);
    assert eventSet.gpEvtSel == EventSetOf(r).gpEvtSel;

    i := 0;
    while i < r.offcoreEvtCount as int
      invariant 0 <= i <= r.offcoreEvtCount as int
      invariant eventSet == ZeroEventSet().(gpEvtCount := r.gpEvtCount, gpEvtSel := EventSetOf(r).gpEvtSel,
        offcoreEvtSel := eventSet.offcoreEvtSel)
      invariant |eventSet.offcoreEvtSel| == OFFCORE_EVENT_MAX
      invariant forall k :: 0 <= k < OFFCORE_EVENT_MAX ==>
        eventSet.offcoreEvtSel[k] == if k < i then r.offcoreEvents[k] else 0
    {
      eventSet := eventSet.(offcoreEvtSel := eventSet.offcoreEvtSel[i := r.offcoreEvents[i]]);
      i := i + 1;
    }
    eventSet := eventSet.(offcoreEvtCount := r.offcoreEvtCount);
    assert eventSet.offcoreEvtSel == EventSetOf(r).offcoreEvtSel;
  }

  /**
   * The event set of a request whose counts fit (ko/PMUCtrl.c:338-356):
   * the copied events, then, when fixed events are requested, the global
   * mask (-EFAULT when it comes out 0) and IA32_FIXED_CTR_CTRL's value.
   */
  method BuildEventSet(r: PMUCtrlRequest) returns (eventSet: PMUEventSet, err: int)
    requires WellFormedRequest(r)
    requires r.gpEvtCount as int <= GP_EVENT_MAX && r.offcoreEvtCount as int <= OFFCORE_EVENT_MAX
    requires r.fixedEvtCount as int <= FIXED_EVENT_MAX
    ensures err == RequestError(r, true)
    ensures err == 0 ==> eventSet == EventSetOf(r)
  {
    eventSet := CopyEvents(r);
    if r.fixedEvtCount != 0 {
      var mask := BuildFixedEvtGlobalCtrlBitmask(r.fixedEvents, r.fixedEvtCount);
      FixedGlobalCtrlMeaning(r.fixedEvents, r.fixedEvtCount as int);
      eventSet := eventSet.(fixedEvtGlobalCtrl := (mask & 0xFF) as bv8);
      if eventSet.fixedEvtGlobalCtrl == 0 {
        return eventSet, -EFAULT;
      }
      var sel := BuildFixedEvtSelBitmask(r.fixedEvents, r.fixedEvtCount);
      eventSet := eventSet.(fixedEvtSel := sel);
    }
    err := 0;
  }

  /**
   * The reply of processRequest and the target core's registers and write
   * log afterwards; `core.err` is the programming error, 0 when the core was
   * not reached.
   */
  datatype Reply = Reply(ret: int, core: Outcome)

  /**
   * processRequest as a function of the request, whether its cpu is active,
   * whether the cross-call fails, and the target core's state.
   */
  function ProcessSpec(r: PMUCtrlRequest, cpuActive: bool, ipiFails: bool,
                       faults: MsrWrite -> bool, m: map<int, bv64>, t: seq<MsrWrite>): (p: Reply)
    requires WellFormedRequest(r)
    ensures p.ret == REQUEST_SIZE || p.ret == -ENXIO || p.ret == -EFAULT
  {
    var err := RequestError(r, cpuActive);
    if err != 0 then Reply(err, Outcome(0, m, t))
    else if ipiFails then Reply(-EFAULT, Outcome(0, m, t))
    else
      var o := EnableSpec(faults, m, t, EventSetOf(r));
      Reply(if o.err == 0 then REQUEST_SIZE else -EFAULT, o)
  }

  /** Some fixed event of the request names fixed counter c. */
  predicate FixedRequested(r: PMUCtrlRequest, c: bv8)
    requires WellFormedRequest(r) && r.fixedEvtCount as int <= FIXED_EVENT_MAX
  {
    exists j :: 0 <= j < r.fixedEvtCount as int && r.fixedEvents[j].ctrIndex == c
  }

  /**
   * A request is answered with its size exactly when its cpu is active, its
   * counts fit, its fixed events name existing counters, the cross-call
   * runs and programming the core does not fault; a request rejected before
   * the cross-call leaves the core untouched.
   */
  lemma ProcessSucceeds(r: PMUCtrlRequest, cpuActive: bool, ipiFails: bool,
                        faults: MsrWrite -> bool, m: map<int, bv64>, t: seq<MsrWrite>)
    requires WellFormedRequest(r)
    ensures var p := ProcessSpec(r, cpuActive, ipiFails, faults, m, t);
      p.ret == REQUEST_SIZE <==>
        cpuActive && r.fixedEvtCount as int <= FIXED_EVENT_MAX && r.gpEvtCount as int <= GP_EVENT_MAX
        && r.offcoreEvtCount as int <= OFFCORE_EVENT_MAX && FixedIndicesValid(r.fixedEvents, r.fixedEvtCount as int)
        && !ipiFails && EnableSpec(faults, m, t, EventSetOf(r)).err == 0
    ensures var p := ProcessSpec(r, cpuActive, ipiFails, faults, m, t);
      RequestError(r, cpuActive) != 0 || ipiFails ==> p.core.msrs == m && p.core.log == t
    ensures !cpuActive ==> ProcessSpec(r, cpuActive, ipiFails, faults, m, t).ret == -ENXIO
  {
    RequestErrorMeaning(r, cpuActive);
  }

  /** IA32_PERF_GLOBAL_CTRL enables the first gpEvtCount generic counters and exactly the requested fixed counters. */
  ghost predicate EnablesExactly(v: bv64, r: PMUCtrlRequest)
    requires WellFormedRequest(r) && r.fixedEvtCount as int <= FIXED_EVENT_MAX
  {
    forall k: bv8 :: k < 64 ==>
      (Bit(v, k) <==> (k < 32 && k < r.gpEvtCount) || (32 <= k < 35 && FixedRequested(r, k - 32)))
  }

  /**
   * After a request is answered with its size, the target core holds, in
   * each register the request programs, the value the Intel SDM layout
   * gives for it: the encoded generic events, the raw offcore values, the
   * fixed-counter control, and a global control enabling exactly the
   * requested counters.
   */
  lemma ProgrammedRegisters(r: PMUCtrlRequest, cpuActive: bool, ipiFails: bool,
                            faults: MsrWrite -> bool, m: map<int, bv64>, t: seq<MsrWrite>)
    requires WellFormedRequest(r)
    requires ProcessSpec(r, cpuActive, ipiFails, faults, m, t).ret == REQUEST_SIZE
    ensures r.gpEvtCount as int <= GP_EVENT_MAX && r.offcoreEvtCount as int <= OFFCORE_EVENT_MAX
    ensures r.fixedEvtCount as int <= FIXED_EVENT_MAX
    ensures var regs := ProcessSpec(r, cpuActive, ipiFails, faults, m, t).core.msrs;
      && (forall i :: 0 <= i < r.gpEvtCount as int ==>
            Holds(regs, PERF_EVT_SEL0 + i, BuildPerfEvtSelBitmask(r.gpEvents[i]) as bv64))
      && (forall i :: 0 <= i < r.offcoreEvtCount as int ==> Holds(regs, OFFCORE_RSP_0 + i, r.offcoreEvents[i]))
      && Holds(regs, IA32_FIXED_CTR_CTRL,
           if r.fixedEvtCount == 0 then 0 else FixedEvtSel(r.fixedEvents, r.fixedEvtCount as int) as bv64)
      && IA32_PERF_GLOBAL_CTRL in regs && EnablesExactly(regs[IA32_PERF_GLOBAL_CTRL], r)
  {
    RequestErrorMeaning(r, cpuActive);
    var es := EventSetOf(r);
    EventSetOfCopies(r);
    EventSetOfFixedCtrl(r);
    EnableSuccessValues(faults, m, t, es);
    var v := GlobalCtrlValue(es);
    forall k: bv8 | k < 64
      ensures Bit(v, k) <==> (k < 32 && k < r.gpEvtCount) || (32 <= k < 35 && FixedRequested(r, k - 32))
    {
      GlobalCtrlLayout(es, k);
      if 32 <= k < 40 {
        WidenMask(es.fixedEvtGlobalCtrl, k - 32);
      }
    }
  }

  /** A fixed-counter enable byte below 8, widened into the high half of IA32_PERF_GLOBAL_CTRL, keeps its bits. */
  lemma WidenMask(mask: bv8, c: bv8)
    requires mask < 8 && c < 8
    ensures Bit(mask as bv64, c) <==> c < 3 && FixedCtrEnabled(mask, c)
  {
  }

  /**
   * The device: which cores may be targeted and the set of cores programmed
   * since the device was opened.
   */
  class Device {
    /** Cores programmed successfully since open (`activeCpuSet`). */
    var activeCpuSet: set<int>
    /** `nr_cpu_ids`. */
    const nrCpuIds: int
    /** The online cores (`cpu_online`). */
    const online: set<int>

    constructor (nrCpuIds: int, online: set<int>)
      ensures this.nrCpuIds == nrCpuIds && this.online == online && activeCpuSet == {}
    {
      this.nrCpuIds := nrCpuIds;
      this.online := online;
      activeCpuSet := {};
    }

    /** `r_->_cpu < nr_cpu_ids && cpu_online(r_->_cpu)`. */
    predicate CpuActive(cpu: bv8)
      reads this
    {
      (cpu as int) < nrCpuIds && (cpu as int) in online
    }

    /**
     * processRequest (ko/PMUCtrl.c:309-369): validates the request, builds
     * the event set with two copying loops and the fixed-counter encodings,
     * and programs the target core, given as its register file.  `ipiFails`
     * stands for smp_call_function_single failing to run on that core.  On
     * success the core joins activeCpuSet and the request size is returned.
     */
    method ProcessRequest(r: PMUCtrlRequest, core: MsrFile, ipiFails: bool) returns (ret: int)
      requires WellFormedRequest(r)
      modifies this, core
      ensures var p := ProcessSpec(r, CpuActive(r.cpu), ipiFails, core.faults, old(core.msrs), old(core.trace));
        && ret == p.ret && core.msrs == p.core.msrs && core.trace == p.core.log
        && activeCpuSet == if ret == REQUEST_SIZE then old(activeCpuSet) + {r.cpu as int} else old(activeCpuSet)
    {
      if !CpuActive(r.cpu) {
        return -ENXIO;
      }
      if r.fixedEvtCount as int > FIXED_EVENT_MAX {
        return -EFAULT;
      }
      if r.gpEvtCount as int > GP_EVENT_MAX {
        return -EFAULT;
      }
      if r.offcoreEvtCount as int > OFFCORE_EVENT_MAX {
        return -EFAULT;
      }

      var eventSet, err := BuildEventSet(r);
      if err != 0 {
        return err;
      }

      if ipiFails {
        return -EFAULT;
      }
      var programmed, _ := core.PmuEnableEventSet(eventSet);

      if programmed.err != 0 {
        return -EFAULT;
      }

      activeCpuSet := activeCpuSet + {r.cpu as int};
      return REQUEST_SIZE;
    }

    /**
     * pmu_write (ko/PMUCtrl.c:371-385): any length other than the packed
     * request size is -EFAULT; otherwise the bytes are read as a request
     * (`copyFails` stands for copy_from_user failing) and processed.
     */
    method PmuWrite(buffer: seq<bv8>, copyFails: bool, core: MsrFile, ipiFails: bool) returns (ret: int)
      modifies this, core
      ensures |buffer| != REQUEST_SIZE || copyFails ==>
        ret == -EFAULT && activeCpuSet == old(activeCpuSet) && core.msrs == old(core.msrs) && core.trace == old(core.trace)
      ensures |buffer| == REQUEST_SIZE && !copyFails ==>
        var p := ProcessSpec(DecodeRequest(buffer), CpuActive(buffer[0]), ipiFails, core.faults, old(core.msrs), old(core.trace));
        && ret == p.ret && core.msrs == p.core.msrs && core.trace == p.core.log
        && activeCpuSet == if ret == REQUEST_SIZE then old(activeCpuSet) + {buffer[0] as int} else old(activeCpuSet)
    {
      if |buffer| != REQUEST_SIZE {
        return -EFAULT;
      }
      if copyFails {
        return -EFAULT;
      }
      var request := DecodeRequest(buffer);
      ret := ProcessRequest(request, core, ipiFails);
    }
  }
}
