/**
 * The profiler's side of the device protocol (scripts/lib/xpedite/pmu/pmuctrl.py): events are
 * resolved into fixed, generic and offcore pmu requests, the generic ones are reordered to obey
 * counter constraints, and one request group is written to the device per target cpu. A request
 * group is the byte image of the kernel module's packed `PMUCtrlRequest`.
 *
 * Each request's `buildMask()` and each class's `defaultMask()` are abstract byte strings, the
 * request factory over the events database is a function from an event to its requests, and
 * `RequestSorter.sort` is a function that may return None.
 */
module PmuRequests {
  import opened Results
  import opened PmuArch
  import opened PmuCtrl

  type Bytes = seq<bv8>

  /** `resolveEvents` refuses more events than this. */
  const MAX_EVENTS: int := 11

  /** The class of a pmu request. */
  datatype RequestKind = Generic | Offcore | Fixed | Other

  /** A pmu request: its class and the bytes its `buildMask()` returns. */
  datatype PmuRequest = PmuRequest(kind: RequestKind, mask: Bytes)

  /** `defaultMask()` of the fixed, generic and offcore request classes. */
  datatype DefaultMasks = DefaultMasks(fixed: Bytes, generic: Bytes, offcore: Bytes)

  /** The exceptions raised on the way to the device. */
  datatype PmuError =
    | StructError         // struct.pack('=BBBB', ...) given a value outside 0..255
    | TooManyEvents       // more than 11 events requested
    | InvalidEventType    // a request of none of the three classes
    | ConstraintViolation // the generic requests cannot be scheduled together
    | DeviceNotEnabled    // enable without an open device
    | DeviceRefused       // IOError from flush: the kernel's pmu_write answered the group with an error

  /** The three request lists of an `EventState`. */
  datatype EventLists = EventLists(fixed: seq<PmuRequest>, generic: seq<PmuRequest>, offcore: seq<PmuRequest>)

  const NO_EVENTS: EventLists := EventLists([], [], [])

  // ---------------------------------------------------------------------
  // buildRequestGroup
  // ---------------------------------------------------------------------

  /** The byte strings, back to back. */
  function Concat(xs: seq<Bytes>): Bytes
    decreases |xs|
  {
    if |xs| == 0 then [] else Concat(xs[..|xs| - 1]) + xs[|xs| - 1]
  }

  /** Concatenating one more byte string. */
  lemma ConcatSnoc(xs: seq<Bytes>, i: nat)
    requires i < |xs|
    ensures Concat(xs[..i + 1]) == Concat(xs[..i]) + xs[i]
  {
    assert xs[..i + 1][..i] == xs[..i];
  }

  function Max(a: int, b: int): int {
    if a < b then b else a
  }

  /**
   * The masks of a section: the requests' masks in order, then default masks up to `slots`
   * entries (none when there are already that many).
   */
  function Padded(rs: seq<PmuRequest>, slots: nat, default: Bytes): (ms: seq<Bytes>)
    ensures |ms| == Max(slots, |rs|)
  {
    seq(|rs|, i requires 0 <= i < |rs| => rs[i].mask) + seq(if |rs| < slots then slots - |rs| else 0, _ => default)
  }

  /** A section holds the requests' masks, then only default masks. */
  lemma PaddedAt(rs: seq<PmuRequest>, slots: nat, default: Bytes)
    ensures forall i :: 0 <= i < |rs| ==> Padded(rs, slots, default)[i] == rs[i].mask
    ensures forall i :: |rs| <= i < Max(slots, |rs|) ==> Padded(rs, slots, default)[i] == default
  {
  }

  /** A value `struct.pack` accepts for format 'B'. */
  predicate IsUByte(n: int) {
    0 <= n < 256
  }

  /** The byte `struct.pack('B', n)` writes for a value it accepts. */
  function Byte(n: int): bv8
    requires IsUByte(n)
  {
    n as bv8
  }

  /** A section of a group: the masks of `Padded`, back to back. */
  function Section(rs: seq<PmuRequest>, slots: nat, default: Bytes): Bytes {
    Concat(Padded(rs, slots, default))
  }

  /** What `buildRequestGroup(cpu, eventState)` returns or raises. */
  function RequestGroup(cpu: int, l: EventLists, d: DefaultMasks): (r: Result<Bytes, PmuError>)
    ensures r.Ok? ==> IsUByte(cpu) && |r.value| >= 4 && r.value[0] == Byte(cpu)
  {
    if !(IsUByte(cpu) && IsUByte(|l.fixed|) && IsUByte(|l.generic|) && IsUByte(|l.offcore|)) then Err(StructError)
    else
      Ok([Byte(cpu), Byte(|l.fixed|), Byte(|l.generic|), Byte(|l.offcore|)]
        + Section(l.fixed, FIXED_EVENT_MAX, d.fixed)
        + Section(l.generic, GP_EVENT_MAX, d.generic)
        + Section(l.offcore, OFFCORE_EVENT_MAX, d.offcore))
  }

  /**
   * The group starts with the four header bytes cpu, #fixed, #generic, #offcore; it is refused
   * exactly when one of them does not fit a byte.
   */
  lemma RequestGroupHeader(cpu: int, l: EventLists, d: DefaultMasks)
    ensures RequestGroup(cpu, l, d).Err? <==> !IsUByte(cpu) || |l.fixed| > 255 || |l.generic| > 255 || |l.offcore| > 255
    ensures RequestGroup(cpu, l, d).Ok? ==> var b := RequestGroup(cpu, l, d).value;
      |b| >= 4 && b[..4] == [Byte(cpu), Byte(|l.fixed|), Byte(|l.generic|), Byte(|l.offcore|)]
  {
    if RequestGroup(cpu, l, d).Ok? {
      var header: Bytes := [Byte(cpu), Byte(|l.fixed|), Byte(|l.generic|), Byte(|l.offcore|)];
      var f := Section(l.fixed, FIXED_EVENT_MAX, d.fixed);
      var g := Section(l.generic, GP_EVENT_MAX, d.generic);
      var o := Section(l.offcore, OFFCORE_EVENT_MAX, d.offcore);
      HeaderOf(header, f, g, o);
    }
  }

  /** The first four bytes of a group are its header. */
  lemma HeaderOf(h: Bytes, f: Bytes, g: Bytes, o: Bytes)
    requires |h| == 4
    ensures |h + f + g + o| >= 4
    ensures (h + f + g + o)[..4] == h
  {
    assert (h + f + g + o)[..4] == h;
  }

  /** Every mask has the size of its slot in the packed struct: 3 bytes fixed, 8 generic, 8 offcore. */
  predicate MasksSized(l: EventLists, d: DefaultMasks) {
    |d.fixed| == 3 && |d.generic| == 8 && |d.offcore| == 8
    && (forall i :: 0 <= i < |l.fixed| ==> |l.fixed[i].mask| == 3)
    && (forall i :: 0 <= i < |l.generic| ==> |l.generic[i].mask| == 8)
    && (forall i :: 0 <= i < |l.offcore| ==> |l.offcore[i].mask| == 8)
  }

  /** All byte strings of length `k`. */
  predicate AllSized(ms: seq<Bytes>, k: nat) {
    forall i :: 0 <= i < |ms| ==> |ms[i]| == k
  }

  lemma {:induction false} ConcatLength(ms: seq<Bytes>, k: nat)
    requires AllSized(ms, k)
    ensures |Concat(ms)| == k * |ms|
    decreases |ms|
  {
    if |ms| > 0 {
      ConcatLength(ms[..|ms| - 1], k);
      assert k * |ms| == k * (|ms| - 1) + k;
    }
  }

  /**
   * With masks of their slot sizes, a group is `4 + 3 * max(3, #fixed) + 8 * max(8, #generic) +
   * 8 * max(2, #offcore)` bytes, so it has the kernel's request size exactly when no section
   * overflows its 3/8/2 slots; any other length makes the kernel's `pmu_write` fail with -EFAULT.
   */
  lemma GroupLength(cpu: int, l: EventLists, d: DefaultMasks)
    requires MasksSized(l, d) && RequestGroup(cpu, l, d).Ok?
    ensures |RequestGroup(cpu, l, d).value| ==
      4 + 3 * Max(FIXED_EVENT_MAX, |l.fixed|) + 8 * Max(GP_EVENT_MAX, |l.generic|) + 8 * Max(OFFCORE_EVENT_MAX, |l.offcore|)
    ensures |RequestGroup(cpu, l, d).value| == REQUEST_SIZE <==>
      |l.fixed| <= FIXED_EVENT_MAX && |l.generic| <= GP_EVENT_MAX && |l.offcore| <= OFFCORE_EVENT_MAX
  {
    PaddedAt(l.fixed, FIXED_EVENT_MAX, d.fixed);
    PaddedAt(l.generic, GP_EVENT_MAX, d.generic);
    PaddedAt(l.offcore, OFFCORE_EVENT_MAX, d.offcore);
    ConcatLength(Padded(l.fixed, FIXED_EVENT_MAX, d.fixed), 3);
    ConcatLength(Padded(l.generic, GP_EVENT_MAX, d.generic), 8);
    ConcatLength(Padded(l.offcore, OFFCORE_EVENT_MAX, d.offcore), 8);
  }

  lemma {:induction false} FixedFromAppend(a: Bytes, b: Bytes)
    requires |a| % 3 == 0 && |b| % 3 == 0
    ensures FixedFromBytes(a + b) == FixedFromBytes(a) + FixedFromBytes(b)
    decreases |a|
  {
    if |a| > 0 {
      assert (a + b)[..3] == a[..3] && (a + b)[3..] == a[3..] + b;
      FixedFromAppend(a[3..], b);
    } else {
      assert a + b == b;
    }
  }

  lemma {:induction false} GpFromAppend(a: Bytes, b: Bytes)
    requires |a| % 8 == 0 && |b| % 8 == 0
    ensures GpFromBytes(a + b) == GpFromBytes(a) + GpFromBytes(b)
    decreases |a|
  {
    if |a| > 0 {
      assert (a + b)[..8] == a[..8] && (a + b)[8..] == a[8..] + b;
      GpFromAppend(a[8..], b);
    } else {
      assert a + b == b;
    }
  }

  lemma {:induction false} OffcoreFromAppend(a: Bytes, b: Bytes)
    requires |a| % 8 == 0 && |b| % 8 == 0
    ensures OffcoreFromBytes(a + b) == OffcoreFromBytes(a) + OffcoreFromBytes(b)
    decreases |a|
  {
    if |a| > 0 {
      assert (a + b)[..8] == a[..8] && (a + b)[8..] == a[8..] + b;
      OffcoreFromAppend(a[8..], b);
    } else {
      assert a + b == b;
    }
  }

  /** Reading back 3-byte masks as fixed events gives one event per mask, in order. */
  lemma {:induction false} FixedFromConcat(ms: seq<Bytes>)
    requires AllSized(ms, 3)
    ensures |Concat(ms)| == 3 * |ms|
    ensures FixedFromBytes(Concat(ms)) == seq(|ms|, i requires 0 <= i < |ms| => DecodeFixed(ms[i]))
    decreases |ms|
  {
    ConcatLength(ms, 3);
    if |ms| > 0 {
      var n := |ms| - 1;
      FixedFromConcat(ms[..n]);
      ConcatLength(ms[..n], 3);
      FixedFromAppend(Concat(ms[..n]), ms[n]);
      assert FixedFromBytes(ms[n]) == [DecodeFixed(ms[n])] by {
        assert ms[n][..3] == ms[n] && ms[n][3..] == [];
      }
    }
  }

  /** Reading back 8-byte masks as generic events gives one event per mask, in order. */
  lemma {:induction false} GpFromConcat(ms: seq<Bytes>)
    requires AllSized(ms, 8)
    ensures |Concat(ms)| == 8 * |ms|
    ensures GpFromBytes(Concat(ms)) == seq(|ms|, i requires 0 <= i < |ms| => DecodeGp(ms[i]))
    decreases |ms|
  {
    ConcatLength(ms, 8);
    if |ms| > 0 {
      var n := |ms| - 1;
      GpFromConcat(ms[..n]);
      ConcatLength(ms[..n], 8);
      GpFromAppend(Concat(ms[..n]), ms[n]);
      assert GpFromBytes(ms[n]) == [DecodeGp(ms[n])] by {
        assert ms[n][..8] == ms[n] && ms[n][8..] == [];
      }
    }
  }

  /** Reading back 8-byte masks as offcore values gives one little-endian value per mask, in order. */
  lemma {:induction false} OffcoreFromConcat(ms: seq<Bytes>)
    requires AllSized(ms, 8)
    ensures |Concat(ms)| == 8 * |ms|
    ensures OffcoreFromBytes(Concat(ms)) == seq(|ms|, i requires 0 <= i < |ms| => U64From(ms[i]))
    decreases |ms|
  {
    ConcatLength(ms, 8);
    if |ms| > 0 {
      var n := |ms| - 1;
      OffcoreFromConcat(ms[..n]);
      ConcatLength(ms[..n], 8);
      OffcoreFromAppend(Concat(ms[..n]), ms[n]);
      assert OffcoreFromBytes(ms[n]) == [U64From(ms[n])] by {
        assert ms[n][..8] == ms[n] && ms[n][8..] == [];
      }
    }
  }

  /** A group the kernel accepts: masks of their slot sizes, a byte-sized cpu and sections within their slots. */
  predicate GroupFits(cpu: int, l: EventLists, d: DefaultMasks) {
    MasksSized(l, d) && IsUByte(cpu)
    && |l.fixed| <= FIXED_EVENT_MAX && |l.generic| <= GP_EVENT_MAX && |l.offcore| <= OFFCORE_EVENT_MAX
  }

  /**
   * The two sides agree on the layout: a group whose sections fit their slots is read by the
   * kernel module as the request with that cpu and those counts, whose events decode the
   * requests' masks in order and the default masks after them, fixed, then generic, then offcore.
   */
  lemma GroupDecodes(cpu: int, l: EventLists, d: DefaultMasks)
    requires GroupFits(cpu, l, d)
    ensures RequestGroup(cpu, l, d).Ok? && |RequestGroup(cpu, l, d).value| == REQUEST_SIZE
    ensures ReadsAs(DecodeRequest(RequestGroup(cpu, l, d).value), cpu, l, d)
  {
    var h: Bytes := [Byte(cpu), Byte(|l.fixed|), Byte(|l.generic|), Byte(|l.offcore|)];
    var f := Section(l.fixed, FIXED_EVENT_MAX, d.fixed);
    var g := Section(l.generic, GP_EVENT_MAX, d.generic);
    var o := Section(l.offcore, OFFCORE_EVENT_MAX, d.offcore);
    assert RequestGroup(cpu, l, d) == Ok(h + f + g + o);
    DecodeSections(cpu, l, d, h, f, g, o);
  }

  /**
   * The request the kernel reads carries the cpu and the three counts, and its events decode the
   * requests' masks in order and the default masks after them.
   */
  predicate ReadsAs(r: PMUCtrlRequest, cpu: int, l: EventLists, d: DefaultMasks)
    requires GroupFits(cpu, l, d)
  {
    && r.cpu == Byte(cpu) && r.fixedEvtCount == Byte(|l.fixed|)
    && r.gpEvtCount == Byte(|l.generic|) && r.offcoreEvtCount == Byte(|l.offcore|)
    && FixedEventsFrom(r.fixedEvents, l.fixed, d.fixed)
    && GpEventsFrom(r.gpEvents, l.generic, d.generic)
    && OffcoreEventsFrom(r.offcoreEvents, l.offcore, d.offcore)
  }

  /** The decoding of a group image from its four parts. */
  lemma DecodeSections(cpu: int, l: EventLists, d: DefaultMasks, h: Bytes, f: Bytes, g: Bytes, o: Bytes)
    requires GroupFits(cpu, l, d)
    requires h == [Byte(cpu), Byte(|l.fixed|), Byte(|l.generic|), Byte(|l.offcore|)]
    requires f == Section(l.fixed, FIXED_EVENT_MAX, d.fixed)
    requires g == Section(l.generic, GP_EVENT_MAX, d.generic)
    requires o == Section(l.offcore, OFFCORE_EVENT_MAX, d.offcore)
    ensures |h + f + g + o| == REQUEST_SIZE
    ensures ReadsAs(DecodeRequest(h + f + g + o), cpu, l, d)
  {
    FixedSection(l.fixed, d.fixed);
    GpSection(l.generic, d.generic);
    OffcoreSection(l.offcore, d.offcore);
    DecodeParts(h, f, g, o);
  }

  /** A request image cut into its header and its three sections. */
  lemma DecodeParts(h: Bytes, f: Bytes, g: Bytes, o: Bytes)
    requires |h| == 4 && |f| == 9 && |g| == 64 && |o| == 16
    ensures |h + f + g + o| == REQUEST_SIZE
    ensures DecodeRequest(h + f + g + o) ==
      PMUCtrlRequest(h[0], h[1], h[2], h[3], FixedFromBytes(f), GpFromBytes(g), OffcoreFromBytes(o))
  {
    var b := h + f + g + o;
    assert b[FIXED_OFFSET..GP_OFFSET] == f;
    assert b[GP_OFFSET..OFFCORE_OFFSET] == g;
    assert b[OFFCORE_OFFSET..REQUEST_SIZE] == o;
  }

  /** The 3 fixed events decode the requests' masks in order, then the default mask. */
  predicate FixedEventsFrom(es: seq<PMUFixedEvent>, rs: seq<PmuRequest>, default: Bytes)
    requires |default| == 3 && forall i :: 0 <= i < |rs| ==> |rs[i].mask| == 3
  {
    && |es| == FIXED_EVENT_MAX
    && (forall i :: 0 <= i < |rs| && i < FIXED_EVENT_MAX ==> es[i] == DecodeFixed(rs[i].mask))
    && (forall i :: |rs| <= i < FIXED_EVENT_MAX ==> es[i] == DecodeFixed(default))
  }

  /** The 8 generic events decode the requests' masks in order, then the default mask. */
  predicate GpEventsFrom(es: seq<PMUGpEvent>, rs: seq<PmuRequest>, default: Bytes)
    requires |default| == 8 && forall i :: 0 <= i < |rs| ==> |rs[i].mask| == 8
  {
    && |es| == GP_EVENT_MAX
    && (forall i :: 0 <= i < |rs| && i < GP_EVENT_MAX ==> es[i] == DecodeGp(rs[i].mask))
    && (forall i :: |rs| <= i < GP_EVENT_MAX ==> es[i] == DecodeGp(default))
  }

  /** The 2 offcore values are the requests' masks read as little-endian values, then the default. */
  predicate OffcoreEventsFrom(vs: seq<bv64>, rs: seq<PmuRequest>, default: Bytes)
    requires |default| == 8 && forall i :: 0 <= i < |rs| ==> |rs[i].mask| == 8
  {
    && |vs| == OFFCORE_EVENT_MAX
    && (forall i :: 0 <= i < |rs| && i < OFFCORE_EVENT_MAX ==> vs[i] == U64From(rs[i].mask))
    && (forall i :: |rs| <= i < OFFCORE_EVENT_MAX ==> vs[i] == U64From(default))
  }

  /** The fixed section of a group is read back as the requests' events, then default ones. */
  lemma FixedSection(rs: seq<PmuRequest>, default: Bytes)
    requires |default| == 3 && |rs| <= FIXED_EVENT_MAX && forall i :: 0 <= i < |rs| ==> |rs[i].mask| == 3
    ensures |Section(rs, FIXED_EVENT_MAX, default)| == 9
    ensures FixedEventsFrom(FixedFromBytes(Section(rs, FIXED_EVENT_MAX, default)), rs, default)
  {
    PaddedAt(rs, FIXED_EVENT_MAX, default);
    FixedFromConcat(Padded(rs, FIXED_EVENT_MAX, default));
  }

  /** The generic section of a group is read back as the requests' events, then default ones. */
  lemma GpSection(rs: seq<PmuRequest>, default: Bytes)
    requires |default| == 8 && |rs| <= GP_EVENT_MAX && forall i :: 0 <= i < |rs| ==> |rs[i].mask| == 8
    ensures |Section(rs, GP_EVENT_MAX, default)| == 64
    ensures GpEventsFrom(GpFromBytes(Section(rs, GP_EVENT_MAX, default)), rs, default)
  {
    PaddedAt(rs, GP_EVENT_MAX, default);
    GpFromConcat(Padded(rs, GP_EVENT_MAX, default));
  }

  /** The offcore section of a group is read back as the requests' values, then default ones. */
  lemma OffcoreSection(rs: seq<PmuRequest>, default: Bytes)
    requires |default| == 8 && |rs| <= OFFCORE_EVENT_MAX && forall i :: 0 <= i < |rs| ==> |rs[i].mask| == 8
    ensures |Section(rs, OFFCORE_EVENT_MAX, default)| == 16
    ensures OffcoreEventsFrom(OffcoreFromBytes(Section(rs, OFFCORE_EVENT_MAX, default)), rs, default)
  {
    PaddedAt(rs, OFFCORE_EVENT_MAX, default);
    OffcoreFromConcat(Padded(rs, OFFCORE_EVENT_MAX, default));
  }

  // ---------------------------------------------------------------------
  // resolveEvents
  // ---------------------------------------------------------------------

  /** The requests the factory builds for the events, event by event. */
  function Requests<E>(events: seq<E>, build: E -> seq<PmuRequest>): seq<PmuRequest>
    decreases |events|
  {
    if |events| == 0 then [] else Requests(events[..|events| - 1], build) + build(events[|events| - 1])
  }

  /** One request appended to the list of its class; None for a request of no known class. */
  function AddByKind(l: EventLists, q: PmuRequest): Option<EventLists> {
    match q.kind
    case Generic => Some(l.(generic := l.generic + [q]))
    case Offcore => Some(l.(offcore := l.offcore + [q]))
    case Fixed => Some(l.(fixed := l.fixed + [q]))
    case Other => None
  }

  /** The requests sorted into the three lists in order, or None if one is of no known class. */
  function Classify(rs: seq<PmuRequest>): Option<EventLists>
    decreases |rs|
  {
    if |rs| == 0 then Some(NO_EVENTS)
    else
      match Classify(rs[..|rs| - 1])
      case None => None
      case Some(l) => AddByKind(l, rs[|rs| - 1])
  }

  /** What `resolveEvents` returns or raises, as the lists of the event state it builds. */
  function Resolve<E>(events: seq<E>, build: E -> seq<PmuRequest>): (r: Result<EventLists, PmuError>)
    ensures r.Ok? ==> |events| <= MAX_EVENTS
  {
    if |events| > MAX_EVENTS then Err(TooManyEvents)
    else
      match Classify(Requests(events, build))
      case None => Err(InvalidEventType)
      case Some(l) => Ok(l)
  }

  /** Classification succeeds exactly when every request is of one of the three classes. */
  lemma {:induction false} ClassifyDefined(rs: seq<PmuRequest>)
    ensures Classify(rs).Some? <==> forall i :: 0 <= i < |rs| ==> rs[i].kind != Other
    decreases |rs|
  {
    if |rs| > 0 {
      var n := |rs| - 1;
      ClassifyDefined(rs[..n]);
      assert forall i :: 0 <= i < n ==> rs[..n][i] == rs[i];
    }
  }

  /** The requests of one class, in order. */
  function Filter(rs: seq<PmuRequest>, k: RequestKind): (f: seq<PmuRequest>)
    ensures |f| <= |rs|
    decreases |rs|
  {
    if |rs| == 0 then []
    else if rs[|rs| - 1].kind == k then Filter(rs[..|rs| - 1], k) + [rs[|rs| - 1]]
    else Filter(rs[..|rs| - 1], k)
  }

  /** Classification puts into each list exactly the requests of its class, in their order. */
  lemma {:induction false} ClassifyFilters(rs: seq<PmuRequest>)
    requires Classify(rs).Some?
    ensures Classify(rs).value == EventLists(Filter(rs, Fixed), Filter(rs, Generic), Filter(rs, Offcore))
    decreases |rs|
  {
    if |rs| > 0 {
      ClassifyFilters(rs[..|rs| - 1]);
    }
  }

  /** A request is in the list of a class exactly when it was built and is of that class. */
  lemma {:induction false} FilterMembers(rs: seq<PmuRequest>, k: RequestKind, x: PmuRequest)
    ensures x in Filter(rs, k) <==> x in rs && x.kind == k
    decreases |rs|
  {
    if |rs| > 0 {
      var n := |rs| - 1;
      FilterMembers(rs[..n], k, x);
      assert rs == rs[..n] + [rs[n]];
    }
  }

  /** Without requests of an unknown class, every request lands in one of the three lists. */
  lemma {:induction false} FilterSizes(rs: seq<PmuRequest>)
    requires forall i :: 0 <= i < |rs| ==> rs[i].kind != Other
    ensures |Filter(rs, Fixed)| + |Filter(rs, Generic)| + |Filter(rs, Offcore)| == |rs|
    decreases |rs|
  {
    if |rs| > 0 {
      var n := |rs| - 1;
      assert forall i :: 0 <= i < n ==> rs[..n][i] == rs[i];
      FilterSizes(rs[..n]);
    }
  }

  /**
   * Resolution fails on more than 11 events, and otherwise succeeds exactly when every built
   * request is of a known class; the lists are then the requests of each class, in order.
   */
  lemma ResolveMeaning<E>(events: seq<E>, build: E -> seq<PmuRequest>)
    ensures Resolve(events, build).Ok? ==> |events| <= MAX_EVENTS
    ensures Resolve(events, build).Ok? ==>
      forall i :: 0 <= i < |Requests(events, build)| ==> Requests(events, build)[i].kind != Other
    ensures |events| <= MAX_EVENTS && (forall i :: 0 <= i < |Requests(events, build)| ==> Requests(events, build)[i].kind != Other)
      ==> Resolve(events, build).Ok?
    ensures |events| > MAX_EVENTS ==> Resolve(events, build) == Err(TooManyEvents)
    ensures Resolve(events, build).Ok? ==> var rs := Requests(events, build);
      && Resolve(events, build).value == EventLists(Filter(rs, Fixed), Filter(rs, Generic), Filter(rs, Offcore))
      && |Filter(rs, Fixed)| + |Filter(rs, Generic)| + |Filter(rs, Offcore)| == |rs|
  {
    var rs := Requests(events, build);
    ClassifyDefined(rs);
    if |events| <= MAX_EVENTS {
      assert Resolve(events, build).Ok? <==> Classify(rs).Some?;
    }
    if Resolve(events, build).Ok? {
      ClassifyFilters(rs);
      FilterSizes(rs);
    }
  }

  lemma {:induction false} RequestsAppend<E>(a: seq<E>, b: seq<E>, build: E -> seq<PmuRequest>)
    ensures Requests(a + b, build) == Requests(a, build) + Requests(b, build)
    decreases |b|
  {
    if |b| == 0 {
      assert a + b == a;
    } else {
      var n := |b| - 1;
      assert (a + b)[..|a + b| - 1] == a + b[..n];
      RequestsAppend(a, b[..n], build);
    }
  }

  lemma {:induction false} ClassifyAppendNone(a: seq<PmuRequest>, b: seq<PmuRequest>)
    requires Classify(a).None?
    ensures Classify(a + b).None?
    decreases |b|
  {
    if |b| == 0 {
      assert a + b == a;
    } else {
      var n := |b| - 1;
      assert (a + b)[..|a + b| - 1] == a + b[..n];
      ClassifyAppendNone(a, b[..n]);
    }
  }

  /** Classifying one more request of the run. */
  lemma ClassifyNext(pre: seq<PmuRequest>, rs: seq<PmuRequest>, j: nat)
    requires j < |rs|
    ensures Classify(pre + rs[..j + 1]) ==
      match Classify(pre + rs[..j])
      case None => None
      case Some(l) => AddByKind(l, rs[j])
  {
    assert (pre + rs[..j + 1])[..|pre| + j] == pre + rs[..j];
  }

  /** The requests of one more event. */
  lemma RequestsSnoc<E>(events: seq<E>, i: nat, build: E -> seq<PmuRequest>)
    requires i < |events|
    ensures Requests(events[..i + 1], build) == Requests(events[..i], build) + build(events[i])
  {
    assert events[..i + 1][..i] == events[..i];
  }

  /** The requests of all events start with those of the first `k`. */
  lemma RequestsSplit<E>(events: seq<E>, k: nat, build: E -> seq<PmuRequest>)
    requires k <= |events|
    ensures Requests(events, build) == Requests(events[..k], build) + Requests(events[k..], build)
  {
    assert events == events[..k] + events[k..];
    RequestsAppend(events[..k], events[k..], build);
  }

  /** A request of no known class makes every longer run of requests unclassifiable. */
  lemma FailedPrefix<E>(events: seq<E>, i: nat, requests: seq<PmuRequest>, j: nat, build: E -> seq<PmuRequest>)
    requires i < |events| && requests == build(events[i]) && j <= |requests|
    requires Classify(Requests(events[..i], build) + requests[..j]).None?
    ensures Resolve(events, build) == if |events| > MAX_EVENTS then Err(TooManyEvents) else Err(InvalidEventType)
  {
    var pre := Requests(events[..i], build);
    ClassifyAppendNone(pre + requests[..j], requests[j..]);
    assert pre + requests[..j] + requests[j..] == pre + requests by {
      assert requests == requests[..j] + requests[j..];
    }
    RequestsSnoc(events, i, build);
    RequestsSplit(events, i + 1, build);
    ClassifyAppendNone(Requests(events[..i + 1], build), Requests(events[i + 1..], build));
  }

  // ---------------------------------------------------------------------
  // allocateEvents and enable
  // ---------------------------------------------------------------------

  /**
   * The event lists after `allocateEvents`, or None when it raises: non-empty generic requests
   * are replaced by the sorter's answer, which must be non-empty and of the same length.
   */
  function Allocated(l: EventLists, sorter: seq<PmuRequest> -> Option<seq<PmuRequest>>): (r: Option<EventLists>)
    ensures r.Some? ==> r.value.fixed == l.fixed && r.value.offcore == l.offcore && |r.value.generic| == |l.generic|
    ensures |l.generic| == 0 ==> r == Some(l)
  {
    if |l.generic| == 0 then Some(l)
    else
      match sorter(l.generic)
      case Some(s) => if |s| > 0 && |s| == |l.generic| then Some(l.(generic := s)) else None
      case None => None
  }

  /**
   * The groups written by the loop over the cpus, and the exception that stopped it (None when
   * every cpu got its group).
   */
  datatype Emission = Emission(groups: seq<Bytes>, stop: Option<PmuError>)

  /** `buildRequestGroup` over the given event lists, as a function of the cpu. */
  function Groups(l: EventLists, d: DefaultMasks): int -> Result<Bytes, PmuError> {
    cpu => RequestGroup(cpu, l, d)
  }

  /**
   * One request group per cpu in iteration order, `group(cpu)` building the group of a cpu or
   * raising. `accepts(b)` is the device's answer to the
   * group `b`: whether the kernel's `pmu_write` returns the group's length. A group `struct.pack`
   * refuses is never written; a group the device refuses is written, and then `flush` raises.
   */
  function Emit(cpus: seq<int>, group: int -> Result<Bytes, PmuError>, accepts: Bytes -> bool): (e: Emission)
    ensures |e.groups| <= |cpus|
    ensures e.stop.None? ==> |e.groups| == |cpus|
    decreases |cpus|
  {
    if |cpus| == 0 then Emission([], None)
    else
      match group(cpus[0])
      case Err(e) => Emission([], Some(e))
      case Ok(b) =>
        if !accepts(b) then Emission([b], Some(DeviceRefused))
        else var rest := Emit(cpus[1..], group, accepts); Emission([b] + rest.groups, rest.stop)
  }

  /** The groups `sent` for the first `i` cpus, followed by those of the rest, are all the loop writes. */
  predicate EmittedSoFar(cpus: seq<int>, i: nat, group: int -> Result<Bytes, PmuError>, accepts: Bytes -> bool, sent: seq<Bytes>)
    requires i <= |cpus|
  {
    Emit(cpus, group, accepts).groups == sent + Emit(cpus[i..], group, accepts).groups
    && Emit(cpus, group, accepts).stop == Emit(cpus[i..], group, accepts).stop
  }

  /** The rest of the loop from cpu `i` on: the first step of `Emit` on `cpus[i..]`. */
  lemma EmitFrom(cpus: seq<int>, i: nat, group: int -> Result<Bytes, PmuError>, accepts: Bytes -> bool)
    requires i < |cpus|
    ensures Emit(cpus[i..], group, accepts) ==
      match group(cpus[i])
      case Err(e) => Emission([], Some(e))
      case Ok(b) =>
        if !accepts(b) then Emission([b], Some(DeviceRefused))
        else Emission([b] + Emit(cpus[i + 1..], group, accepts).groups, Emit(cpus[i + 1..], group, accepts).stop)
  {
    var t := cpus[i..];
    assert t[0] == cpus[i] && t[1..] == cpus[i + 1..];
  }

  /** A group that cannot be packed stops the loop before it is written. */
  lemma EmitPackFails(cpus: seq<int>, i: nat, group: int -> Result<Bytes, PmuError>, accepts: Bytes -> bool, sent: seq<Bytes>)
    requires i < |cpus| && EmittedSoFar(cpus, i, group, accepts, sent) && group(cpus[i]).Err?
    ensures Emit(cpus, group, accepts) == Emission(sent, Some(group(cpus[i]).error))
  {
    EmitFrom(cpus, i, group, accepts);
    assert sent + [] == sent;
  }

  /** A group the device refuses is written, and the loop stops after it. */
  lemma EmitRefused(cpus: seq<int>, i: nat, group: int -> Result<Bytes, PmuError>, accepts: Bytes -> bool, sent: seq<Bytes>)
    requires i < |cpus| && EmittedSoFar(cpus, i, group, accepts, sent)
    requires group(cpus[i]).Ok? && !accepts(group(cpus[i]).value)
    ensures Emit(cpus, group, accepts) == Emission(sent + [group(cpus[i]).value], Some(DeviceRefused))
  {
    EmitFrom(cpus, i, group, accepts);
  }

  /** A group the device accepts is written, and the loop goes on with the next cpu. */
  lemma EmitAdvance(cpus: seq<int>, i: nat, group: int -> Result<Bytes, PmuError>, accepts: Bytes -> bool, sent: seq<Bytes>)
    requires i < |cpus| && EmittedSoFar(cpus, i, group, accepts, sent)
    requires group(cpus[i]).Ok? && accepts(group(cpus[i]).value)
    ensures EmittedSoFar(cpus, i + 1, group, accepts, sent + [group(cpus[i]).value])
  {
    EmitFrom(cpus, i, group, accepts);
    var b := group(cpus[i]).value;
    var rest := Emit(cpus[i + 1..], group, accepts);
    assert sent + ([b] + rest.groups) == (sent + [b]) + rest.groups;
  }

  /**
   * The k-th group written is the group of the k-th cpu, and every group but a refused last one
   * was accepted. The loop completes exactly when every cpu got its group; otherwise it stops
   * either at the first cpu whose group cannot be packed, or right after the first group the
   * device refuses.
   */
  lemma {:induction false} EmitMeaning(cpus: seq<int>, group: int -> Result<Bytes, PmuError>, accepts: Bytes -> bool)
    ensures var e := Emit(cpus, group, accepts);
      && |e.groups| <= |cpus|
      && (forall k :: 0 <= k < |e.groups| ==> group(cpus[k]) == Ok(e.groups[k]))
      && (e.stop.None? <==> |e.groups| == |cpus| && forall k :: 0 <= k < |e.groups| ==> accepts(e.groups[k]))
      && (e.stop.Some? ==>
            (|e.groups| < |cpus| && group(cpus[|e.groups|]) == Err(e.stop.value)
             && forall k :: 0 <= k < |e.groups| ==> accepts(e.groups[k]))
            || (e.stop == Some(DeviceRefused) && |e.groups| > 0 && !accepts(e.groups[|e.groups| - 1])
             && forall k :: 0 <= k < |e.groups| - 1 ==> accepts(e.groups[k])))
    decreases |cpus|
  {
    if |cpus| > 0 && group(cpus[0]).Ok? && accepts(group(cpus[0]).value) {
      EmitMeaning(cpus[1..], group, accepts);
      var e := Emit(cpus, group, accepts);
      var rest := Emit(cpus[1..], group, accepts);
      assert e.groups == [group(cpus[0]).value] + rest.groups;
      forall k | 1 <= k < |e.groups| ensures e.groups[k] == rest.groups[k - 1] && cpus[k] == cpus[1..][k - 1] {
      }
    }
  }

  /**
   * When the masks have their slot sizes, the sections fit and every cpu id fits a byte, no
   * group fails to pack: every group written is of the kernel's request size and read by the
   * kernel as addressed to its cpu, and the loop completes exactly when the device accepts them
   * all.
   */
  lemma EmitAccepted(cpus: seq<int>, l: EventLists, d: DefaultMasks, accepts: Bytes -> bool)
    requires MasksSized(l, d) && forall k :: 0 <= k < |cpus| ==> 0 <= cpus[k] < 256
    requires |l.fixed| <= FIXED_EVENT_MAX && |l.generic| <= GP_EVENT_MAX && |l.offcore| <= OFFCORE_EVENT_MAX
    ensures Emit(cpus, Groups(l, d), accepts).stop.None? || Emit(cpus, Groups(l, d), accepts).stop == Some(DeviceRefused)
    ensures |Emit(cpus, Groups(l, d), accepts).groups| <= |cpus|
    ensures forall k :: 0 <= k < |Emit(cpus, Groups(l, d), accepts).groups| ==>
      |Emit(cpus, Groups(l, d), accepts).groups[k]| == REQUEST_SIZE
      && DecodeRequest(Emit(cpus, Groups(l, d), accepts).groups[k]).cpu == Byte(cpus[k])
  {
    var e := Emit(cpus, Groups(l, d), accepts);
    EmitMeaning(cpus, Groups(l, d), accepts);
    if e.stop.Some? && e.stop != Some(DeviceRefused) {
      GroupDecodes(cpus[|e.groups|], l, d);
    }
    forall k | 0 <= k < |e.groups|
      ensures |e.groups[k]| == REQUEST_SIZE && DecodeRequest(e.groups[k]).cpu == Byte(cpus[k])
    {
      GroupDecodes(cpus[k], l, d);
    }
  }

  /**
   * The kernel's answer to a written group, for a machine whose state does not change while
   * the groups are written: `pmu_write` copies the bytes and `processRequest` returns the request
   * size (ko/PMUCtrl.c:309-369, 371-384). `nrCpuIds` and `online` are `nr_cpu_ids` and the
   * online cpus, and the rest are the parameters of `ProcessSpec`.
   */
  function KernelAccepts(nrCpuIds: int, online: set<int>, ipiFails: bool,
                         faults: MsrWrite -> bool, m: map<int, bv64>, t: seq<MsrWrite>): Bytes -> bool
  {
    b => |b| == REQUEST_SIZE
      && ProcessSpec(DecodeRequest(b), CpuOnline(nrCpuIds, online, b[0]), ipiFails, faults, m, t).ret
         == REQUEST_SIZE
  }

  /** `r_->_cpu < nr_cpu_ids && cpu_online(r_->_cpu)` for the cpu byte `c` of a request. */
  predicate CpuOnline(nrCpuIds: int, online: set<int>, c: bv8) {
    (c as int) < nrCpuIds && (c as int) in online
  }

  /** The kernel refuses a request image whose cpu byte names a cpu that is not online. */
  lemma InactiveBytesRefused(b: Bytes, nrCpuIds: int, online: set<int>, ipiFails: bool,
                             faults: MsrWrite -> bool, m: map<int, bv64>, t: seq<MsrWrite>)
    requires |b| == REQUEST_SIZE && !CpuOnline(nrCpuIds, online, b[0])
    ensures !KernelAccepts(nrCpuIds, online, ipiFails, faults, m, t)(b)
  {
    ProcessSucceeds(DecodeRequest(b), false, ipiFails, faults, m, t);
  }

  /** The kernel refuses a group addressed to a cpu that is not online (the -ENXIO of processRequest). */
  lemma InactiveCpuRefused(cpu: int, l: EventLists, d: DefaultMasks, nrCpuIds: int, online: set<int>, ipiFails: bool,
                           faults: MsrWrite -> bool, m: map<int, bv64>, t: seq<MsrWrite>)
    requires GroupFits(cpu, l, d) && !CpuOnline(nrCpuIds, online, Byte(cpu))
    ensures RequestGroup(cpu, l, d).Ok?
    ensures !KernelAccepts(nrCpuIds, online, ipiFails, faults, m, t)(RequestGroup(cpu, l, d).value)
  {
    GroupDecodes(cpu, l, d);
    var b := RequestGroup(cpu, l, d).value;
    assert DecodeRequest(b).cpu == b[0];
    InactiveBytesRefused(b, nrCpuIds, online, ipiFails, faults, m, t);
  }

  /**
   * `enable` against the kernel: when the k-th cpu (as the byte `struct.pack` writes) is not
   * online, the loop raises IOError after
   * writing at most the groups of the first k + 1 cpus, so no later cpu is programmed.
   */
  lemma EmitStopsAtInactiveCpu(cpus: seq<int>, l: EventLists, d: DefaultMasks, k: nat,
                               nrCpuIds: int, online: set<int>, ipiFails: bool,
                               faults: MsrWrite -> bool, m: map<int, bv64>, t: seq<MsrWrite>)
    requires MasksSized(l, d) && forall j :: 0 <= j < |cpus| ==> 0 <= cpus[j] < 256
    requires |l.fixed| <= FIXED_EVENT_MAX && |l.generic| <= GP_EVENT_MAX && |l.offcore| <= OFFCORE_EVENT_MAX
    requires k < |cpus| && !CpuOnline(nrCpuIds, online, Byte(cpus[k]))
    ensures var e := Emit(cpus, Groups(l, d), KernelAccepts(nrCpuIds, online, ipiFails, faults, m, t));
      e.stop == Some(DeviceRefused) && |e.groups| <= k + 1
  {
    var accepts := KernelAccepts(nrCpuIds, online, ipiFails, faults, m, t);
    var e := Emit(cpus, Groups(l, d), accepts);
    EmitMeaning(cpus, Groups(l, d), accepts);
    EmitAccepted(cpus, l, d, accepts);
    InactiveCpuRefused(cpus[k], l, d, nrCpuIds, online, ipiFails, faults, m, t);
    if |e.groups| > k {
      assert Groups(l, d)(cpus[k]) == Ok(e.groups[k]);
      assert !accepts(e.groups[k]);
    }
  }

  /**
   * `EventState` (xpedite.pmu.event, which is not part of this model): the target cpus and the
   * three request lists; its `add*PmuRequest` methods are taken to append to their list.
   */
  class EventState {
    const cpuSet: seq<int>
    var fixedRequests: seq<PmuRequest>
    var genericRequests: seq<PmuRequest>
    var offcoreRequests: seq<PmuRequest>

    constructor (cpuSet: seq<int>)
      ensures this.cpuSet == cpuSet && Lists() == NO_EVENTS
    {
      this.cpuSet := cpuSet;
      fixedRequests, genericRequests, offcoreRequests := [], [], [];
    }

    function Lists(): EventLists
      reads this
    {
      EventLists(fixedRequests, genericRequests, offcoreRequests)
    }

    method AddGenericPmuRequest(q: PmuRequest)
      modifies this
      ensures Lists() == old(Lists()).(generic := old(genericRequests) + [q])
    {
      genericRequests := genericRequests + [q];
    }

    method AddOffcorePmuRequest(q: PmuRequest)
      modifies this
      ensures Lists() == old(Lists()).(offcore := old(offcoreRequests) + [q])
    {
      offcoreRequests := offcoreRequests + [q];
    }

    method AddFixedPmuRequest(q: PmuRequest)
      modifies this
      ensures Lists() == old(Lists()).(fixed := old(fixedRequests) + [q])
    {
      fixedRequests := fixedRequests + [q];
    }
  }

  /**
   * `buildRequestGroup`: the header, then for each section the requests' masks followed by
   * default masks up to the section's slot count.
   */
  method BuildRequestGroup(cpu: int, eventState: EventState, d: DefaultMasks) returns (r: Result<Bytes, PmuError>)
    ensures r == RequestGroup(cpu, eventState.Lists(), d)
  {
    var nFixed, nGeneric, nOffcore := |eventState.fixedRequests|, |eventState.genericRequests|, |eventState.offcoreRequests|;
    if !(IsUByte(cpu) && IsUByte(nFixed) && IsUByte(nGeneric) && IsUByte(nOffcore)) {
      return Err(StructError);
    }
    var request: Bytes := [Byte(cpu), Byte(nFixed), Byte(nGeneric), Byte(nOffcore)];
    var section := AppendSection(eventState.fixedRequests, FIXED_EVENT_MAX, d.fixed);
    request := request + section;
    section := AppendSection(eventState.genericRequests, GP_EVENT_MAX, d.generic);
    request := request + section;
    section := AppendSection(eventState.offcoreRequests, OFFCORE_EVENT_MAX, d.offcore);
    request := request + section;
    return Ok(request);
  }

  /**
   * The bytes one section adds to the group in `buildRequestGroup`: the loop over the requests,
   * then the padding loop.
   */
  method AppendSection(rs: seq<PmuRequest>, slots: nat, default: Bytes) returns (out: Bytes)
    ensures out == Section(rs, slots, default)
  {
    ghost var ms := Padded(rs, slots, default);
    PaddedAt(rs, slots, default);
    out := [];
    var i := 0;
    while i < |rs|
      invariant 0 <= i <= |rs| && out == Concat(ms[..i])
    {
      ConcatSnoc(ms, i);
      out := out + rs[i].mask;
      i := i + 1;
    }
    while i < slots
      invariant |rs| <= i <= |ms| && out == Concat(ms[..i])
    {
      ConcatSnoc(ms, i);
      out := out + default;
      i := i + 1;
    }
    assert ms[..i] == ms;
  }

  /**
   * `PMUCtrl`: `build` is `PmuRequestFactory(eventsDb).buildRequests`, `deviceOpen` whether
   * `__enter__` opened the device, and `written` the request groups written to it so far.
   */
  class PMUCtrl<E> {
    const build: E -> seq<PmuRequest>
    var deviceOpen: bool
    var written: seq<Bytes>

    constructor (build: E -> seq<PmuRequest>, deviceOpen: bool)
      ensures this.build == build && this.deviceOpen == deviceOpen && written == []
    {
      this.build := build;
      this.deviceOpen := deviceOpen;
      written := [];
    }

    /** `resolveEvents`: a fresh event state holding the classified requests, or the exception raised. */
    method ResolveEvents(cpuSet: seq<int>, events: seq<E>) returns (r: Result<EventState, PmuError>)
      ensures Resolve(events, build).Err? <==> r.Err?
      ensures r.Err? ==> r.error == Resolve(events, build).error
      ensures r.Ok? ==> fresh(r.value) && r.value.cpuSet == cpuSet && r.value.Lists() == Resolve(events, build).value
    {
      if |events| > MAX_EVENTS {
        return Err(TooManyEvents);
      }
      var eventState := new EventState(cpuSet);
      var i := 0;
      while i < |events|
        invariant 0 <= i <= |events| && fresh(eventState) && eventState.cpuSet == cpuSet
        invariant Classify(Requests(events[..i], build)) == Some(eventState.Lists())
      {
        var requests := build(events[i]);
        var ok := AddRequests(eventState, Requests(events[..i], build), requests);
        if !ok {
          assert requests[..|requests|] == requests;
          FailedPrefix(events, i, requests, |requests|, build);
          return Err(InvalidEventType);
        }
        RequestsSnoc(events, i, build);
        i := i + 1;
      }
      assert events[..i] == events;
      return Ok(eventState);
    }

    /**
     * `enable`: refuses without a device; otherwise resolves and allocates the events and writes
     * one request group per cpu in order, until a group cannot be packed or the device refuses
     * one. `accepts` is the device's answer to a group, as in `Emit`.
     */
    method Enable(cpuSet: seq<int>, events: seq<E>, sorter: seq<PmuRequest> -> Option<seq<PmuRequest>>, d: DefaultMasks,
                  accepts: Bytes -> bool)
      returns (r: Result<EventState, PmuError>)
      modifies this
      ensures deviceOpen == old(deviceOpen)
      ensures !deviceOpen ==> r == Err(DeviceNotEnabled) && written == old(written)
      ensures deviceOpen && Resolve(events, build).Err? ==>
        r == Err(Resolve(events, build).error) && written == old(written)
      ensures deviceOpen && Resolve(events, build).Ok? && Allocated(Resolve(events, build).value, sorter).None? ==>
        r == Err(ConstraintViolation) && written == old(written)
      ensures deviceOpen && Resolve(events, build).Ok? && Allocated(Resolve(events, build).value, sorter).Some? ==>
        var l := Allocated(Resolve(events, build).value, sorter).value;
        var e := Emit(cpuSet, Groups(l, d), accepts);
        && written == old(written) + e.groups
        && (r.Ok? <==> e.stop.None?) && (r.Err? ==> Some(r.error) == e.stop)
        && (r.Ok? ==> fresh(r.value) && r.value.Lists() == l)
    {
      if !deviceOpen {
        return Err(DeviceNotEnabled);
      }
      var resolved := ResolveEvents(cpuSet, events);
      if resolved.Err? {
        return Err(resolved.error);
      }
      var eventState := resolved.value;
      var ok := AllocateEvents(eventState, sorter);
      if !ok {
        return Err(ConstraintViolation);
      }
      var stop := WriteGroups(cpuSet, eventState, d, accepts);
      if stop.Some? {
        return Err(stop.value);
      }
      return Ok(eventState);
    }

    /**
     * The loop of `enable` over the cpus: build each group, write it and flush it, until one
     * cannot be packed or the device refuses one.
     */
    method WriteGroups(cpuSet: seq<int>, eventState: EventState, d: DefaultMasks, accepts: Bytes -> bool)
      returns (stop: Option<PmuError>)
      modifies this
      ensures deviceOpen == old(deviceOpen)
      ensures written == old(written) + Emit(cpuSet, Groups(eventState.Lists(), d), accepts).groups
      ensures stop == Emit(cpuSet, Groups(eventState.Lists(), d), accepts).stop
    {
      ghost var group := Groups(eventState.Lists(), d);
      ghost var sent: seq<Bytes> := [];
      var i := 0;
      while i < |cpuSet|
        invariant 0 <= i <= |cpuSet| && written == old(written) + sent && deviceOpen == old(deviceOpen)
        invariant EmittedSoFar(cpuSet, i, group, accepts, sent)
      {
        var raised := WriteGroup(cpuSet[i], eventState, d, accepts);
        if raised.Some? {
          if group(cpuSet[i]).Err? {
            EmitPackFails(cpuSet, i, group, accepts, sent);
          } else {
            EmitRefused(cpuSet, i, group, accepts, sent);
          }
          return raised;
        }
        EmitAdvance(cpuSet, i, group, accepts, sent);
        sent := sent + [group(cpuSet[i]).value];
        i := i + 1;
      }
      assert cpuSet[i..] == [];
      return None;
    }

    /**
     * One turn of the loop: the cpu's group is packed, written and flushed. A group that cannot
     * be packed is not written; a group the device refuses is written and the flush raises.
     */
    method WriteGroup(cpu: int, eventState: EventState, d: DefaultMasks, accepts: Bytes -> bool)
      returns (raised: Option<PmuError>)
      modifies this
      ensures deviceOpen == old(deviceOpen)
      ensures match RequestGroup(cpu, eventState.Lists(), d)
        case Err(e) => written == old(written) && raised == Some(e)
        case Ok(b) => written == old(written) + [b] && raised == (if accepts(b) then None else Some(DeviceRefused))
    {
      var requestGroup := BuildRequestGroup(cpu, eventState, d);
      if requestGroup.Err? {
        return Some(requestGroup.error);
      }
      written := written + [requestGroup.value];
      if !accepts(requestGroup.value) {
        return Some(DeviceRefused);
      }
      return None;
    }
  }

  /**
   * The inner loop of `resolveEvents` over one event's requests: each goes to the list of its
   * class; `ok == false` stands for the exception raised on a request of no known class.
   */
  method AddRequests(eventState: EventState, ghost pre: seq<PmuRequest>, requests: seq<PmuRequest>) returns (ok: bool)
    requires Classify(pre) == Some(eventState.Lists())
    modifies eventState
    ensures ok ==> Classify(pre + requests) == Some(eventState.Lists())
    ensures !ok ==> Classify(pre + requests).None?
  {
    var j := 0;
    assert pre + requests[..j] == pre;
    while j < |requests|
      invariant 0 <= j <= |requests|
      invariant Classify(pre + requests[..j]) == Some(eventState.Lists())
    {
      var request := requests[j];
      ClassifyNext(pre, requests, j);
      match request.kind {
        case Generic => eventState.AddGenericPmuRequest(request);
        case Offcore => eventState.AddOffcorePmuRequest(request);
        case Fixed => eventState.AddFixedPmuRequest(request);
        case Other =>
          ClassifyAppendNone(pre + requests[..j + 1], requests[j + 1..]);
          assert pre + requests[..j + 1] + requests[j + 1..] == pre + requests;
          return false;
      }
      j := j + 1;
    }
    assert requests[..j] == requests;
    return true;
  }

  /**
   * `allocateEvents`: with generic requests, the sorter's answer replaces them when it is
   * non-empty and has as many requests; `ok == false` stands for the exception raised otherwise.
   * The fixed and offcore lists are never touched.
   */
  method AllocateEvents(eventState: EventState, sorter: seq<PmuRequest> -> Option<seq<PmuRequest>>) returns (ok: bool)
    modifies eventState
    ensures ok <==> Allocated(old(eventState.Lists()), sorter).Some?
    ensures ok ==> eventState.Lists() == Allocated(old(eventState.Lists()), sorter).value
    ensures !ok ==> eventState.Lists() == old(eventState.Lists())
    ensures ok <==> (old(eventState.genericRequests) == [] ||
      (sorter(old(eventState.genericRequests)).Some? && |sorter(old(eventState.genericRequests)).value| > 0
       && |sorter(old(eventState.genericRequests)).value| == |old(eventState.genericRequests)|))
    ensures eventState.fixedRequests == old(eventState.fixedRequests) && eventState.offcoreRequests == old(eventState.offcoreRequests)
  {
    if |eventState.genericRequests| > 0 {
      var sortedRequests := sorter(eventState.genericRequests);
      if sortedRequests.Some? && |sortedRequests.value| > 0 && |sortedRequests.value| == |eventState.genericRequests| {
        eventState.genericRequests := sortedRequests.value;
      } else {
        return false;
      }
    }
    return true;
  }
}
