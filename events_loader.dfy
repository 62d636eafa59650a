/**
 * The events database loader (scripts/lib/xpedite/pmu/eventsLoader.py): the converters that turn
 * the text fields of a micro-architecture record into event attributes, the field-to-attribute
 * factories, the classification of a record as a generic, fixed or offcore event, and the
 * accounting of `loadJson` over a list of records.
 *
 * A record is a dictionary of text fields, given in the order `iteritems` visits them. An event
 * object is its class and its attribute dictionary; `unInitialized()` and the `name` attribute
 * belong to xpedite.pmu.uarchEvent, which is not part of this model, and are parameters.
 */
module EventsLoader {
  import opened Results
  import opened PyText

  // ---------------------------------------------------------------------
  // Converters
  // ---------------------------------------------------------------------

  /** The value a converter stores in an attribute. */
  datatype Value = Text(text: string) | Int(number: int) | Flag(flag: bool) | IntSet(ints: set<int>) | IntList(list: seq<int>)

  /** The converters the json factories register. */
  datatype Converter =
    | Verbatim          // lambda v : v
    | Hex               // lambda v : int(v, 16)
    | Decimal           // int
    | NonZero           // lambda v : int(v) != 0
    | OrUnknown         // lambda v : v if v else 'unknown'
    | PmcList           // EventsLoader.decodePmcList
    | FixedCounter      // lambda v : int(v.split(EventsLoader.fixedCounterPrefix)[1])
    | HexList           // lambda v : [int(ec, 16) for ec in v.split(',')]

  const FIXED_COUNTER_PREFIX: string := "Fixed counter "

  /** `int(s, base)`, as a function of the text alone. */
  function IntOf(base: nat): string -> Option<int>
    requires IsBase(base)
  {
    s => ParseInt(s, base)
  }

  /** `parse(p)` of every piece, in order, or None when one of them raises. */
  function ParseAll(pieces: seq<string>, parse: string -> Option<int>): (r: Option<seq<int>>)
    ensures r.Some? ==> |r.value| == |pieces|
    decreases |pieces|
  {
    if |pieces| == 0 then Some([])
    else
      match parse(pieces[0])
      case None => None
      case Some(x) =>
        match ParseAll(pieces[1..], parse)
        case None => None
        case Some(xs) => Some([x] + xs)
  }

  /**
   * `ParseAll` succeeds exactly when every piece parses, and then holds each piece's integer at the
   * piece's position.
   */
  lemma {:induction false} ParseAllMeaning(pieces: seq<string>, parse: string -> Option<int>)
    ensures ParseAll(pieces, parse).Some? <==> forall k :: 0 <= k < |pieces| ==> parse(pieces[k]).Some?
    ensures ParseAll(pieces, parse).Some? ==>
      forall k :: 0 <= k < |pieces| ==> Some(ParseAll(pieces, parse).value[k]) == parse(pieces[k])
    decreases |pieces|
  {
    if |pieces| > 0 {
      ParseAllMeaning(pieces[1..], parse);
      assert forall k :: 1 <= k < |pieces| ==> pieces[1..][k - 1] == pieces[k];
      if parse(pieces[0]).Some? && ParseAll(pieces[1..], parse).Some? {
        var xs := ParseAll(pieces[1..], parse).value;
        assert ParseAll(pieces, parse).value == [parse(pieces[0]).value] + xs;
      }
    }
  }

  /** `decodePmcList`: the set of the integers of a comma-separated list, quotes stripped first. */
  function DecodePmcList(s: string): (r: Option<set<int>>)
    ensures r.Some? ==> r.value != {}
  {
    match ParseAll(Split(Strip(s, {'"'}), ","), IntOf(10))
    case None => None
    case Some(xs) =>
      var pmcs := set k | 0 <= k < |xs| :: xs[k];
      assert xs[0] in pmcs;
      Some(pmcs)
  }

  /** The counter index of a fixed event: the integer after the first `'Fixed counter '`. */
  function FixedCounterIndex(v: string): Option<int> {
    var pieces := Split(v, FIXED_COUNTER_PREFIX);
    if |pieces| < 2 then None else ParseInt(pieces[1], 10)
  }

  /** The event codes of an offcore event: a comma-separated list of hex values. */
  function HexValues(v: string): Option<seq<int>> {
    ParseAll(Split(v, ","), IntOf(16))
  }

  /** The attribute value a converter makes of a field, or None when it raises. */
  function Convert(c: Converter, v: string): Option<Value> {
    match c
    case Verbatim => Some(Text(v))
    case Hex => (match ParseInt(v, 16) case None => None case Some(x) => Some(Int(x)))
    case Decimal => (match ParseInt(v, 10) case None => None case Some(x) => Some(Int(x)))
    case NonZero => (match ParseInt(v, 10) case None => None case Some(x) => Some(Flag(x != 0)))
    case OrUnknown => Some(Text(if v == "" then "unknown" else v))
    case PmcList => (match DecodePmcList(v) case None => None case Some(xs) => Some(IntSet(xs)))
    case FixedCounter => (match FixedCounterIndex(v) case None => None case Some(x) => Some(Int(x)))
    case HexList => (match HexValues(v) case None => None case Some(xs) => Some(IntList(xs)))
  }

  /** The integers, printed in `base` (`'{}'` or `'{:x}'`). */
  function Shown(xs: seq<int>, base: nat): (r: seq<string>)
    requires IsBase(base)
    ensures |r| == |xs| && forall k :: 0 <= k < |xs| ==> r[k] == ShowInt(xs[k], base)
  {
    seq(|xs|, k requires 0 <= k < |xs| => ShowInt(xs[k], base))
  }

  /** Printed integers parse back to themselves. */
  lemma ParseShown(xs: seq<int>, base: nat)
    requires IsBase(base)
    ensures ParseAll(Shown(xs, base), IntOf(base)) == Some(xs)
  {
    forall k | 0 <= k < |xs| ensures IntOf(base)(Shown(xs, base)[k]) == Some(xs[k]) {
      ParseShowInt(xs[k], base);
    }
    ParseAllMeaning(Shown(xs, base), IntOf(base));
    assert ParseAll(Shown(xs, base), IntOf(base)).value == xs;
  }

  /** A character that is no digit and no sign never occurs in a printed integer. */
  lemma NotInShowInt(n: int, base: nat, c: char)
    requires IsBase(base) && !IsDigit(c, base) && c != '-'
    ensures c !in ShowInt(n, base)
  {
    var d := ShowNat(if n < 0 then -n else n, base);
    assert forall i :: 0 <= i < |d| ==> d[i] != c by {
      forall i | 0 <= i < |d| ensures d[i] != c {
        assert IsDigit(d[i], base);
      }
    }
    if n < 0 {
      ShowIntNegative(n, base);
      assert forall i :: 0 <= i < |"-" + d| ==> ("-" + d)[i] != c by {
        forall i | 0 <= i < |"-" + d| ensures ("-" + d)[i] != c {
          if i > 0 {
            assert ("-" + d)[i] == d[i - 1];
          }
        }
      }
    }
  }

  /** A character in neither the pieces nor the separator is not in their join. */
  lemma {:induction false} NotInJoin(xs: seq<string>, sep: string, c: char)
    requires |xs| >= 1 && c !in sep && forall k :: 0 <= k < |xs| ==> c !in xs[k]
    ensures c !in Join(xs, sep)
    decreases |xs|
  {
    if |xs| > 1 {
      NotInJoin(xs[1..], sep, c);
    }
  }

  /** The comma-separated text of printed integers has no comma inside a piece and no quote. */
  lemma ShownPieces(xs: seq<int>, base: nat)
    requires IsBase(base) && |xs| >= 1
    ensures forall k :: 0 <= k < |xs| ==> ',' !in Shown(xs, base)[k]
    ensures '"' !in Join(Shown(xs, base), ",")
  {
    forall k | 0 <= k < |xs| ensures ',' !in Shown(xs, base)[k] && '"' !in Shown(xs, base)[k] {
      NotInShowInt(xs[k], base, ',');
      NotInShowInt(xs[k], base, '"');
    }
    NotInJoin(Shown(xs, base), ",", '"');
  }

  /**
   * `decodePmcList` reads back the counters of a printed list, with or without surrounding
   * quotes, as the set of its integers.
   */
  lemma DecodePmcListRoundTrip(xs: seq<int>, p: string, q: string)
    requires |xs| >= 1
    requires forall i :: 0 <= i < |p| ==> p[i] == '"'
    requires forall i :: 0 <= i < |q| ==> q[i] == '"'
    ensures DecodePmcList(p + Join(Shown(xs, 10), ",") + q) == Some(set k | 0 <= k < |xs| :: xs[k])
  {
    var text := Join(Shown(xs, 10), ",");
    ShownPieces(xs, 10);
    JoinNonEmpty(Shown(xs, 10), ",");
    StripPadded(p, text, q, {'"'});
    SplitJoin(Shown(xs, 10), ',');
    ParseShown(xs, 10);
  }

  /** A join starting with a non-empty piece is non-empty. */
  lemma JoinNonEmpty(xs: seq<string>, sep: string)
    requires |xs| >= 1 && forall k :: 0 <= k < |xs| ==> |xs[k]| > 0
    ensures |Join(xs, sep)| > 0
  {
  }

  /** The offcore converter reads back a printed list of hex event codes, in order. */
  lemma HexValuesRoundTrip(xs: seq<int>)
    requires |xs| >= 1
    ensures HexValues(Join(Shown(xs, 16), ",")) == Some(xs)
  {
    ShownPieces(xs, 16);
    SplitJoin(Shown(xs, 16), ',');
    ParseShown(xs, 16);
  }

  /** `'Fixed counter ' + str(n)` yields n. */
  lemma FixedCounterRoundTrip(n: int)
    ensures FixedCounterIndex(FIXED_COUNTER_PREFIX + ShowInt(n, 10)) == Some(n)
  {
    var t := ShowInt(n, 10);
    NotInShowInt(n, 10, 'F');
    FindAbsent(t, FIXED_COUNTER_PREFIX);
    SplitAtPrefix(FIXED_COUNTER_PREFIX, t);
    ParseShowInt(n, 10);
  }

  /** A text without the prefix makes the fixed counter converter raise (IndexError). */
  lemma FixedCounterWithoutPrefix(v: string)
    requires Find(v, FIXED_COUNTER_PREFIX).None?
    ensures FixedCounterIndex(v).None?
  {
  }

  /** A text starting with the separator splits into an empty piece and the pieces of the rest. */
  lemma SplitAtPrefix(sep: string, t: string)
    requires |sep| > 0
    ensures Split(sep + t, sep) == [""] + Split(t, sep)
  {
    var v := sep + t;
    assert v[..|sep|] == sep;
    assert v[|sep|..] == t;
    assert Find(v, sep) == Some(0);
  }

  /** A text without the separator's first character has no occurrence of it. */
  lemma FindAbsent(t: string, sep: string)
    requires |sep| > 0 && sep[0] !in t
    ensures Find(t, sep).None?
  {
  }

  // ---------------------------------------------------------------------
  // ObjectFactory
  // ---------------------------------------------------------------------

  /** A record's fields, in the order `iteritems` visits them; field names are distinct. */
  type Record = seq<(string, string)>

  /** An event's attributes. */
  type Attrs = map<string, Value>

  /** `AttrInitializer`: the attribute a field sets and the converter applied to the field. */
  datatype AttrInitializer = AttrInitializer(name: string, converter: Converter)

  /** The attributes after `build` and whether it finished; a converter that raises stops it. */
  datatype Built = Built(attrs: Attrs, ok: bool)

  /**
   * What calling a converter on a field's text yields (None for an exception). The lemmas about
   * `build` hold for any such semantics; the factories use `Convert`.
   */
  type Conversion = (Converter, string) -> Option<Value>

  /** `build`'s loop over the record's fields from `attrs` on: registered fields set their attribute. */
  function BuildFrom(attrMap: map<string, AttrInitializer>, convert: Conversion, attrs: Attrs, fields: Record): Built
    decreases |fields|
  {
    if |fields| == 0 then Built(attrs, true)
    else if fields[0].0 in attrMap then
      var init := attrMap[fields[0].0];
      match convert(init.converter, fields[0].1)
      case None => Built(attrs, false)
      case Some(x) => BuildFrom(attrMap, convert, attrs[init.name := x], fields[1..])
    else BuildFrom(attrMap, convert, attrs, fields[1..])
  }

  /** The field at `k` is registered and its converter accepts its value. */
  predicate Converts(attrMap: map<string, AttrInitializer>, convert: Conversion, fields: Record, k: int)
    requires 0 <= k < |fields|
  {
    fields[k].0 in attrMap ==> convert(attrMap[fields[k].0].converter, fields[k].1).Some?
  }

  /** The field at `k` is registered to set attribute `a`. */
  predicate Sets(attrMap: map<string, AttrInitializer>, fields: Record, k: int, a: string)
    requires 0 <= k < |fields|
  {
    fields[k].0 in attrMap && attrMap[fields[k].0].name == a
  }

  /** `build` finishes exactly when the converter of every registered field accepts its value. */
  lemma {:induction false} BuildOk(attrMap: map<string, AttrInitializer>, convert: Conversion, attrs: Attrs, fields: Record)
    ensures BuildFrom(attrMap, convert, attrs, fields).ok ==> forall k :: 0 <= k < |fields| ==> Converts(attrMap, convert, fields, k)
    ensures (forall k :: 0 <= k < |fields| ==> Converts(attrMap, convert, fields, k)) ==> BuildFrom(attrMap, convert, attrs, fields).ok
    decreases |fields|
  {
    if |fields| > 0 {
      if fields[0].0 in attrMap && convert(attrMap[fields[0].0].converter, fields[0].1).None? {
        assert !Converts(attrMap, convert, fields, 0);
        assert !BuildFrom(attrMap, convert, attrs, fields).ok;
      } else {
        var next := attrs;
        if fields[0].0 in attrMap {
          next := attrs[attrMap[fields[0].0].name := convert(attrMap[fields[0].0].converter, fields[0].1).value];
        }
        assert BuildFrom(attrMap, convert, attrs, fields) == BuildFrom(attrMap, convert, next, fields[1..]);
        BuildOk(attrMap, convert, next, fields[1..]);
        assert Converts(attrMap, convert, fields, 0);
        if forall k :: 0 <= k < |fields| - 1 ==> Converts(attrMap, convert, fields[1..], k) {
          forall k | 0 <= k < |fields| ensures Converts(attrMap, convert, fields, k) {
            if k > 0 {
              assert fields[1..][k - 1] == fields[k] && Converts(attrMap, convert, fields[1..], k - 1);
            }
          }
        } else {
          var k :| 0 <= k < |fields| - 1 && !Converts(attrMap, convert, fields[1..], k);
          assert fields[1..][k] == fields[k + 1] && !Converts(attrMap, convert, fields, k + 1);
          assert !BuildFrom(attrMap, convert, attrs, fields).ok;
        }
      }
    }
  }

  /** An attribute no registered field of the record sets keeps its value (or its absence). */
  lemma {:induction false} BuildKeeps(attrMap: map<string, AttrInitializer>, convert: Conversion, attrs: Attrs, fields: Record, a: string)
    requires forall k :: 0 <= k < |fields| ==> !Sets(attrMap, fields, k, a)
    ensures var b := BuildFrom(attrMap, convert, attrs, fields).attrs;
      (a in b <==> a in attrs) && (a in attrs ==> b[a] == attrs[a])
    decreases |fields|
  {
    if |fields| > 0 {
      assert !Sets(attrMap, fields, 0, a);
      forall k | 0 <= k < |fields| - 1 ensures !Sets(attrMap, fields[1..], k, a) {
        assert !Sets(attrMap, fields, k + 1, a);
      }
      if fields[0].0 in attrMap {
        match convert(attrMap[fields[0].0].converter, fields[0].1)
        case None =>
        case Some(x) => BuildKeeps(attrMap, convert, attrs[attrMap[fields[0].0].name := x], fields[1..], a);
      } else {
        BuildKeeps(attrMap, convert, attrs, fields[1..], a);
      }
    }
  }

  /**
   * When `build` finishes, the attribute of a registered field holds the field's converted value,
   * unless a later field sets the same attribute.
   */
  lemma {:induction false} BuildSets(attrMap: map<string, AttrInitializer>, convert: Conversion, attrs: Attrs, fields: Record, k: nat)
    requires k < |fields| && fields[k].0 in attrMap && BuildFrom(attrMap, convert, attrs, fields).ok
    requires forall j :: k < j < |fields| ==> !Sets(attrMap, fields, j, attrMap[fields[k].0].name)
    ensures convert(attrMap[fields[k].0].converter, fields[k].1).Some?
    ensures var a := attrMap[fields[k].0].name;
      a in BuildFrom(attrMap, convert, attrs, fields).attrs
      && BuildFrom(attrMap, convert, attrs, fields).attrs[a] == convert(attrMap[fields[k].0].converter, fields[k].1).value
    decreases k
  {
    var a := attrMap[fields[k].0].name;
    if k == 0 {
      var x := convert(attrMap[fields[0].0].converter, fields[0].1).value;
      forall j | 0 <= j < |fields| - 1 ensures !Sets(attrMap, fields[1..], j, a) {
        assert !Sets(attrMap, fields, j + 1, a);
      }
      BuildKeeps(attrMap, convert, attrs[a := x], fields[1..], a);
    } else {
      var next := attrs;
      if fields[0].0 in attrMap {
        next := attrs[attrMap[fields[0].0].name := convert(attrMap[fields[0].0].converter, fields[0].1).value];
      }
      assert fields[1..][k - 1] == fields[k];
      forall j | k - 1 < j < |fields| - 1 ensures !Sets(attrMap, fields[1..], j, a) {
        assert !Sets(attrMap, fields, j + 1, a);
      }
      BuildSets(attrMap, convert, next, fields[1..], k - 1);
    }
  }

  /** An event object: its class and its attributes. */
  class UarchEvent {
    const kind: EventKind
    var attrs: Attrs

    /** The attributes the event class's constructor sets are outside this model: `attrs` holds them. */
    constructor (kind: EventKind, attrs: Attrs)
      ensures this.kind == kind && this.attrs == attrs
    {
      this.kind := kind;
      this.attrs := attrs;
    }
  }

  /** `ObjectFactory`: the initializers by field name. */
  class ObjectFactory {
    var attrMap: map<string, AttrInitializer>

    constructor ()
      ensures attrMap == map[]
    {
      attrMap := map[];
    }

    /** `add`: registers the initializer of a field, replacing any earlier one for that field. */
    method Add(fieldName: string, attrName: string, converter: Converter)
      modifies this
      ensures attrMap == old(attrMap)[fieldName := AttrInitializer(attrName, converter)]
    {
      attrMap := attrMap[fieldName := AttrInitializer(attrName, converter)];
    }

    /**
     * `build`: sets the attribute of every registered field of the record, in field order;
     * `ok == false` stands for the exception of a converter, which stops the loop.
     */
    method Build(obj: UarchEvent, record: Record) returns (ok: bool)
      modifies obj
      ensures Built(obj.attrs, ok) == BuildFrom(attrMap, Convert, old(obj.attrs), record)
    {
      var i := 0;
      while i < |record|
        invariant 0 <= i <= |record|
        invariant BuildFrom(attrMap, Convert, old(obj.attrs), record) == BuildFrom(attrMap, Convert, obj.attrs, record[i..])
      {
        var (fieldName, value) := record[i];
        assert record[i..][0] == record[i] && record[i..][1..] == record[i + 1..];
        if fieldName in attrMap {
          var converted := Convert(attrMap[fieldName].converter, value);
          if converted.None? {
            return false;
          }
          obj.attrs := obj.attrs[attrMap[fieldName].name := converted.value];
        }
        i := i + 1;
      }
      return true;
    }
  }

  // ---------------------------------------------------------------------
  // The json factories
  // ---------------------------------------------------------------------

  /** The event classes of uarchEvent. */
  datatype EventKind = GenericCore | FixedCore | OffCore

  /** The initializers of `jsonGenericCoreFactory`. */
  const GENERIC_ATTRS: map<string, AttrInitializer> := map[
    "EventName" := AttrInitializer("name", Verbatim),
    "EventCode" := AttrInitializer("eventSelect", Hex),
    "UMask" := AttrInitializer("unitMask", Hex),
    "CounterMask" := AttrInitializer("counterMask", Decimal),
    "Invert" := AttrInitializer("invert", NonZero),
    "BriefDescription" := AttrInitializer("briefDescription", OrUnknown),
    "PublicDescription" := AttrInitializer("description", OrUnknown),
    "Counter" := AttrInitializer("_validSmtPmc", PmcList),
    "CounterHTOff" := AttrInitializer("_validPmc", PmcList),
    "MSRIndex" := AttrInitializer("msrIndex", Verbatim),
    "MSRValue" := AttrInitializer("msrValue", Hex),
    "AnyThread" := AttrInitializer("anyThread", Decimal),
    "EdgeDetect" := AttrInitializer("edgeDetect", NonZero),
    "PEBS" := AttrInitializer("pebs", NonZero),
    "TakenAlone" := AttrInitializer("takenAlone", NonZero),
    "Data_LA" := AttrInitializer("dataLA", NonZero),
    "L1_Hit_Indication" := AttrInitializer("l1HitIndication", NonZero),
    "Errata" := AttrInitializer("errata", Verbatim)]

  /** The initializers of the factory for each event class. */
  function FactoryAttrs(kind: EventKind): map<string, AttrInitializer> {
    match kind
    case GenericCore => GENERIC_ATTRS
    case FixedCore =>
      GENERIC_ATTRS["Counter" := AttrInitializer("_validSmtPmc", FixedCounter)]
        ["CounterHTOff" := AttrInitializer("_validPmc", FixedCounter)]
    case OffCore => GENERIC_ATTRS["EventCode" := AttrInitializer("eventSelect", HexList)]
  }

  /**
   * The fixed and offcore factories register the same fields as the generic one and differ from it
   * only in the counter fields (fixed) or the event code (offcore).
   */
  lemma FactoriesDiffer(f: string)
    ensures f in FactoryAttrs(FixedCore) <==> f in GENERIC_ATTRS
    ensures f in FactoryAttrs(OffCore) <==> f in GENERIC_ATTRS
    ensures f in GENERIC_ATTRS && f != "Counter" && f != "CounterHTOff" ==> FactoryAttrs(FixedCore)[f] == GENERIC_ATTRS[f]
    ensures f in GENERIC_ATTRS && f != "EventCode" ==> FactoryAttrs(OffCore)[f] == GENERIC_ATTRS[f]
    ensures FactoryAttrs(FixedCore)["Counter"].converter == FactoryAttrs(FixedCore)["CounterHTOff"].converter == FixedCounter
    ensures FactoryAttrs(OffCore)["EventCode"] == AttrInitializer("eventSelect", HexList)
  {
  }

  /** `jsonGenericCoreFactory`. */
  method JsonGenericCoreFactory() returns (factory: ObjectFactory)
    ensures fresh(factory) && factory.attrMap == FactoryAttrs(GenericCore)
  {
    factory := new ObjectFactory();
    factory.Add("EventName", "name", Verbatim);
    factory.Add("EventCode", "eventSelect", Hex);
    factory.Add("UMask", "unitMask", Hex);
    factory.Add("CounterMask", "counterMask", Decimal);
    factory.Add("Invert", "invert", NonZero);
    factory.Add("BriefDescription", "briefDescription", OrUnknown);
    factory.Add("PublicDescription", "description", OrUnknown);
    factory.Add("Counter", "_validSmtPmc", PmcList);
    factory.Add("CounterHTOff", "_validPmc", PmcList);
    factory.Add("MSRIndex", "msrIndex", Verbatim);
    factory.Add("MSRValue", "msrValue", Hex);
    factory.Add("AnyThread", "anyThread", Decimal);
    factory.Add("EdgeDetect", "edgeDetect", NonZero);
    factory.Add("PEBS", "pebs", NonZero);
    factory.Add("TakenAlone", "takenAlone", NonZero);
    factory.Add("Data_LA", "dataLA", NonZero);
    factory.Add("L1_Hit_Indication", "l1HitIndication", NonZero);
    factory.Add("Errata", "errata", Verbatim);
  }

  /** `jsonFixedCoreFactory`: the generic factory with fixed counter converters. */
  method JsonFixedCoreFactory() returns (factory: ObjectFactory)
    ensures fresh(factory) && factory.attrMap == FactoryAttrs(FixedCore)
  {
    factory := JsonGenericCoreFactory();
    factory.Add("Counter", "_validSmtPmc", FixedCounter);
    factory.Add("CounterHTOff", "_validPmc", FixedCounter);
  }

  /** `jsonOffCoreFactory`: the generic factory with a list of event codes. */
  method JsonOffCoreFactory() returns (factory: ObjectFactory)
    ensures fresh(factory) && factory.attrMap == FactoryAttrs(OffCore)
  {
    factory := JsonGenericCoreFactory();
    factory.Add("EventCode", "eventSelect", HexList);
  }

  // ---------------------------------------------------------------------
  // Classification
  // ---------------------------------------------------------------------

  /** `record[key]`, or None (KeyError) for a field the record lacks. */
  function Lookup(record: Record, key: string): (r: Option<string>)
    ensures r.Some? <==> exists k :: 0 <= k < |record| && record[k].0 == key
    ensures r.Some? ==> exists k :: 0 <= k < |record| && record[k] == (key, r.value)
    decreases |record|
  {
    if |record| == 0 then None
    else if record[0].0 == key then Some(record[0].1)
    else
      var r := Lookup(record[1..], key);
      assert forall k :: 1 <= k < |record| ==> record[k] == record[1..][k - 1];
      r
  }

  /**
   * `isOffcoreEventRecord`: a nonzero `Offcore` field (0 when absent), or the event name
   * OFFCORE_RESPONSE; None stands for the exception of a non-numeric flag or a missing name.
   */
  function IsOffcoreEventRecord(record: Record): (r: Option<bool>)
    ensures r == Some(false) ==>
      Lookup(record, "EventName").Some? && Lookup(record, "EventName").value != "OFFCORE_RESPONSE"
    ensures Lookup(record, "Offcore").None? && Lookup(record, "EventName").None? ==> r.None?
  {
    var flag := match Lookup(record, "Offcore") case None => Some(0) case Some(s) => ParseInt(s, 10);
    match flag
    case None => None
    case Some(f) =>
      if f != 0 then Some(true)
      else
        match Lookup(record, "EventName")
        case None => None
        case Some(name) => Some(name == "OFFCORE_RESPONSE")
  }

  /** The class `jsonFactory` builds for a record, or None when its tests raise. */
  function JsonFactoryKind(record: Record): (r: Option<EventKind>)
    ensures r.Some? ==> IsOffcoreEventRecord(record).Some?
    ensures r.Some? && r.value != OffCore ==> Lookup(record, "Counter").Some?
  {
    match IsOffcoreEventRecord(record)
    case None => None
    case Some(true) => Some(OffCore)
    case Some(false) =>
      match Lookup(record, "Counter")
      case None => None
      case Some(counter) => Some(if StartsWith(counter, FIXED_COUNTER_PREFIX) then FixedCore else GenericCore)
  }

  /**
   * A record is an offcore record exactly when its `Offcore` flag is a nonzero integer, or the
   * flag is absent or zero and the event is named OFFCORE_RESPONSE.
   */
  lemma OffcoreMeaning(record: Record)
    ensures IsOffcoreEventRecord(record) == Some(true) <==>
      (Lookup(record, "Offcore").Some? && ParseInt(Lookup(record, "Offcore").value, 10).Some?
        && ParseInt(Lookup(record, "Offcore").value, 10).value != 0)
      || ((Lookup(record, "Offcore").None? || ParseInt(Lookup(record, "Offcore").value, 10) == Some(0))
        && Lookup(record, "EventName") == Some("OFFCORE_RESPONSE"))
    ensures Lookup(record, "Offcore").Some? && ParseInt(Lookup(record, "Offcore").value, 10).None? ==>
      IsOffcoreEventRecord(record).None?
  {
  }

  /**
   * `jsonFactory` picks the offcore factory first, then the fixed one for a counter named
   * 'Fixed counter ...', and the generic one otherwise.
   */
  lemma FactoryChoice(record: Record)
    ensures JsonFactoryKind(record) == Some(OffCore) <==> IsOffcoreEventRecord(record) == Some(true)
    ensures JsonFactoryKind(record) == Some(FixedCore) <==>
      IsOffcoreEventRecord(record) == Some(false) && Lookup(record, "Counter").Some?
      && StartsWith(Lookup(record, "Counter").value, FIXED_COUNTER_PREFIX)
    ensures JsonFactoryKind(record) == Some(GenericCore) <==>
      IsOffcoreEventRecord(record) == Some(false) && Lookup(record, "Counter").Some?
      && !StartsWith(Lookup(record, "Counter").value, FIXED_COUNTER_PREFIX)
  {
  }

  /**
   * `jsonFactory`: the factory for the record's class; `ok == false` stands for the exception its
   * tests raise.
   */
  method JsonFactory(record: Record) returns (ok: bool, kind: EventKind, factory: ObjectFactory?)
    ensures ok <==> JsonFactoryKind(record).Some?
    ensures ok ==> (kind == JsonFactoryKind(record).value && factory != null && fresh(factory)
      && factory.attrMap == FactoryAttrs(kind))
  {
    var offcore := IsOffcoreEventRecord(record);
    if offcore.None? {
      return false, GenericCore, null;
    }
    if offcore.value {
      factory := JsonOffCoreFactory();
      return true, OffCore, factory;
    }
    var counter := Lookup(record, "Counter");
    if counter.None? {
      return false, GenericCore, null;
    }
    if StartsWith(counter.value, FIXED_COUNTER_PREFIX) {
      factory := JsonFixedCoreFactory();
      return true, FixedCore, factory;
    }
    factory := JsonGenericCoreFactory();
    return true, GenericCore, factory;
  }

  // ---------------------------------------------------------------------
  // loadJson
  // ---------------------------------------------------------------------

  /**
   * What the event classes of uarchEvent contribute: the attributes their constructors set,
   * `unInitialized()` and the `name` attribute read back after `build`.
   */
  datatype EventClasses = EventClasses(
    initial: EventKind -> Attrs,
    unInitialized: (EventKind, Attrs) -> bool,
    nameOf: (EventKind, Attrs) -> string)

  /** The two exceptions `loadJson` raises after reading every record, with their counts. */
  datatype LoadError = UninitializedEvents(events: nat) | IncompatibleRecords(records: nat)

  /** What loading one record yields. */
  datatype RecordOutcome = Incompatible | Uninitialized | Loaded(name: string, kind: EventKind, attrs: Attrs)

  /** One iteration of `loadJson`'s loop: any exception makes the record incompatible. */
  function Outcome(record: Record, classes: EventClasses): (r: RecordOutcome)
    ensures r.Loaded? ==> JsonFactoryKind(record) == Some(r.kind)
    ensures JsonFactoryKind(record).None? ==> r == Incompatible
  {
    match JsonFactoryKind(record)
    case None => Incompatible
    case Some(kind) =>
      var b := BuildFrom(FactoryAttrs(kind), Convert, classes.initial(kind), record);
      if !b.ok then Incompatible
      else if classes.unInitialized(kind, b.attrs) then Uninitialized
      else Loaded(classes.nameOf(kind, b.attrs), kind, b.attrs)
  }

  /** The outcome of every record, in order. */
  function Outcomes(records: seq<Record>, classes: EventClasses): (r: seq<RecordOutcome>)
    ensures |r| == |records|
    decreases |records|
  {
    if |records| == 0 then [] else Outcomes(records[..|records| - 1], classes) + [Outcome(records[|records| - 1], classes)]
  }

  /** The events database by name, and the sizes of the two failure lists. */
  datatype EventsDb = EventsDb(events: map<string, (EventKind, Attrs)>, uninitialized: nat, incompatible: nat)

  /** The state after the loop has seen `outcomes`. */
  function Collect(outcomes: seq<RecordOutcome>): EventsDb
    decreases |outcomes|
  {
    if |outcomes| == 0 then EventsDb(map[], 0, 0)
    else
      var db := Collect(outcomes[..|outcomes| - 1]);
      match outcomes[|outcomes| - 1]
      case Incompatible => db.(incompatible := db.incompatible + 1)
      case Uninitialized => db.(uninitialized := db.uninitialized + 1)
      case Loaded(name, kind, attrs) => db.(events := db.events[name := (kind, attrs)])
  }

  /** What `loadJson` returns or raises: uninitialized events are reported before incompatible records. */
  function Finish(db: EventsDb): (r: Result<map<string, (EventKind, Attrs)>, LoadError>)
    ensures r.Ok? <==> db.uninitialized == 0 && db.incompatible == 0
    ensures r.Err? ==> (r.error.UninitializedEvents? <==> db.uninitialized > 0)
  {
    if db.uninitialized > 0 then Err(UninitializedEvents(db.uninitialized))
    else if db.incompatible > 0 then Err(IncompatibleRecords(db.incompatible))
    else Ok(db.events)
  }

  /** `loadJson`'s result for the decoded records. */
  function LoadJsonResult(records: seq<Record>, classes: EventClasses): Result<map<string, (EventKind, Attrs)>, LoadError> {
    Finish(Collect(Outcomes(records, classes)))
  }

  /** How many outcomes are `Loaded`. */
  function LoadedCount(outcomes: seq<RecordOutcome>): nat
    decreases |outcomes|
  {
    if |outcomes| == 0 then 0
    else LoadedCount(outcomes[..|outcomes| - 1]) + if outcomes[|outcomes| - 1].Loaded? then 1 else 0
  }

  /**
   * Every record is counted exactly once: loaded, uninitialized or incompatible; names loaded twice
   * shrink the database.
   */
  lemma {:induction false} LoadAccounting(outcomes: seq<RecordOutcome>)
    ensures var db := Collect(outcomes);
      LoadedCount(outcomes) + db.uninitialized + db.incompatible == |outcomes|
      && |db.events| <= LoadedCount(outcomes)
    decreases |outcomes|
  {
    if |outcomes| > 0 {
      LoadAccounting(outcomes[..|outcomes| - 1]);
    }
  }

  /** The loop ends with a database exactly when every record loads. */
  lemma {:induction false} CollectOk(outcomes: seq<RecordOutcome>)
    ensures Finish(Collect(outcomes)).Ok? <==> forall k :: 0 <= k < |outcomes| ==> outcomes[k].Loaded?
    decreases |outcomes|
  {
    if |outcomes| > 0 {
      var init := outcomes[..|outcomes| - 1];
      CollectOk(init);
      assert forall k :: 0 <= k < |init| ==> init[k] == outcomes[k];
    }
  }

  /** `loadJson` returns a database exactly when every record loads. */
  lemma LoadJsonOk(records: seq<Record>, classes: EventClasses)
    ensures LoadJsonResult(records, classes).Ok? <==>
      forall k :: 0 <= k < |records| ==> Outcomes(records, classes)[k].Loaded?
  {
    var outcomes := Outcomes(records, classes);
    CollectOk(outcomes);
    assert LoadJsonResult(records, classes) == Finish(Collect(outcomes));
    assert outcomes == Outcomes(records, classes);
    assert |outcomes| == |records|;
    if forall k :: 0 <= k < |outcomes| ==> outcomes[k].Loaded? {
      assert forall k :: 0 <= k < |records| ==> Outcomes(records, classes)[k].Loaded?;
    }
  }

  /** The outcome at `k` loads an event named `name`. */
  predicate LoadsName(outcomes: seq<RecordOutcome>, k: int, name: string)
    requires 0 <= k < |outcomes|
  {
    outcomes[k].Loaded? && outcomes[k].name == name
  }

  /** A name is in the database exactly when some record loads an event of that name. */
  lemma {:induction false} LoadedNames(outcomes: seq<RecordOutcome>, name: string)
    ensures name in Collect(outcomes).events <==> exists k :: 0 <= k < |outcomes| && LoadsName(outcomes, k, name)
    decreases |outcomes|
  {
    if |outcomes| > 0 {
      var n := |outcomes| - 1;
      var init := outcomes[..n];
      LoadedNames(init, name);
      if LoadsName(outcomes, n, name) {
        assert name in Collect(outcomes).events;
      } else {
        assert name in Collect(outcomes).events <==> name in Collect(init).events;
        if k :| 0 <= k < |outcomes| && LoadsName(outcomes, k, name) {
          assert init[k] == outcomes[k] && LoadsName(init, k, name);
        }
        if k :| 0 <= k < |init| && LoadsName(init, k, name) {
          assert init[k] == outcomes[k] && LoadsName(outcomes, k, name);
        }
      }
    }
  }

  /** The event kept under a name is the one of the last record that loads an event of that name. */
  lemma {:induction false} LastWins(outcomes: seq<RecordOutcome>, name: string, k: nat)
    requires k < |outcomes| && LoadsName(outcomes, k, name)
    requires forall j :: k < j < |outcomes| ==> !LoadsName(outcomes, j, name)
    ensures name in Collect(outcomes).events
    ensures Collect(outcomes).events[name] == (outcomes[k].kind, outcomes[k].attrs)
    decreases |outcomes|
  {
    var n := |outcomes| - 1;
    if k < n {
      var init := outcomes[..n];
      assert !LoadsName(outcomes, n, name);
      forall j | k < j < n ensures !LoadsName(init, j, name) {
        assert init[j] == outcomes[j] && !LoadsName(outcomes, j, name);
      }
      assert init[k] == outcomes[k];
      LastWins(init, name, k);
    }
  }

  /**
   * One record of `loadJson`'s loop: classify it, build its event with the chosen factory, and test
   * the event; `event` is the event built when the record is not incompatible.
   */
  method LoadRecord(record: Record, classes: EventClasses) returns (outcome: RecordOutcome, event: UarchEvent?)
    ensures outcome == Outcome(record, classes)
    ensures outcome.Loaded? ==> event != null && fresh(event) && event.kind == outcome.kind && event.attrs == outcome.attrs
  {
    var ok, kind, factory := JsonFactory(record);
    if !ok {
      return Incompatible, null;
    }
    assert JsonFactoryKind(record) == Some(kind);
    event := new UarchEvent(kind, classes.initial(kind));
    var built := factory.Build(event, record);
    assert BuildFrom(FactoryAttrs(kind), Convert, classes.initial(kind), record) == Built(event.attrs, built);
    if !built {
      return Incompatible, event;
    }
    if classes.unInitialized(kind, event.attrs) {
      return Uninitialized, event;
    }
    outcome := Loaded(classes.nameOf(kind, event.attrs), kind, event.attrs);
  }

  /** Visiting one more record appends its outcome. */
  lemma OutcomesSnoc(records: seq<Record>, i: nat, classes: EventClasses)
    requires i < |records|
    ensures Outcomes(records[..i + 1], classes) == Outcomes(records[..i], classes) + [Outcome(records[i], classes)]
  {
    assert records[..i + 1][..i] == records[..i];
  }

  /** The map of event objects and the lengths of the two lists stand for the state `db`. */
  ghost predicate Stands(eventsDb: map<string, UarchEvent>, incompatible: nat, uninitialized: nat, db: EventsDb)
    reads set n | n in eventsDb :: eventsDb[n]
  {
    db.incompatible == incompatible && db.uninitialized == uninitialized
    && (forall n :: n in eventsDb <==> n in db.events)
    && forall n :: n in eventsDb ==> (eventsDb[n].kind, eventsDb[n].attrs) == db.events[n]
  }

  /**
   * The bookkeeping of one iteration of `loadJson`'s loop: an incompatible record or an
   * uninitialized event joins its list, a loaded event is stored under its name.
   */
  method Keep(eventsDb: map<string, UarchEvent>, incompatibleRecords: seq<Record>, uninitializedEvents: seq<UarchEvent?>,
    record: Record, outcome: RecordOutcome, event: UarchEvent?, ghost seen: seq<RecordOutcome>)
    returns (eventsDb': map<string, UarchEvent>, incompatibleRecords': seq<Record>, uninitializedEvents': seq<UarchEvent?>)
    requires Stands(eventsDb, |incompatibleRecords|, |uninitializedEvents|, Collect(seen))
    requires outcome.Loaded? ==> event != null && event.kind == outcome.kind && event.attrs == outcome.attrs
    ensures Stands(eventsDb', |incompatibleRecords'|, |uninitializedEvents'|, Collect(seen + [outcome]))
    ensures forall n :: n in eventsDb' ==>
      (outcome.Loaded? && eventsDb'[n] == event) || (n in eventsDb && eventsDb'[n] == eventsDb[n])
  {
    ghost var db := Collect(seen);
    assert (seen + [outcome])[..|seen|] == seen;
    eventsDb', incompatibleRecords', uninitializedEvents' := eventsDb, incompatibleRecords, uninitializedEvents;
    match outcome {
      case Incompatible =>
        incompatibleRecords' := incompatibleRecords + [record];
      case Uninitialized =>
        uninitializedEvents' := uninitializedEvents + [event];
      case Loaded(name, kind, attrs) =>
        assert Collect(seen + [outcome]) == db.(events := db.events[name := (kind, attrs)]);
        eventsDb' := eventsDb[name := event];
        forall n | n in eventsDb' ensures (eventsDb'[n].kind, eventsDb'[n].attrs) == Collect(seen + [outcome]).events[n] {
          if n != name {
            assert eventsDb'[n] == eventsDb[n];
          }
        }
    }
  }

  /**
   * `loadJson` over the decoded JSON records: every record is loaded as `LoadRecord` says, loaded
   * events are kept by name, and after the loop uninitialized events and then incompatible records
   * raise.
   */
  method LoadJson(records: seq<Record>, classes: EventClasses) returns (r: Result<map<string, UarchEvent>, LoadError>)
    ensures r.Err? <==> LoadJsonResult(records, classes).Err?
    ensures r.Err? ==> r.error == LoadJsonResult(records, classes).error
    ensures r.Ok? ==> r.value.Keys == LoadJsonResult(records, classes).value.Keys
    ensures r.Ok? ==> forall name :: name in r.value ==>
      fresh(r.value[name]) && (r.value[name].kind, r.value[name].attrs) == LoadJsonResult(records, classes).value[name]
  {
    var eventsDb, incompatibleRecords, uninitializedEvents := LoadRecords(records, classes);
    if |uninitializedEvents| > 0 {
      return Err(UninitializedEvents(|uninitializedEvents|));
    }
    if |incompatibleRecords| > 0 {
      return Err(IncompatibleRecords(|incompatibleRecords|));
    }
    return Ok(eventsDb);
  }

  /** The loop of `loadJson`: it ends in the state the outcomes of all the records give. */
  method LoadRecords(records: seq<Record>, classes: EventClasses)
    returns (eventsDb: map<string, UarchEvent>, incompatibleRecords: seq<Record>, uninitializedEvents: seq<UarchEvent?>)
    ensures Stands(eventsDb, |incompatibleRecords|, |uninitializedEvents|, Collect(Outcomes(records, classes)))
    ensures forall n :: n in eventsDb ==> fresh(eventsDb[n])
  {
    ghost var seen: seq<RecordOutcome> := [];
    eventsDb, incompatibleRecords, uninitializedEvents := map[], [], [];
    var i := 0;
    while i < |records|
      invariant 0 <= i <= |records| && seen == Outcomes(records[..i], classes)
      invariant Stands(eventsDb, |incompatibleRecords|, |uninitializedEvents|, Collect(seen))
      invariant forall n :: n in eventsDb ==> fresh(eventsDb[n])
    {
      var record := records[i];
      var outcome, event := LoadRecord(record, classes);
      OutcomesSnoc(records, i, classes);
      eventsDb, incompatibleRecords, uninitializedEvents :=
        Keep(eventsDb, incompatibleRecords, uninitializedEvents, record, outcome, event, seen);
      seen := seen + [outcome];
      i := i + 1;
    }
    assert records[..i] == records;
  }
}
