/**
 * Transactions (scripts/lib/xpedite/transaction.py): the counters sampled by the probes a
 * transaction hit, joined and ordered by their time-stamp counter, and the collection of all
 * transactions of a profiling session ordered by the time each began.
 *
 * A transaction is a value here: `addCounter`, `join` and `finalize` return the updated
 * transaction, and the loaders store the result back where the object lived.
 */
module Transactions {
  import opened Results
  import opened Sorting

  /** A probe, with the roles the loaders ask a user probe about. */
  datatype Probe = Probe(
    name: string,
    isAnonymous: bool,
    canBeginTxn: bool,
    canEndTxn: bool,
    canSuspendTxn: bool,
    canResumeTxn: bool)

  /**
   * A transaction id: None, a number (marked in a counter's data, a fragment id or an assigned
   * id), or the link text a resuming probe carries in its data.
   */
  datatype TxnId = NoId | Numbered(n: int) | Linked(link: string)

  /** Python truthiness of an id: None, 0 and the empty string are false. */
  predicate Truthy(id: TxnId) {
    match id
    case NoId => false
    case Numbered(n) => n != 0
    case Linked(link) => link != ""
  }

  /** A sample taken by a probe: its time-stamp counter, its data and the transaction it marks. */
  datatype Counter = Counter(probe: Probe, tsc: int, data: string, txnId: TxnId)

  function Tsc(c: Counter): int {
    c.tsc
  }

  /** What `ProbeIndexFactory.buildIndex` yields for a list of counters. */
  datatype ProbeIndex = ProbeIndex(route: seq<Probe>, probeMap: map<Probe, seq<nat>>)

  /** `Transaction`; `probeMap`, `route`, `begin` and `end` stay None until `finalize`. */
  datatype Transaction = Transaction(
    txnId: TxnId,
    counters: seq<Counter>,
    probeMap: Option<map<Probe, seq<nat>>>,
    route: Option<seq<Probe>>,
    begin: Option<Counter>,
    end: Option<Counter>,
    hasEndProbe: bool)

  /** `Transaction(counter, txnId)`. */
  function NewTransaction(counter: Counter, txnId: TxnId): (t: Transaction)
    ensures t.counters == [counter] && t.txnId == txnId && !t.hasEndProbe
    ensures t.probeMap.None? && t.route.None? && t.begin.None? && t.end.None?
  {
    Transaction(txnId, [counter], None, None, None, None, false)
  }

  /** `addCounter`: appends the counter; an end probe's counter marks the transaction for good. */
  function AddCounter(t: Transaction, counter: Counter, isEndProbe: bool): (r: Transaction)
    ensures r.counters == t.counters + [counter]
    ensures r.hasEndProbe <==> t.hasEndProbe || isEndProbe
    ensures t.hasEndProbe ==> r.hasEndProbe
    ensures r.txnId == t.txnId && r.probeMap == t.probeMap && r.route == t.route
    ensures r.begin == t.begin && r.end == t.end
  {
    t.(counters := t.counters + [counter], hasEndProbe := t.hasEndProbe || isEndProbe)
  }

  /** `for c in cs: t.addCounter(c, False)`: the counters follow in order and nothing else changes. */
  function AddCounters(t: Transaction, cs: seq<Counter>): (r: Transaction)
    ensures r == t.(counters := t.counters + cs)
    decreases |cs|
  {
    if |cs| == 0 then
      assert t.counters + cs == t.counters;
      t
    else
      assert t.counters + [cs[0]] + cs[1..] == t.counters + cs;
      AddCounters(AddCounter(t, cs[0], false), cs[1..])
  }

  /**
   * `join`: the counters of both transactions, ordered by tsc; the other transaction's id and
   * flags are dropped.
   */
  function Join(t: Transaction, other: Transaction): (r: Transaction)
    ensures SortedBy(r.counters, Tsc)
    ensures multiset(r.counters) == multiset(t.counters) + multiset(other.counters)
    ensures |r.counters| == |t.counters| + |other.counters|
    ensures r == t.(counters := r.counters)
  {
    SortByMeaning(t.counters + other.counters, Tsc);
    t.(counters := SortBy(t.counters + other.counters, Tsc))
  }

  /** Python's `min(cs, key=tsc)`: the first counter with the smallest tsc. */
  function MinIndex(cs: seq<Counter>): (i: nat)
    requires |cs| > 0
    ensures i < |cs|
    ensures forall k :: 0 <= k < |cs| ==> cs[i].tsc <= cs[k].tsc
    ensures forall k :: 0 <= k < i ==> cs[i].tsc < cs[k].tsc
    decreases |cs|
  {
    if |cs| == 1 then 0
    else
      var j := MinIndex(cs[..|cs| - 1]);
      if cs[|cs| - 1].tsc < cs[j].tsc then |cs| - 1 else j
  }

  /** Python's `max(cs, key=tsc)`: the first counter with the largest tsc. */
  function MaxIndex(cs: seq<Counter>): (i: nat)
    requires |cs| > 0
    ensures i < |cs|
    ensures forall k :: 0 <= k < |cs| ==> cs[k].tsc <= cs[i].tsc
    ensures forall k :: 0 <= k < i ==> cs[k].tsc < cs[i].tsc
    decreases |cs|
  {
    if |cs| == 1 then 0
    else
      var j := MaxIndex(cs[..|cs| - 1]);
      if cs[|cs| - 1].tsc > cs[j].tsc then |cs| - 1 else j
  }

  /**
   * `finalize`: `begin` is the earliest counter and `end` the latest, and the route and probe map
   * come from the probe index of the counters. A transaction always holds a counter.
   */
  function Finalize(t: Transaction, buildIndex: seq<Counter> -> ProbeIndex): (r: Transaction)
    requires |t.counters| > 0
    ensures r.begin.Some? && r.begin.value in t.counters
    ensures r.end.Some? && r.end.value in t.counters
    ensures forall k :: 0 <= k < |t.counters| ==> r.begin.value.tsc <= t.counters[k].tsc <= r.end.value.tsc
    ensures r.probeMap == Some(buildIndex(t.counters).probeMap) && r.route == Some(buildIndex(t.counters).route)
    ensures r.txnId == t.txnId && r.counters == t.counters && r.hasEndProbe == t.hasEndProbe
  {
    var index := buildIndex(t.counters);
    t.(begin := Some(t.counters[MinIndex(t.counters)]), end := Some(t.counters[MaxIndex(t.counters)]),
       route := Some(index.route), probeMap := Some(index.probeMap))
  }

  /** `getElapsedTsc`. */
  function GetElapsedTsc(t: Transaction): (r: int)
    requires t.begin.Some? && t.end.Some?
    ensures r >= 0 <==> t.begin.value.tsc <= t.end.value.tsc
    ensures forall c :: c in t.counters && t.begin.value.tsc <= c.tsc <= t.end.value.tsc ==>
      0 <= c.tsc - t.begin.value.tsc <= r
  {
    t.end.value.tsc - t.begin.value.tsc
  }

  /**
   * After `finalize` the elapsed tsc is never negative: it is the spread between the earliest and
   * the latest counter, and no counter lies outside it.
   */
  lemma ElapsedTscIsSpread(t: Transaction, buildIndex: seq<Counter> -> ProbeIndex)
    requires |t.counters| > 0
    ensures GetElapsedTsc(Finalize(t, buildIndex)) >= 0
    ensures forall k :: 0 <= k < |t.counters| ==>
      0 <= t.counters[k].tsc - Finalize(t, buildIndex).begin.value.tsc <= GetElapsedTsc(Finalize(t, buildIndex))
  {
  }

  /**
   * `hasProbes`: true iff every given probe is in the probe map. The map is only consulted when
   * there is a probe to look up; with none, the answer is true even before `finalize`.
   */
  function HasProbes(t: Transaction, probes: seq<Probe>): (r: bool)
    requires |probes| > 0 ==> t.probeMap.Some?
    ensures r <==> forall i :: 0 <= i < |probes| ==> probes[i] in t.probeMap.value
    decreases |probes|
  {
    if |probes| == 0 then true
    else if probes[0] !in t.probeMap.value then false
    else
      assert forall i :: 1 <= i < |probes| ==> probes[i] == probes[1..][i - 1];
      HasProbes(t, probes[1..])
  }

  /** `TransactionSubCollection`. */
  datatype SubCollection<C, P, M, E> = SubCollection(
    name: string,
    cpuInfo: C,
    transactions: seq<Transaction>,
    probes: P,
    topdownMetrics: M,
    events: E)

  /** `cloneMetaData`: an empty sub collection with the same meta data. */
  function CloneMetaData<C, P, M, E>(s: SubCollection<C, P, M, E>): (r: SubCollection<C, P, M, E>)
    ensures r.transactions == []
    ensures r.name == s.name && r.cpuInfo == s.cpuInfo && r.probes == s.probes
    ensures r.topdownMetrics == s.topdownMetrics && r.events == s.events
  {
    SubCollection(s.name, s.cpuInfo, [], s.probes, s.topdownMetrics, s.events)
  }

  /** A clone depends only on the meta data, and cloning a clone changes nothing. */
  lemma CloneKeepsOnlyMetaData<C, P, M, E>(s: SubCollection<C, P, M, E>, ts: seq<Transaction>)
    ensures CloneMetaData(s.(transactions := ts)) == CloneMetaData(s)
    ensures CloneMetaData(CloneMetaData(s)) == CloneMetaData(s)
    ensures s.(transactions := []) == CloneMetaData(s)
  {
  }

  // ---------------------------------------------------------------------------------------------
  // The OrderedDict of transactions keyed by txnId, as its values in insertion order (the key of
  // each entry is its transaction's txnId).

  function IdOf(t: Transaction): TxnId {
    t.txnId
  }

  /** Dictionary keys are unique. */
  predicate UniqueIds(d: seq<Transaction>) {
    DistinctBy(d, IdOf)
  }

  /** The position of the entry with key `id`, if any (the first one). */
  function Find(d: seq<Transaction>, id: TxnId): (r: Option<nat>)
    ensures r.Some? ==> r.value < |d| && d[r.value].txnId == id
    ensures r.Some? ==> forall k :: 0 <= k < r.value ==> d[k].txnId != id
    ensures r.None? <==> forall k :: 0 <= k < |d| ==> d[k].txnId != id
    decreases |d|
  {
    if |d| == 0 then None
    else if d[0].txnId == id then Some(0)
    else
      match Find(d[1..], id)
      case None => None
      case Some(k) => Some(k + 1)
  }

  /** `d[t.txnId] = t`: an existing key keeps its place, a new one goes last. */
  function Put(d: seq<Transaction>, t: Transaction): (r: seq<Transaction>)
    ensures Find(d, t.txnId).None? ==> r == d + [t]
    ensures Find(d, t.txnId).Some? ==> r == d[Find(d, t.txnId).value := t]
  {
    match Find(d, t.txnId)
    case None => d + [t]
    case Some(k) => d[k := t]
  }

  /** `OrderedDict(pairs)`. */
  function OrderedDictOf(pairs: seq<Transaction>): seq<Transaction>
    decreases |pairs|
  {
    if |pairs| == 0 then [] else Put(OrderedDictOf(pairs[..|pairs| - 1]), pairs[|pairs| - 1])
  }

  /** A prefix of a dictionary's entries has unique keys too. */
  lemma UniqueIdsPrefix(d: seq<Transaction>, n: nat)
    requires UniqueIds(d) && n <= |d|
    ensures UniqueIds(d[..n])
  {
    forall i, j | 0 <= i < j < n ensures IdOf(d[..n][i]) != IdOf(d[..n][j]) {
      assert d[..n][i] == d[i] && d[..n][j] == d[j];
    }
  }

  /** With unique keys, the last entry's key is not among the earlier ones. */
  lemma LastKeyNew(d: seq<Transaction>)
    requires UniqueIds(d) && |d| > 0
    ensures Find(d[..|d| - 1], d[|d| - 1].txnId).None?
  {
    var n := |d| - 1;
    forall k | 0 <= k < n ensures d[..n][k].txnId != d[n].txnId {
      assert d[..n][k] == d[k];
      assert IdOf(d[k]) != IdOf(d[n]);
    }
  }

  /** With unique keys, building the dictionary keeps every entry in order. */
  lemma {:induction false} OrderedDictOfUnique(pairs: seq<Transaction>)
    requires UniqueIds(pairs)
    ensures OrderedDictOf(pairs) == pairs
    decreases |pairs|
  {
    if |pairs| > 0 {
      var n := |pairs| - 1;
      UniqueIdsPrefix(pairs, n);
      OrderedDictOfUnique(pairs[..n]);
      LastKeyNew(pairs);
      assert pairs[..n] + [pairs[n]] == pairs;
    }
  }

  /** The begin time of a finalized transaction, the key `TransactionCollection` orders by. */
  function BeginTsc(t: Transaction): int {
    if t.begin.Some? then t.begin.value.tsc else 0
  }

  /** `for txn in transactionsMap.values(): txn.finalize()`. */
  function FinalizeAll(ts: seq<Transaction>, buildIndex: seq<Counter> -> ProbeIndex): (r: seq<Transaction>)
    requires forall k :: 0 <= k < |ts| ==> |ts[k].counters| > 0
    ensures |r| == |ts|
    ensures forall k :: 0 <= k < |ts| ==> r[k] == Finalize(ts[k], buildIndex)
  {
    seq(|ts|, k requires 0 <= k < |ts| => Finalize(ts[k], buildIndex))
  }

  /** A `TransactionCollection`; its transactions are finalized and ordered by begin time. */
  class TransactionCollection<C, P, M, E, D> {
    const name: string
    const cpuInfo: C
    var transactionsMap: seq<Transaction>
    const probes: P
    const topdownMetrics: M
    const events: E
    const dataSources: D

    /**
     * The constructor finalizes every transaction and reorders the dictionary by begin time. The
     * size check that would raise never fails: the keys are unique, so no entry is lost.
     */
    constructor (name: string, cpuInfo: C, transactionsMap: seq<Transaction>, probes: P, topdownMetrics: M,
                 events: E, dataSources: D, buildIndex: seq<Counter> -> ProbeIndex)
      requires UniqueIds(transactionsMap)
      requires forall k :: 0 <= k < |transactionsMap| ==> |transactionsMap[k].counters| > 0
      ensures this.transactionsMap == SortBy(FinalizeAll(transactionsMap, buildIndex), BeginTsc)
      ensures |this.transactionsMap| == |transactionsMap|
      ensures SortedBy(this.transactionsMap, BeginTsc) && UniqueIds(this.transactionsMap)
      ensures multiset(this.transactionsMap) == multiset(FinalizeAll(transactionsMap, buildIndex))
      ensures this.name == name && this.cpuInfo == cpuInfo && this.probes == probes
      ensures this.topdownMetrics == topdownMetrics && this.events == events && this.dataSources == dataSources
    {
      var finalized := FinalizeAll(transactionsMap, buildIndex);
      assert UniqueIds(finalized) by {
        forall i, j | 0 <= i < j < |finalized| ensures IdOf(finalized[i]) != IdOf(finalized[j]) {
          assert IdOf(transactionsMap[i]) != IdOf(transactionsMap[j]);
        }
      }
      var sorted := SortBy(finalized, BeginTsc);
      SortByMeaning(finalized, BeginTsc);
      SortByDistinct(finalized, BeginTsc, IdOf);
      OrderedDictOfUnique(sorted);
      this.name := name;
      this.cpuInfo := cpuInfo;
      this.transactionsMap := OrderedDictOf(sorted);
      this.probes := probes;
      this.topdownMetrics := topdownMetrics;
      this.events := events;
      this.dataSources := dataSources;
    }
  }
}
