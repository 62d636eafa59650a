/**
 * Two pieces of the analytics package: the bundling of elapsed-time lists per category across the
 * current run and its benchmarks (`Analytics.buildElapsedTimeBundles`), and the filtering of
 * transactions out of every collection of a repository (`Analytics.filterTransactions`). The
 * per-collection category maps, which `TransactionAggregator.groupElapsedTime` computes, are
 * given as inputs.
 */
module Analytics {
  import opened Results
  import opened Transactions

  // ---------------------------------------------------------------------------------------------
  // buildElapsedTimeBundles

  /** The message of the exception raised when the current run has no transaction. */
  const NO_COUNTERS := "report generation failed for current run. counters not available"

  /**
   * The bundles after one collection's map: a known category gets the collection's list appended;
   * an unknown one opens a bundle only for the first collection (the current run).
   */
  function Merge<K, V>(bundles: map<K, seq<V>>, elapsedTscMap: map<K, V>, first: bool): (r: map<K, seq<V>>)
    ensures r.Keys == bundles.Keys + (if first then elapsedTscMap.Keys else {})
    ensures forall k :: k in bundles ==> bundles[k] <= r[k]
  {
    map k | k in bundles.Keys + (if first then elapsedTscMap.Keys else {}) ::
      if k in bundles then (if k in elapsedTscMap then bundles[k] + [elapsedTscMap[k]] else bundles[k])
      else [elapsedTscMap[k]]
  }

  /** The bundles after the collections in order. */
  function Fold<K, V>(maps: seq<map<K, V>>): (r: map<K, seq<V>>)
    ensures |maps| > 0 ==> r.Keys == maps[0].Keys
    decreases |maps|
  {
    if |maps| == 0 then map[] else Merge(Fold(maps[..|maps| - 1]), maps[|maps| - 1], |maps| == 1)
  }

  /** What `buildElapsedTimeBundles` returns, or raises when the current run's map is empty. */
  function ElapsedTimeBundles<K, V>(maps: seq<map<K, V>>): (r: Result<map<K, seq<V>>, string>)
    ensures r.Err? <==> |maps| > 0 && |maps[0]| == 0
    ensures r.Ok? && |maps| > 0 ==> r.value.Keys == maps[0].Keys
  {
    if |maps| > 0 && |maps[0]| == 0 then Err(NO_COUNTERS) else Ok(Fold(maps))
  }

  /** The reference bundle of a category: its list from each collection that has it, in collection order. */
  function Column<K, V>(maps: seq<map<K, V>>, k: K): seq<V>
    decreases |maps|
  {
    if |maps| == 0 then []
    else Column(maps[..|maps| - 1], k) + (if k in maps[|maps| - 1] then [maps[|maps| - 1][k]] else [])
  }

  /** An empty benchmark map changes no bundle. */
  lemma MergeNothing<K, V>(bundles: map<K, seq<V>>, elapsedTscMap: map<K, V>)
    requires |elapsedTscMap| == 0
    ensures Merge(bundles, elapsedTscMap, false) == bundles
  {
    assert elapsedTscMap == map[];
  }

  /** The bundles after one more collection. */
  lemma FoldStep<K, V>(maps: seq<map<K, V>>, i: nat)
    requires i < |maps|
    ensures Fold(maps[..i + 1]) == Merge(Fold(maps[..i]), maps[i], i == 0)
  {
    assert maps[..i + 1][..i] == maps[..i];
  }

  /** The bundle of category `k` once the categories in `done` of the map have been merged in. */
  function MergedAt<K, V>(bundles: map<K, seq<V>>, elapsedTscMap: map<K, V>, done: set<K>, k: K): seq<V>
    requires k in bundles || (k in elapsedTscMap && k in done)
  {
    if k in bundles then (if k in elapsedTscMap && k in done then bundles[k] + [elapsedTscMap[k]] else bundles[k])
    else [elapsedTscMap[k]]
  }

  /** The bundles once the categories in `done` of the map have been merged in. */
  ghost predicate MergedSoFar<K, V>(r: map<K, seq<V>>, bundles: map<K, seq<V>>, elapsedTscMap: map<K, V>, first: bool,
                                    done: set<K>)
  {
    && (forall k :: k in r ==> k in bundles || (first && k in done && k in elapsedTscMap))
    && (forall k :: k in bundles ==> k in r)
    && (first ==> forall k :: k in done && k in elapsedTscMap ==> k in r)
    && forall k :: k in r ==> r[k] == MergedAt(bundles, elapsedTscMap, done, k)
  }

  /** Merging in one more category of the map, as the loop body does. */
  lemma AbsorbStep<K, V>(bundles: map<K, seq<V>>, elapsedTscMap: map<K, V>, first: bool, done: set<K>, c: K,
                         r0: map<K, seq<V>>, r1: map<K, seq<V>>)
    requires c in elapsedTscMap && c !in done && MergedSoFar(r0, bundles, elapsedTscMap, first, done)
    requires r1 == if c in r0 then r0[c := r0[c] + [elapsedTscMap[c]]] else if first then r0[c := [elapsedTscMap[c]]] else r0
    ensures MergedSoFar(r1, bundles, elapsedTscMap, first, done + {c})
  {
    var done1 := done + {c};
    forall k | k in r1 ensures r1[k] == MergedAt(bundles, elapsedTscMap, done1, k) {
      if k != c {
        assert k in r0 && r1[k] == r0[k];
      }
    }
  }

  /** Once every category is merged in, the bundles are `Merge`'s. */
  lemma AbsorbAll<K, V>(bundles: map<K, seq<V>>, elapsedTscMap: map<K, V>, first: bool, r: map<K, seq<V>>)
    requires MergedSoFar(r, bundles, elapsedTscMap, first, elapsedTscMap.Keys)
    ensures r == Merge(bundles, elapsedTscMap, first)
  {
    var m := Merge(bundles, elapsedTscMap, first);
    assert r.Keys == m.Keys;
    forall k | k in r ensures r[k] == m[k] {
      assert r[k] == MergedAt(bundles, elapsedTscMap, elapsedTscMap.Keys, k);
    }
  }

  /** The inner loop of `buildElapsedTimeBundles` over one collection's categories. */
  method MergeCollection<K, V>(bundles: map<K, seq<V>>, elapsedTscMap: map<K, V>, first: bool)
    returns (r: map<K, seq<V>>)
    ensures r == Merge(bundles, elapsedTscMap, first)
  {
    r := bundles;
    var todo := elapsedTscMap.Keys;
    ghost var done: set<K> := {};
    while todo != {}
      invariant todo <= elapsedTscMap.Keys && done == elapsedTscMap.Keys - todo
      invariant MergedSoFar(r, bundles, elapsedTscMap, first, done)
      decreases |todo|
    {
      var category :| category in todo;
      ghost var r0 := r;
      if category in r {
        r := r[category := r[category] + [elapsedTscMap[category]]];
      } else if first {
        r := r[category := [elapsedTscMap[category]]];
      }
      AbsorbStep(bundles, elapsedTscMap, first, done, category, r0, r);
      todo := todo - {category};
      done := done + {category};
    }
    assert done == elapsedTscMap.Keys;
    AbsorbAll(bundles, elapsedTscMap, first, r);
  }

  /** `Analytics.buildElapsedTimeBundles`, given each collection's elapsed-time map by category. */
  method BuildElapsedTimeBundles<K, V>(elapsedTscMaps: seq<map<K, V>>) returns (r: Result<map<K, seq<V>>, string>)
    ensures r == ElapsedTimeBundles(elapsedTscMaps)
  {
    var elapsedTscBundles: map<K, seq<V>> := map[];
    var i := 0;
    while i < |elapsedTscMaps|
      invariant 0 <= i <= |elapsedTscMaps|
      invariant i > 0 ==> |elapsedTscMaps[0]| > 0
      invariant elapsedTscBundles == Fold(elapsedTscMaps[..i])
    {
      var elapsedTscMap := elapsedTscMaps[i];
      FoldStep(elapsedTscMaps, i);
      if |elapsedTscMap| > 0 {
        elapsedTscBundles := MergeCollection(elapsedTscBundles, elapsedTscMap, i == 0);
      } else {
        if i == 0 {
          return Err(NO_COUNTERS);
        }
        MergeNothing(elapsedTscBundles, elapsedTscMap);
      }
      i := i + 1;
    }
    assert elapsedTscMaps[..i] == elapsedTscMaps;
    return Ok(elapsedTscBundles);
  }

  /**
   * The bundles hold exactly the current run's categories (a category seen only in a benchmark is
   * dropped), and each bundle is the category's list from every collection that has it, in
   * collection order.
   */
  lemma {:induction false} FoldAt<K, V>(maps: seq<map<K, V>>, k: K)
    requires |maps| > 0
    ensures k in Fold(maps) <==> k in maps[0]
    ensures k in maps[0] ==> Fold(maps)[k] == Column(maps, k)
    decreases |maps|
  {
    var init := maps[..|maps| - 1];
    if |maps| == 1 {
      assert init == [];
    } else {
      assert init[0] == maps[0];
      FoldAt(init, k);
    }
  }

  /**
   * A category's bundle starts with the current run's list and holds at most one list per
   * collection.
   */
  lemma {:induction false} ColumnShape<K, V>(maps: seq<map<K, V>>, k: K)
    ensures |Column(maps, k)| <= |maps|
    ensures |maps| > 0 && k in maps[0] ==> |Column(maps, k)| > 0 && Column(maps, k)[0] == maps[0][k]
    decreases |maps|
  {
    if |maps| > 0 {
      var init := maps[..|maps| - 1];
      ColumnShape(init, k);
      if |maps| > 1 {
        assert init[0] == maps[0];
      }
    }
  }

  /**
   * `buildElapsedTimeBundles` raises iff the current run's map is empty. Otherwise a category has
   * a bundle iff the current run has it, and its bundle is its reference column: it starts with
   * the current run's list and holds at most one list per collection.
   */
  lemma ElapsedTimeBundlesMeaning<K, V>(maps: seq<map<K, V>>, k: K)
    ensures ElapsedTimeBundles(maps).Err? <==> |maps| > 0 && |maps[0]| == 0
    ensures |maps| > 0 && ElapsedTimeBundles(maps).Ok? ==>
      var bundles := ElapsedTimeBundles(maps).value;
      (k in bundles <==> k in maps[0])
      && (k in bundles ==>
        bundles[k] == Column(maps, k) && 0 < |bundles[k]| <= |maps| && bundles[k][0] == maps[0][k])
  {
    if |maps| > 0 {
      FoldAt(maps, k);
      ColumnShape(maps, k);
    }
  }

  // ---------------------------------------------------------------------------------------------
  // filterTransactions

  /** The transactions of a collection named `name` that pass `txnFilter`, in dictionary order. */
  function Kept(d: seq<Transaction>, name: string, txnFilter: (string, Transaction) -> bool): (r: seq<Transaction>)
    ensures |r| <= |d|
    decreases |d|
  {
    if |d| == 0 then []
    else Kept(d[..|d| - 1], name, txnFilter) + (if txnFilter(name, d[|d| - 1]) then [d[|d| - 1]] else [])
  }

  /** How many transactions fail the filter: those of the collection that are not kept. */
  function Rejected(d: seq<Transaction>, name: string, txnFilter: (string, Transaction) -> bool): (r: nat)
    ensures r == |d| - |Kept(d, name, txnFilter)|
    decreases |d|
  {
    if |d| == 0 then 0
    else Rejected(d[..|d| - 1], name, txnFilter) + (if txnFilter(name, d[|d| - 1]) then 0 else 1)
  }

  /**
   * A transaction survives iff it was in the collection and passes the filter, and the removed
   * count is the number that fail it.
   */
  lemma {:induction false} KeptMeaning(d: seq<Transaction>, name: string, txnFilter: (string, Transaction) -> bool,
                                       t: Transaction)
    ensures t in Kept(d, name, txnFilter) <==> t in d && txnFilter(name, t)
    ensures |d| - |Kept(d, name, txnFilter)| == Rejected(d, name, txnFilter)
    decreases |d|
  {
    if |d| > 0 {
      KeptMeaning(d[..|d| - 1], name, txnFilter, t);
      assert d == d[..|d| - 1] + [d[|d| - 1]];
    }
  }

  /** Survivors keep their ids and their order: the dictionary's keys stay unique. */
  lemma {:induction false} KeptUnique(d: seq<Transaction>, name: string, txnFilter: (string, Transaction) -> bool)
    requires UniqueIds(d)
    ensures UniqueIds(Kept(d, name, txnFilter))
    decreases |d|
  {
    if |d| > 0 {
      var init := d[..|d| - 1];
      var last := d[|d| - 1];
      assert UniqueIds(init) by {
        forall i, j | 0 <= i < j < |init| ensures IdOf(init[i]) != IdOf(init[j]) {
          assert init[i] == d[i] && init[j] == d[j];
        }
      }
      KeptUnique(init, name, txnFilter);
      var rest := Kept(init, name, txnFilter);
      if txnFilter(name, last) {
        forall k | 0 <= k < |rest| ensures IdOf(rest[k]) != IdOf(last) {
          KeptMeaning(init, name, txnFilter, rest[k]);
          assert rest[k] in rest;
          var j :| 0 <= j < |init| && init[j] == rest[k];
          assert init[j] == d[j];
        }
        var r := rest + [last];
        forall i, j | 0 <= i < j < |r| ensures IdOf(r[i]) != IdOf(r[j]) {
          if j < |rest| {
            assert r[i] == rest[i] && r[j] == rest[j];
          } else {
            assert r[i] == rest[i];
          }
        }
      }
    }
  }

  /** Filtering twice removes nothing more. */
  lemma {:induction false} KeptIdempotent(d: seq<Transaction>, name: string, txnFilter: (string, Transaction) -> bool)
    ensures Kept(Kept(d, name, txnFilter), name, txnFilter) == Kept(d, name, txnFilter)
    decreases |d|
  {
    if |d| > 0 {
      var init := d[..|d| - 1];
      var last := d[|d| - 1];
      var rest := Kept(init, name, txnFilter);
      KeptIdempotent(init, name, txnFilter);
      if txnFilter(name, last) {
        var r := rest + [last];
        assert Kept(d, name, txnFilter) == r;
        assert r[..|r| - 1] == rest && r[|r| - 1] == last;
        assert Kept(r, name, txnFilter) == Kept(rest, name, txnFilter) + [last];
      } else {
        assert Kept(d, name, txnFilter) == rest;
      }
    }
  }

  /** The inner loop of `filterTransactions` over one collection. */
  method FilterCollection<C, P, M, E, D>(txnCollection: TransactionCollection<C, P, M, E, D>,
                                         txnFilter: (string, Transaction) -> bool)
    returns (filteredCount: nat)
    modifies txnCollection
    ensures txnCollection.transactionsMap == Kept(old(txnCollection.transactionsMap), txnCollection.name, txnFilter)
    ensures filteredCount == Rejected(old(txnCollection.transactionsMap), txnCollection.name, txnFilter)
  {
    var transactionsMap := txnCollection.transactionsMap;
    var kept := [];
    filteredCount := 0;
    var j := 0;
    while j < |transactionsMap|
      invariant 0 <= j <= |transactionsMap|
      invariant kept == Kept(transactionsMap[..j], txnCollection.name, txnFilter)
      invariant filteredCount == Rejected(transactionsMap[..j], txnCollection.name, txnFilter)
    {
      var txn := transactionsMap[j];
      assert transactionsMap[..j + 1][..j] == transactionsMap[..j];
      if !txnFilter(txnCollection.name, txn) {
        filteredCount := filteredCount + 1;
      } else {
        kept := kept + [txn];
      }
      j := j + 1;
    }
    assert transactionsMap[..j] == transactionsMap;
    txnCollection.transactionsMap := kept;
  }

  /** The collections' dictionaries. */
  function MapsOf<C, P, M, E, D>(repo: seq<TransactionCollection<C, P, M, E, D>>): (r: seq<seq<Transaction>>)
    reads set k | 0 <= k < |repo| :: repo[k]
    ensures |r| == |repo| && forall k :: 0 <= k < |repo| ==> r[k] == repo[k].transactionsMap
  {
    seq(|repo|, k requires 0 <= k < |repo| reads repo => repo[k].transactionsMap)
  }

  /** The collections' names. */
  function NamesOf<C, P, M, E, D>(repo: seq<TransactionCollection<C, P, M, E, D>>): (r: seq<string>)
    ensures |r| == |repo| && forall k :: 0 <= k < |repo| ==> r[k] == repo[k].name
  {
    seq(|repo|, k requires 0 <= k < |repo| => repo[k].name)
  }

  /** The number of transactions the filter rejects across the collections. */
  function TotalRejected(maps: seq<seq<Transaction>>, names: seq<string>, txnFilter: (string, Transaction) -> bool): (r: nat)
    requires |maps| == |names|
    ensures (forall k :: 0 <= k < |maps| ==> |maps[k]| == 0) ==> r == 0
    decreases |maps|
  {
    if |maps| == 0 then 0
    else (TotalRejected(maps[..|maps| - 1], names[..|names| - 1], txnFilter)
          + Rejected(maps[|maps| - 1], names[|names| - 1], txnFilter))
  }

  /** The total after one more collection. */
  lemma TotalRejectedStep(maps: seq<seq<Transaction>>, names: seq<string>, i: nat,
                          txnFilter: (string, Transaction) -> bool)
    requires |maps| == |names| && i < |maps|
    ensures TotalRejected(maps[..i + 1], names[..i + 1], txnFilter)
      == TotalRejected(maps[..i], names[..i], txnFilter) + Rejected(maps[i], names[i], txnFilter)
  {
    assert maps[..i + 1][..i] == maps[..i] && names[..i + 1][..i] == names[..i];
  }

  /**
   * `Analytics.filterTransactions`: every collection keeps exactly its transactions that pass the
   * filter, and the total returned is the number removed.
   */
  method FilterTransactions<C, P, M, E, D>(repo: seq<TransactionCollection<C, P, M, E, D>>,
                                           txnFilter: (string, Transaction) -> bool)
    returns (totalFilteredCount: nat)
    requires forall i, j :: 0 <= i < j < |repo| ==> repo[i] != repo[j]
    modifies set k | 0 <= k < |repo| :: repo[k]
    ensures forall k :: 0 <= k < |repo| ==>
      repo[k].transactionsMap == Kept(old(repo[k].transactionsMap), repo[k].name, txnFilter)
    ensures totalFilteredCount == TotalRejected(old(MapsOf(repo)), NamesOf(repo), txnFilter)
  {
    ghost var before := MapsOf(repo);
    var names := NamesOf(repo);
    totalFilteredCount := 0;
    var i := 0;
    while i < |repo|
      invariant 0 <= i <= |repo|
      invariant forall k :: 0 <= k < i ==> repo[k].transactionsMap == Kept(before[k], repo[k].name, txnFilter)
      invariant forall k :: i <= k < |repo| ==> repo[k].transactionsMap == before[k]
      invariant totalFilteredCount == TotalRejected(before[..i], names[..i], txnFilter)
    {
      var filteredCount := FilterCollection(repo[i], txnFilter);
      TotalRejectedStep(before, names, i, txnFilter);
      totalFilteredCount := totalFilteredCount + filteredCount;
      i := i + 1;
    }
    assert before[..i] == before && names[..i] == names;
  }
}
