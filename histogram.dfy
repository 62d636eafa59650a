/**
 * The integer part of the report histograms: the distribution of a value series over the buckets
 * of a histogram (`buildDistribution`, which places each value with `bisect.bisect_left`) and the
 * check in `buildFlotHistograms` that no series is longer than the ticks on the x axis. Bucket
 * boundaries and values are integers here; the source's are floats.
 */
module Histograms {
  import opened Results
  import PyText

  /** Python's `bisect.bisect_left(a, x, lo, hi)`, CPython's binary search step by step. */
  function BisectFrom(a: seq<int>, x: int, lo: nat, hi: nat): (r: nat)
    requires lo <= hi <= |a|
    ensures lo <= r <= hi
    decreases hi - lo
  {
    if lo < hi then
      var mid := (lo + hi) / 2;
      if a[mid] < x then BisectFrom(a, x, mid + 1, hi) else BisectFrom(a, x, lo, mid)
    else lo
  }

  /** `bisect.bisect_left(a, x)`. */
  function BisectLeft(a: seq<int>, x: int): (r: nat)
    ensures r <= |a|
  {
    BisectFrom(a, x, 0, |a|)
  }

  /** The boundaries are in non-decreasing order. */
  predicate Sorted(a: seq<int>) {
    forall i, j :: 0 <= i < j < |a| ==> a[i] <= a[j]
  }

  lemma {:induction false} BisectFromFinds(a: seq<int>, x: int, lo: nat, hi: nat)
    requires Sorted(a) && lo <= hi <= |a|
    requires forall k :: 0 <= k < lo ==> a[k] < x
    requires forall k :: hi <= k < |a| ==> x <= a[k]
    ensures forall k :: 0 <= k < BisectFrom(a, x, lo, hi) ==> a[k] < x
    ensures forall k :: BisectFrom(a, x, lo, hi) <= k < |a| ==> x <= a[k]
    decreases hi - lo
  {
    if lo < hi {
      var mid := (lo + hi) / 2;
      if a[mid] < x {
        BisectFromFinds(a, x, mid + 1, hi);
      } else {
        BisectFromFinds(a, x, lo, mid);
      }
    }
  }

  /**
   * On sorted boundaries `bisect_left` finds the first boundary at least the value: every
   * boundary before it is smaller, every one from it on is at least the value.
   */
  lemma BisectLeftFinds(a: seq<int>, x: int)
    requires Sorted(a)
    ensures forall k :: 0 <= k < BisectLeft(a, x) ==> a[k] < x
    ensures forall k :: BisectLeft(a, x) <= k < |a| ==> x <= a[k]
  {
    BisectFromFinds(a, x, 0, |a|);
  }

  /** The bucket a value is counted in: its `bisect_left` index, or the last bucket beyond the end. */
  function Slot(buckets: seq<int>, v: int): (r: nat)
    requires |buckets| > 0
    ensures r < |buckets|
  {
    var index := BisectLeft(buckets, v);
    if index < |buckets| then index else |buckets| - 1
  }

  /** A value is conflated when it lies beyond the last bucket. */
  predicate Beyond(buckets: seq<int>, v: int) {
    BisectLeft(buckets, v) == |buckets|
  }

  /** How many of the values are counted in bucket `k`. */
  function Tally(buckets: seq<int>, values: seq<int>, k: nat): (r: nat)
    requires |buckets| > 0
    ensures r <= |values|
    decreases |values|
  {
    if |values| == 0 then 0
    else Tally(buckets, values[..|values| - 1], k) + (if Slot(buckets, values[|values| - 1]) == k then 1 else 0)
  }

  /** The count of every bucket. */
  function Tallies(buckets: seq<int>, values: seq<int>): (r: seq<nat>)
    requires |buckets| > 0
    ensures |r| == |buckets|
  {
    seq(|buckets|, k requires 0 <= k < |buckets| => Tally(buckets, values, k))
  }

  /** How many of the values lie beyond the last bucket. */
  function Conflated(buckets: seq<int>, values: seq<int>): (r: nat)
    ensures r <= |values|
    decreases |values|
  {
    if |values| == 0 then 0
    else Conflated(buckets, values[..|values| - 1]) + (if Beyond(buckets, values[|values| - 1]) then 1 else 0)
  }

  /**
   * What `buildDistribution` returns: the counts per bucket and the conflated count, or the
   * `IndexError` of `bucketValues[-1]` when a value meets an empty list of buckets.
   */
  function Distribution(buckets: seq<int>, values: seq<int>): (r: Result<(seq<nat>, nat), string>)
    ensures r.Ok? <==> |buckets| > 0 || |values| == 0
    ensures r.Ok? ==> |r.value.0| == |buckets|
  {
    if |buckets| > 0 then Ok((Tallies(buckets, values), Conflated(buckets, values)))
    else if |values| == 0 then Ok(([], 0))
    else Err("list index out of range")
  }

  /** One more value adds one to the count of its bucket, and to the conflated count iff it lies beyond. */
  lemma TalliesAppend(buckets: seq<int>, values: seq<int>, v: int)
    requires |buckets| > 0
    ensures Tallies(buckets, values + [v])
      == Tallies(buckets, values)[Slot(buckets, v) := Tallies(buckets, values)[Slot(buckets, v)] + 1]
    ensures Conflated(buckets, values + [v]) == Conflated(buckets, values) + (if Beyond(buckets, v) then 1 else 0)
  {
    assert (values + [v])[..|values|] == values;
  }

  /** `buildDistribution`. */
  method BuildDistribution(buckets: seq<int>, valueSeries: seq<int>) returns (r: Result<(seq<nat>, nat), string>)
    ensures r == Distribution(buckets, valueSeries)
  {
    var bucketValues := new nat[|buckets|](_ => 0);
    var conflatedCountersCount := 0;
    if |buckets| > 0 {
      assert bucketValues[..] == Tallies(buckets, valueSeries[..0]);
    }
    var i := 0;
    while i < |valueSeries|
      invariant 0 <= i <= |valueSeries| && bucketValues.Length == |buckets|
      invariant |buckets| == 0 ==> i == 0
      invariant |buckets| > 0 ==> bucketValues[..] == Tallies(buckets, valueSeries[..i])
      invariant conflatedCountersCount == Conflated(buckets, valueSeries[..i])
    {
      var value := valueSeries[i];
      if bucketValues.Length == 0 {
        // `bisect_left` of an empty list is 0, past its end: `bucketValues[len(bucketValues) - 1]`
        return Err("list index out of range");
      }
      var beyond := Place(bucketValues, buckets, value);
      if beyond {
        conflatedCountersCount := conflatedCountersCount + 1;
      }
      TalliesAppend(buckets, valueSeries[..i], value);
      assert valueSeries[..i + 1] == valueSeries[..i] + [value];
      i := i + 1;
    }
    assert valueSeries[..i] == valueSeries;
    if |buckets| == 0 {
      assert bucketValues[..] == [] && conflatedCountersCount == 0;
    }
    return Ok((bucketValues[..], conflatedCountersCount));
  }

  /**
   * One turn of `buildDistribution`'s loop over non-empty buckets: the value's bucket, or the last
   * one for a value beyond them all, counts one more; the result says whether it was beyond.
   */
  method Place(bucketValues: array<nat>, buckets: seq<int>, value: int) returns (beyond: bool)
    requires bucketValues.Length == |buckets| > 0
    modifies bucketValues
    ensures beyond == Beyond(buckets, value)
    ensures bucketValues[..] == old(bucketValues[..])[Slot(buckets, value) := old(bucketValues[Slot(buckets, value)]) + 1]
  {
    var index := BisectLeft(buckets, value);
    if index < bucketValues.Length {
      bucketValues[index] := bucketValues[index] + 1;
      return false;
    }
    bucketValues[bucketValues.Length - 1] := bucketValues[bucketValues.Length - 1] + 1;
    return true;
  }

  function Sum(xs: seq<nat>): nat
    decreases |xs|
  {
    if |xs| == 0 then 0 else Sum(xs[..|xs| - 1]) + xs[|xs| - 1]
  }

  lemma {:induction false} SumUpdate(xs: seq<nat>, k: nat, n: nat)
    requires k < |xs|
    ensures Sum(xs[k := n]) == Sum(xs) - xs[k] + n
    decreases |xs|
  {
    var last := |xs| - 1;
    if k < last {
      assert xs[k := n][..last] == xs[..last][k := n];
      SumUpdate(xs[..last], k, n);
    } else {
      assert xs[k := n][..last] == xs[..last];
    }
  }

  /** Every value is counted in exactly one bucket: the counts add up to the number of values. */
  lemma {:induction false} TalliesSum(buckets: seq<int>, values: seq<int>)
    requires |buckets| > 0
    ensures Sum(Tallies(buckets, values)) == |values|
    decreases |values|
  {
    if |values| == 0 {
      assert Tallies(buckets, values) == seq(|buckets|, _ => 0);
      ZeroSum(|buckets|);
    } else {
      var init := values[..|values| - 1];
      var v := values[|values| - 1];
      assert values == init + [v];
      TalliesSum(buckets, init);
      TalliesAppend(buckets, init, v);
      SumUpdate(Tallies(buckets, init), Slot(buckets, v), Tallies(buckets, init)[Slot(buckets, v)] + 1);
    }
  }

  lemma {:induction false} ZeroSum(n: nat)
    ensures Sum(seq(n, _ => 0)) == 0
  {
    if n > 0 {
      assert seq(n, _ => 0)[..n - 1] == seq(n - 1, _ => 0);
      ZeroSum(n - 1);
    }
  }

  /**
   * For sorted buckets, a value goes to the first bucket at least the value, or to the last bucket
   * when it exceeds them all; it is conflated exactly when it exceeds the last bucket.
   */
  lemma SlotMeaning(buckets: seq<int>, v: int)
    requires |buckets| > 0 && Sorted(buckets)
    ensures Beyond(buckets, v) <==> buckets[|buckets| - 1] < v
    ensures v <= buckets[|buckets| - 1] ==>
      v <= buckets[Slot(buckets, v)] && forall k :: 0 <= k < Slot(buckets, v) ==> buckets[k] < v
    ensures buckets[|buckets| - 1] < v ==> Slot(buckets, v) == |buckets| - 1
  {
    BisectLeftFinds(buckets, v);
  }

  /** How many values exceed `bound`. */
  function CountAbove(values: seq<int>, bound: int): nat
    decreases |values|
  {
    if |values| == 0 then 0
    else CountAbove(values[..|values| - 1], bound) + (if bound < values[|values| - 1] then 1 else 0)
  }

  /** For sorted buckets the conflated count is the number of values beyond the last bucket. */
  lemma {:induction false} ConflatedCountsAbove(buckets: seq<int>, values: seq<int>)
    requires |buckets| > 0 && Sorted(buckets)
    ensures Conflated(buckets, values) == CountAbove(values, buckets[|buckets| - 1])
    decreases |values|
  {
    if |values| > 0 {
      ConflatedCountsAbove(buckets, values[..|values| - 1]);
      SlotMeaning(buckets, values[|values| - 1]);
    }
  }

  /** The first series longer than the ticks, as `buildFlotHistograms` meets them. */
  function FirstOverlong<T, V>(ticks: seq<T>, series: seq<(string, seq<V>)>): (r: Option<nat>)
    ensures r.Some? ==> r.value < |series| && |series[r.value].1| > |ticks|
    decreases |series|
  {
    if |series| == 0 then None
    else if |series[0].1| > |ticks| then Some(0)
    else match FirstOverlong(ticks, series[1..])
      case None => None
      case Some(i) => Some(i + 1)
  }

  /** The index found is the first series longer than the ticks; none is found iff all fit. */
  lemma {:induction false} FirstOverlongMeaning<T, V>(ticks: seq<T>, series: seq<(string, seq<V>)>)
    ensures FirstOverlong(ticks, series).None? <==> forall i :: 0 <= i < |series| ==> |series[i].1| <= |ticks|
    ensures FirstOverlong(ticks, series).Some? ==>
      var i := FirstOverlong(ticks, series).value;
      i < |series| && |series[i].1| > |ticks| && forall j :: 0 <= j < i ==> |series[j].1| <= |ticks|
    decreases |series|
  {
    if |series| > 0 && |series[0].1| <= |ticks| {
      FirstOverlongMeaning(ticks, series[1..]);
      assert forall i :: 1 <= i < |series| ==> series[i] == series[1..][i - 1];
    }
  }

  /** The `ValueError` message for the series at `index`. */
  function OverlongMessage(index: nat): string {
    "Series at index " + PyText.ShowInt(index, 10) + " has more elements than there are ticks"
  }

  /**
   * The series-length check of `buildFlotHistograms`: the message of the `ValueError` it raises
   * for the first series longer than the ticks, or `None` when every series fits. The plotted offsets and widths are not modelled.
   */
  method CheckSeriesLengths<T, V>(ticks: seq<T>, series: seq<(string, seq<V>)>) returns (error: Option<string>)
    ensures error.None? <==> FirstOverlong(ticks, series).None?
    ensures error.Some? ==> error.value == OverlongMessage(FirstOverlong(ticks, series).value)
  {
    var index := 0;
    while index < |series|
      invariant 0 <= index <= |series|
      invariant FirstOverlong(ticks, series) == Shifted(FirstOverlong(ticks, series[index..]), index)
    {
      var (name, serie) := series[index];
      if |serie| > |ticks| {
        return Some(OverlongMessage(index));
      }
      assert series[index..][1..] == series[index + 1..];
      index := index + 1;
    }
    return None;
  }

  function Shifted(i: Option<nat>, offset: nat): Option<nat> {
    match i
    case None => None
    case Some(k) => Some(k + offset)
  }
}
