/**
 * Transaction loaders (scripts/lib/xpedite/transactionLoader.py): two state machines that group
 * the counters sampled by one thread into transactions. The chaotic loader groups by the
 * transaction id a probe writes at the end of its data; the bounded loader groups by begin, end,
 * suspend and resume probes.
 *
 * Each loader is a class whose fields are the loader's attributes; the attributes shared by both
 * loaders live in an `AbstractTransactionLoader` object each loader owns. What one step does is
 * a function on a value of the loader's state, and the properties are lemmas about that function.
 */
module TransactionLoaders {
  import opened Results
  import PyText
  import opened Transactions

  // ---------------------------------------------------------------------------------------------
  // State shared by both loaders

  /** The attributes `reset` initializes. */
  datatype LoaderState = LoaderState(
    processedCounterCount: nat,
    transactions: seq<Transaction>,
    compromisedTransactions: seq<Transaction>,
    nonTransactionCounters: seq<Counter>,
    ephemeralCounters: seq<Counter>,
    currentTransaction: Option<Transaction>)

  /** The state after `reset`. */
  const INITIAL: LoaderState := LoaderState(0, [], [], [], [], None)

  /** The number of counters held by a list of transactions. */
  function CountersIn(ts: seq<Transaction>): nat
    decreases |ts|
  {
    if |ts| == 0 then 0 else CountersIn(ts[..|ts| - 1]) + |ts[|ts| - 1].counters|
  }

  lemma CountersInAppend(ts: seq<Transaction>, t: Transaction)
    ensures CountersIn(ts + [t]) == CountersIn(ts) + |t.counters|
  {
    assert (ts + [t])[..|ts|] == ts;
  }

  /** Replacing one transaction changes the count by the difference of their sizes. */
  lemma {:induction false} CountersInUpdate(ts: seq<Transaction>, k: nat, t: Transaction)
    requires k < |ts|
    ensures CountersIn(ts[k := t]) == CountersIn(ts) - |ts[k].counters| + |t.counters|
    decreases |ts|
  {
    var n := |ts| - 1;
    if k < n {
      CountersInUpdate(ts[..n], k, t);
      assert ts[k := t][..n] == ts[..n][k := t];
    } else {
      assert ts[k := t][..n] == ts[..n];
    }
  }

  /** Every counter the loader holds, wherever it is (current transaction included). */
  function Held(s: LoaderState): nat {
    CountersIn(s.transactions) + CountersIn(s.compromisedTransactions) + |s.nonTransactionCounters|
      + |s.ephemeralCounters| + (if s.currentTransaction.Some? then |s.currentTransaction.value.counters| else 0)
  }

  /** A counter added to the open transaction is one more counter held. */
  lemma HeldAdd(b: LoaderState, current: Transaction, c: Counter, isEndProbe: bool)
    requires b.currentTransaction == Some(current)
    ensures Held(b.(currentTransaction := Some(AddCounter(current, c, isEndProbe)))) == Held(b) + 1
  {
  }

  /** Appending the open transaction and starting a new one with a counter holds one more. */
  lemma HeldAppendStart(b: LoaderState, current: Transaction, t: Transaction)
    requires b.currentTransaction == Some(current) && |t.counters| == 1
    ensures Held(b.(transactions := AppendTo(b.transactions, current), currentTransaction := Some(t))) == Held(b) + 1
  {
    AppendToCounters(b.transactions, current);
  }

  /** Compromising the open transaction and starting a new one with a counter holds one more. */
  lemma HeldCompromiseStart(b: LoaderState, current: Transaction, t: Transaction)
    requires b.currentTransaction == Some(current) && |t.counters| == 1
    ensures Held(b.(compromisedTransactions := b.compromisedTransactions + [current], currentTransaction := Some(t)))
      == Held(b) + 1
  {
    CountersInAppend(b.compromisedTransactions, current);
  }

  /** Every transaction holds a counter, so Python's truthiness of a transaction is its presence. */
  predicate NonEmpty(ts: seq<Transaction>) {
    forall k :: 0 <= k < |ts| ==> |ts[k].counters| > 0
  }

  /** The invariant of both loaders: unique keys, no empty transaction, every counter accounted. */
  predicate Intact(s: LoaderState) {
    UniqueIds(s.transactions) && NonEmpty(s.transactions) && NonEmpty(s.compromisedTransactions)
    && (s.currentTransaction.Some? ==> |s.currentTransaction.value.counters| > 0)
  }

  /** A new open transaction that holds a counter keeps the invariant. */
  lemma IntactReplace(b: LoaderState, t: Transaction)
    requires Intact(b) && |t.counters| > 0
    ensures Intact(b.(currentTransaction := Some(t)))
  {
  }

  /** Compromising the open transaction keeps the invariant. */
  lemma IntactCompromise(b: LoaderState, current: Transaction, next: Option<Transaction>)
    requires Intact(b) && b.currentTransaction == Some(current)
    requires next.Some? ==> |next.value.counters| > 0
    ensures Intact(b.(compromisedTransactions := b.compromisedTransactions + [current], currentTransaction := next))
  {
  }

  /**
   * `AbstractTransactionLoader.appendTransaction`: joins into the entry with the same txnId, or
   * inserts a new entry last.
   */
  function AppendTo(d: seq<Transaction>, t: Transaction): (r: seq<Transaction>)
    ensures |d| <= |r| <= |d| + 1
    ensures |r| == |d| + 1 <==> Find(d, t.txnId).None?
    ensures Find(r, t.txnId).Some?
    ensures forall k :: 0 <= k < |d| && d[k].txnId != t.txnId ==> r[k] == d[k]
  {
    match Find(d, t.txnId)
    case None =>
      assert (d + [t])[|d|].txnId == t.txnId;
      d + [t]
    case Some(k) =>
      assert d[k := Join(d[k], t)][k].txnId == t.txnId;
      d[k := Join(d[k], t)]
  }

  /** Appending keeps the keys unique. */
  lemma AppendToUnique(d: seq<Transaction>, t: Transaction)
    requires UniqueIds(d)
    ensures UniqueIds(AppendTo(d, t))
  {
    var r := AppendTo(d, t);
    if Find(d, t.txnId).None? {
      forall i, j | 0 <= i < j < |r| ensures IdOf(r[i]) != IdOf(r[j]) {
        assert r[i] == d[i];
        if j < |d| {
          assert r[j] == d[j];
        }
      }
    } else {
      forall i, j | 0 <= i < j < |r| ensures IdOf(r[i]) != IdOf(r[j]) {
        assert r[i].txnId == d[i].txnId && r[j].txnId == d[j].txnId;
      }
    }
  }

  /** Appending a transaction that holds a counter leaves no transaction empty. */
  lemma AppendToNonEmpty(d: seq<Transaction>, t: Transaction)
    requires NonEmpty(d) && |t.counters| > 0
    ensures NonEmpty(AppendTo(d, t))
  {
  }

  /** Appending loses no counter: a join keeps both transactions' counters. */
  lemma AppendToCounters(d: seq<Transaction>, t: Transaction)
    ensures CountersIn(AppendTo(d, t)) == CountersIn(d) + |t.counters|
  {
    match Find(d, t.txnId)
    case None =>
      CountersInAppend(d, t);
    case Some(k) =>
      CountersInUpdate(d, k, Join(d[k], t));
  }

  /** Appending the open transaction keeps the invariant. */
  lemma IntactAppend(b: LoaderState, current: Transaction, next: Option<Transaction>)
    requires Intact(b) && b.currentTransaction == Some(current)
    requires next.Some? ==> |next.value.counters| > 0
    ensures Intact(b.(transactions := AppendTo(b.transactions, current), currentTransaction := next))
  {
    AppendToUnique(b.transactions, current);
    AppendToNonEmpty(b.transactions, current);
  }

  /** `AbstractTransactionLoader.endLoad`: a transaction still open is compromised. */
  function AbstractEndLoad(s: LoaderState): LoaderState {
    match s.currentTransaction
    case None => s
    case Some(t) => s.(compromisedTransactions := s.compromisedTransactions + [t], currentTransaction := None)
  }

  /** A counter is processed: `processedCounterCount` grows by one and nothing else changes. */
  function Counted(s: LoaderState): (r: LoaderState)
    ensures r.processedCounterCount == s.processedCounterCount + 1
    ensures r.(processedCounterCount := s.processedCounterCount) == s
  {
    s.(processedCounterCount := s.processedCounterCount + 1)
  }

  /** `getCount`. */
  function Count(s: LoaderState): nat {
    |s.transactions| + (if s.currentTransaction.Some? then 1 else 0)
  }

  /** Ending a load keeps every counter and every transaction, and leaves none open. */
  lemma AbstractEndLoadKeeps(s: LoaderState)
    ensures Held(AbstractEndLoad(s)) == Held(s)
    ensures Intact(s) ==> Intact(AbstractEndLoad(s))
    ensures AbstractEndLoad(s).currentTransaction.None?
    ensures Count(AbstractEndLoad(s)) == |s.transactions| == |AbstractEndLoad(s).transactions|
    ensures |AbstractEndLoad(s).compromisedTransactions| + Count(AbstractEndLoad(s))
      == |s.compromisedTransactions| + Count(s)
  {
    if s.currentTransaction.Some? {
      CountersInAppend(s.compromisedTransactions, s.currentTransaction.value);
    }
  }

  /** The attributes of `AbstractTransactionLoader` this model keeps. */
  class AbstractTransactionLoader {
    /** `ProbeMap(probes)`: the user probe registered for a counter's probe. */
    const probeMap: map<Probe, Probe>
    var processedCounterCount: nat
    var transactions: seq<Transaction>
    var compromisedTransactions: seq<Transaction>
    var nonTransactionCounters: seq<Counter>
    var ephemeralCounters: seq<Counter>
    var currentTransaction: Option<Transaction>

    function State(): LoaderState
      reads this
    {
      LoaderState(processedCounterCount, transactions, compromisedTransactions, nonTransactionCounters,
        ephemeralCounters, currentTransaction)
    }

    constructor (probeMap: map<Probe, Probe>)
      ensures State() == INITIAL && this.probeMap == probeMap
    {
      this.probeMap := probeMap;
      processedCounterCount := 0;
      transactions := [];
      compromisedTransactions := [];
      nonTransactionCounters := [];
      ephemeralCounters := [];
      currentTransaction := None;
    }

    /** `reset`. */
    method Reset()
      modifies this
      ensures State() == INITIAL
    {
      processedCounterCount := 0;
      transactions := [];
      compromisedTransactions := [];
      nonTransactionCounters := [];
      ephemeralCounters := [];
      currentTransaction := None;
    }

    /** `appendTransaction`. */
    method AppendTransaction(txn: Transaction)
      modifies this
      ensures State() == old(State()).(transactions := AppendTo(old(transactions), txn))
    {
      var found := Find(transactions, txn.txnId);
      if found.Some? {
        transactions := transactions[found.value := Join(transactions[found.value], txn)];
      } else {
        transactions := transactions + [txn];
      }
    }

    /** `endLoad`. */
    method EndLoad()
      modifies this
      ensures State() == AbstractEndLoad(old(State()))
    {
      if currentTransaction.Some? {
        compromisedTransactions := compromisedTransactions + [currentTransaction.value];
        currentTransaction := None;
      }
    }

    /** `getCount`: the transactions loaded, the open one included. */
    function GetCount(): (n: nat)
      reads this
      ensures n == Count(State())
      ensures n == |transactions| || (currentTransaction.Some? && n == |transactions| + 1)
    {
      |transactions| + (if currentTransaction.Some? then 1 else 0)
    }
  }

  // ---------------------------------------------------------------------------------------------
  // ChaoticTransactionLoader

  /** The number of hex digits of the transaction id a probe writes at the end of its data. */
  const TXN_ID_DIGITS: nat := 8

  /** `int(digits, 16)`. */
  const PARSE_HEX: string -> Option<int> := digits => PyText.ParseInt(digits, 16)

  /**
   * `markCounter`: when the data has at least 8 characters, the last 8 are read as a hex
   * transaction id and dropped from the data, else the counter is kept as it is. None stands for
   * the ValueError `int(…, 16)` raises when those characters are not a number.
   */
  function MarkCounter(c: Counter): (r: Option<Counter>)
    ensures |c.data| < TXN_ID_DIGITS ==> r == Some(c)
    ensures |c.data| >= TXN_ID_DIGITS ==> (r.None? <==> PARSE_HEX(c.data[|c.data| - TXN_ID_DIGITS..]).None?)
    ensures r.Some? ==> r.value.probe == c.probe && r.value.tsc == c.tsc
  {
    if |c.data| >= TXN_ID_DIGITS then
      var idIndex := |c.data| - TXN_ID_DIGITS;
      match PARSE_HEX(c.data[idIndex..])
      case None => None
      case Some(id) => Some(c.(txnId := Numbered(id), data := c.data[..idIndex]))
    else Some(c)
  }

  /**
   * When the data is a payload followed by 8 characters that read as the hex number `id`, the
   * counter is marked with `id` and keeps the payload as its data.
   */
  lemma MarkCounterParsed(c: Counter, payload: string, digits: string, id: int)
    requires |digits| == TXN_ID_DIGITS && c.data == payload + digits && PARSE_HEX(digits) == Some(id)
    ensures MarkCounter(c) == Some(c.(txnId := Numbered(id), data := payload))
  {
    assert c.data[|payload|..] == digits;
    assert c.data[..|payload|] == payload;
  }

  /**
   * A probe that writes an id as 8 hex digits after its payload is marked with that id and left
   * with the payload alone.
   */
  lemma MarkCounterReadsId(c: Counter, payload: string, id: nat)
    requires id < PyText.Pow(16, TXN_ID_DIGITS) && c.data == payload + PyText.HexWidth(id, TXN_ID_DIGITS)
    ensures MarkCounter(c) == Some(c.(txnId := Numbered(id), data := payload))
  {
    PyText.ParseHexWidth(id, TXN_ID_DIGITS);
    assert c.data[|payload|..] == PyText.HexWidth(id, TXN_ID_DIGITS);
    assert c.data[..|payload|] == payload;
  }

  /** The attributes of a chaotic loader. */
  datatype ChaoticState = ChaoticState(loader: LoaderState, distortionCount: nat)

  /** The user probe registered for a counter's probe, if any. */
  function UserProbe(probeMap: map<Probe, Probe>, counter: Counter): Option<Probe> {
    if counter.probe in probeMap then Some(probeMap[counter.probe]) else None
  }

  /**
   * `ChaoticTransactionLoader.loadCounter`, with `mark` for `markCounter`: the new state, and
   * false when marking raised (the count of processed counters has then already grown).
   */
  function ChaoticLoad(s: ChaoticState, probeMap: map<Probe, Probe>, mark: Counter -> Option<Counter>,
                       counter: Counter): (r: (ChaoticState, bool))
    ensures r.0.loader.processedCounterCount == s.loader.processedCounterCount + 1
    ensures !r.1 ==> r.0 == s.(loader := Counted(s.loader))
  {
    var c := s.(loader := Counted(s.loader));
    match s.loader.currentTransaction
    case Some(current) =>
      ContinueAccounts(c, current, UserProbe(probeMap, counter), mark, counter);
      ChaoticContinue(c, current, UserProbe(probeMap, counter), mark, counter)
    case None =>
      StartAccounts(c, UserProbe(probeMap, counter), mark, counter);
      ChaoticStart(c, UserProbe(probeMap, counter), mark, counter)
  }

  /**
   * A counter loaded while `current` is open: an unregistered probe's counter joins it, as does an
   * anonymous probe's or one with the same id. A probe without an id joins it too and distorts the
   * next two transactions. A new id ends it: appended when nothing is distorted, compromised
   * otherwise, and the counter starts the next transaction.
   */
  function ChaoticContinue(s: ChaoticState, current: Transaction, userProbe: Option<Probe>,
                           mark: Counter -> Option<Counter>, counter: Counter): (ChaoticState, bool)
  {
    var b := s.loader;
    if userProbe.None? then
      (s.(loader := b.(currentTransaction := Some(AddCounter(current, counter, false)))), true)
    else
      var user := userProbe.value;
      var marked := if user.isAnonymous then Some(counter) else mark(counter);
      if marked.None? then (s, false)
      else
        var c := marked.value;
        if !(Truthy(c.txnId) || user.isAnonymous) then
          (ChaoticState(b.(currentTransaction := Some(AddCounter(current, c, false))), 2), true)
        else if user.isAnonymous || c.txnId == current.txnId then
          (s.(loader := b.(currentTransaction := Some(AddCounter(current, c, false)))), true)
        else if s.distortionCount == 0 then
          (s.(loader := b.(transactions := AppendTo(b.transactions, current),
                           currentTransaction := Some(NewTransaction(c, c.txnId)))), true)
        else
          (ChaoticState(b.(compromisedTransactions := b.compromisedTransactions + [current],
                           currentTransaction := Some(NewTransaction(c, c.txnId))), s.distortionCount - 1), true)
  }

  /**
   * A counter loaded with no transaction open: an explicit probe's counter with an id starts
   * one; any other counter is loose.
   */
  function ChaoticStart(s: ChaoticState, userProbe: Option<Probe>, mark: Counter -> Option<Counter>,
                        counter: Counter): (ChaoticState, bool)
  {
    var b := s.loader;
    if userProbe.Some? && !userProbe.value.isAnonymous then
      match mark(counter)
      case None => (s, false)
      case Some(c) =>
        if Truthy(c.txnId) then (s.(loader := b.(currentTransaction := Some(NewTransaction(c, c.txnId)))), true)
        else (s.(loader := b.(nonTransactionCounters := b.nonTransactionCounters + [c])), true)
    else (s.(loader := b.(nonTransactionCounters := b.nonTransactionCounters + [counter])), true)
  }

  /** Continuing a transaction holds one more counter, or changes nothing when marking raised. */
  lemma ContinueAccounts(s: ChaoticState, current: Transaction, userProbe: Option<Probe>,
                         mark: Counter -> Option<Counter>, counter: Counter)
    requires s.loader.currentTransaction == Some(current)
    ensures var (r, ok) := ChaoticContinue(s, current, userProbe, mark, counter);
      r.loader.processedCounterCount == s.loader.processedCounterCount
      && (ok ==> Held(r.loader) == Held(s.loader) + 1) && (!ok ==> r == s)
  {
    var b := s.loader;
    if userProbe.None? {
      HeldAdd(b, current, counter, false);
    } else {
      var user := userProbe.value;
      var marked := if user.isAnonymous then Some(counter) else mark(counter);
      if marked.Some? {
        var c := marked.value;
        if !(Truthy(c.txnId) || user.isAnonymous) || user.isAnonymous || c.txnId == current.txnId {
          HeldAdd(b, current, c, false);
        } else if s.distortionCount == 0 {
          HeldAppendStart(b, current, NewTransaction(c, c.txnId));
        } else {
          HeldCompromiseStart(b, current, NewTransaction(c, c.txnId));
        }
      }
    }
  }

  lemma ContinueIntact(s: ChaoticState, current: Transaction, userProbe: Option<Probe>,
                       mark: Counter -> Option<Counter>, counter: Counter)
    requires s.loader.currentTransaction == Some(current) && Intact(s.loader)
    ensures Intact(ChaoticContinue(s, current, userProbe, mark, counter).0.loader)
  {
    var b := s.loader;
    if userProbe.None? {
      IntactReplace(b, AddCounter(current, counter, false));
    } else {
      var user := userProbe.value;
      var marked := if user.isAnonymous then Some(counter) else mark(counter);
      if marked.Some? {
        var c := marked.value;
        if !(Truthy(c.txnId) || user.isAnonymous) || user.isAnonymous || c.txnId == current.txnId {
          IntactReplace(b, AddCounter(current, c, false));
        } else if s.distortionCount == 0 {
          IntactAppend(b, current, Some(NewTransaction(c, c.txnId)));
        } else {
          IntactCompromise(b, current, Some(NewTransaction(c, c.txnId)));
        }
      }
    }
  }

  /** Starting holds one more counter, or changes nothing when marking raised. */
  lemma StartAccounts(s: ChaoticState, userProbe: Option<Probe>, mark: Counter -> Option<Counter>, counter: Counter)
    requires s.loader.currentTransaction.None?
    ensures var (r, ok) := ChaoticStart(s, userProbe, mark, counter);
      r.loader.processedCounterCount == s.loader.processedCounterCount
      && (ok ==> Held(r.loader) == Held(s.loader) + 1) && (!ok ==> r == s)
      && (Intact(s.loader) ==> Intact(r.loader))
  {
  }

  /** Marking only rewrites a counter's data and id. */
  ghost predicate KeepsSample(mark: Counter -> Option<Counter>) {
    forall c :: mark(c).Some? ==> mark(c).value.probe == c.probe && mark(c).value.tsc == c.tsc
  }

  /** The same sample: the same probe at the same time. */
  predicate SameSample(a: Counter, b: Counter) {
    a.probe == b.probe && a.tsc == b.tsc
  }

  /**
   * Every call counts one more processed counter. When it succeeds the loader holds exactly one
   * more counter and keeps its invariant; when marking raises, nothing else changes.
   */
  lemma ChaoticLoadAccounts(s: ChaoticState, probeMap: map<Probe, Probe>, mark: Counter -> Option<Counter>,
                            counter: Counter)
    ensures ChaoticLoad(s, probeMap, mark, counter).0.loader.processedCounterCount
      == s.loader.processedCounterCount + 1
    ensures ChaoticLoad(s, probeMap, mark, counter).1 ==>
      Held(ChaoticLoad(s, probeMap, mark, counter).0.loader) == Held(s.loader) + 1
    ensures !ChaoticLoad(s, probeMap, mark, counter).1 ==>
      ChaoticLoad(s, probeMap, mark, counter).0
        == s.(loader := s.loader.(processedCounterCount := s.loader.processedCounterCount + 1))
    ensures Intact(s.loader) ==> Intact(ChaoticLoad(s, probeMap, mark, counter).0.loader)
  {
    var userProbe := UserProbe(probeMap, counter);
    var c := s.(loader := Counted(s.loader));
    if s.loader.currentTransaction.Some? {
      ContinueAccounts(c, s.loader.currentTransaction.value, userProbe, mark, counter);
      if Intact(s.loader) {
        ContinueIntact(c, s.loader.currentTransaction.value, userProbe, mark, counter);
      }
    } else {
      StartAccounts(c, userProbe, mark, counter);
    }
  }

  /**
   * The loaded counter ends up in exactly one place: it is the last counter of the current
   * transaction (which it may have started) and nothing else gains a loose counter, or it is the
   * one new loose counter and the current transaction is untouched.
   */
  lemma ChaoticLoadPlaces(s: ChaoticState, probeMap: map<Probe, Probe>, mark: Counter -> Option<Counter>,
                          counter: Counter)
    requires KeepsSample(mark) && ChaoticLoad(s, probeMap, mark, counter).1
    ensures var r := ChaoticLoad(s, probeMap, mark, counter).0.loader;
      (r.currentTransaction.Some? && |r.currentTransaction.value.counters| > 0
        && SameSample(r.currentTransaction.value.counters[|r.currentTransaction.value.counters| - 1], counter)
        && r.nonTransactionCounters == s.loader.nonTransactionCounters)
      || (r.currentTransaction == s.loader.currentTransaction
        && |r.nonTransactionCounters| == |s.loader.nonTransactionCounters| + 1
        && r.nonTransactionCounters[..|s.loader.nonTransactionCounters|] == s.loader.nonTransactionCounters
        && SameSample(r.nonTransactionCounters[|s.loader.nonTransactionCounters|], counter))
  {
  }

  /**
   * The distortion rules: the count never exceeds 2; an explicit probe without an id, inside a
   * transaction, sets it to 2; a transaction is appended only while it is 0; and while it is
   * positive a change of id compromises the current transaction and takes one off the count.
   */
  lemma ChaoticDistortion(s: ChaoticState, probeMap: map<Probe, Probe>, mark: Counter -> Option<Counter>,
                          counter: Counter)
    ensures var r := ChaoticLoad(s, probeMap, mark, counter).0;
      s.distortionCount <= 2 ==> r.distortionCount <= 2
    ensures var r := ChaoticLoad(s, probeMap, mark, counter).0;
      (s.loader.currentTransaction.Some? && UserProbe(probeMap, counter).Some?
        && !UserProbe(probeMap, counter).value.isAnonymous
        && mark(counter).Some? && !Truthy(mark(counter).value.txnId)) ==> r.distortionCount == 2
    ensures var r := ChaoticLoad(s, probeMap, mark, counter).0;
      r.loader.transactions != s.loader.transactions ==> s.distortionCount == 0 && r.distortionCount == 0
    ensures var r := ChaoticLoad(s, probeMap, mark, counter).0;
      r.loader.compromisedTransactions != s.loader.compromisedTransactions ==>
        s.distortionCount > 0 && r.distortionCount == s.distortionCount - 1
        && s.loader.currentTransaction.Some?
        && r.loader.compromisedTransactions == s.loader.compromisedTransactions + [s.loader.currentTransaction.value]
  {
  }

  /**
   * `ChaoticTransactionLoader.endLoad`: the open transaction is appended when no distortion is
   * pending and compromised otherwise; the distortion count is reset.
   */
  function ChaoticEndLoad(s: ChaoticState): (r: ChaoticState)
    ensures r.loader.currentTransaction.None? && r.distortionCount == 0
    ensures r.loader.processedCounterCount == s.loader.processedCounterCount
  {
    var b := s.loader;
    match b.currentTransaction
    case None => ChaoticState(b, 0)
    case Some(t) =>
      if s.distortionCount == 0 then
        ChaoticState(b.(transactions := AppendTo(b.transactions, t), currentTransaction := None), 0)
      else
        ChaoticState(b.(compromisedTransactions := b.compromisedTransactions + [t], currentTransaction := None), 0)
  }

  /**
   * Ending a load keeps every counter and the invariant, and leaves no transaction open and no
   * distortion pending; the count drops by one at most (when the open transaction joins another).
   */
  lemma ChaoticEndLoadKeeps(s: ChaoticState)
    ensures Held(ChaoticEndLoad(s).loader) == Held(s.loader)
    ensures Intact(s.loader) ==> Intact(ChaoticEndLoad(s).loader)
    ensures ChaoticEndLoad(s).loader.currentTransaction.None? && ChaoticEndLoad(s).distortionCount == 0
    ensures Count(s.loader) - 1 <= Count(ChaoticEndLoad(s).loader) <= Count(s.loader)
    ensures ChaoticEndLoad(s).loader.processedCounterCount == s.loader.processedCounterCount
  {
    var b := s.loader;
    if b.currentTransaction.Some? {
      var t := b.currentTransaction.value;
      if s.distortionCount == 0 {
        AppendToCounters(b.transactions, t);
        if Intact(b) {
          IntactAppend(b, t, None);
        }
      } else {
        CountersInAppend(b.compromisedTransactions, t);
        if Intact(b) {
          IntactCompromise(b, t, None);
        }
      }
    }
  }

  /**
   * Where ending a load puts the open transaction: into the transactions (joined with one of the
   * same id, if any) when no distortion is pending, at the end of the compromised ones otherwise;
   * with nothing open the loader is unchanged.
   */
  lemma ChaoticEndLoadRule(s: ChaoticState)
    ensures var r := ChaoticEndLoad(s);
      s.loader.currentTransaction.Some? && s.distortionCount == 0 ==>
      r.loader.transactions == AppendTo(s.loader.transactions, s.loader.currentTransaction.value)
      && r.loader.compromisedTransactions == s.loader.compromisedTransactions
    ensures var r := ChaoticEndLoad(s);
      s.loader.currentTransaction.Some? && s.distortionCount > 0 ==>
      r.loader.compromisedTransactions == s.loader.compromisedTransactions + [s.loader.currentTransaction.value]
      && r.loader.transactions == s.loader.transactions
    ensures s.loader.currentTransaction.None? ==> ChaoticEndLoad(s).loader == s.loader
  {
  }

  /** `ChaoticTransactionLoader`. */
  class ChaoticTransactionLoader {
    const base: AbstractTransactionLoader
    var distortionCount: nat

    function State(): ChaoticState
      reads this, base
    {
      ChaoticState(base.State(), distortionCount)
    }

    constructor (probeMap: map<Probe, Probe>)
      ensures fresh(base) && base.probeMap == probeMap && State() == ChaoticState(INITIAL, 0)
    {
      base := new AbstractTransactionLoader(probeMap);
      distortionCount := 0;
    }

    /** `loadCounter`; `ok` is false when `markCounter` raised. */
    method LoadCounter(counter: Counter) returns (ok: bool)
      modifies this, base
      ensures (State(), ok) == ChaoticLoad(old(State()), base.probeMap, MarkCounter, counter)
    {
      base.processedCounterCount := base.processedCounterCount + 1;
      assert State() == old(State()).(loader := Counted(old(State()).loader));
      var userProbe := UserProbe(base.probeMap, counter);
      if base.currentTransaction.Some? {
        ok := Continue(base.currentTransaction.value, userProbe, counter);
      } else {
        ok := Start(userProbe, counter);
      }
    }

    /** The branch of `loadCounter` taken while `current` is open. */
    method Continue(current: Transaction, userProbe: Option<Probe>, counter: Counter) returns (ok: bool)
      requires base.currentTransaction == Some(current)
      modifies this, base
      ensures (State(), ok) == ChaoticContinue(old(State()), current, userProbe, MarkCounter, counter)
    {
      ok := true;
      if userProbe.None? {
        base.currentTransaction := Some(AddCounter(current, counter, false));
        return;
      }
      var user := userProbe.value;
      var c := counter;
      if !user.isAnonymous {
        var marked := MarkCounter(counter);
        if marked.None? {
          ok := false;
          return;
        }
        c := marked.value;
      }
      if Truthy(c.txnId) || user.isAnonymous {
        if user.isAnonymous || c.txnId == current.txnId {
          base.currentTransaction := Some(AddCounter(current, c, false));
        } else if distortionCount == 0 {
          base.AppendTransaction(current);
          base.currentTransaction := Some(NewTransaction(c, c.txnId));
        } else {
          distortionCount := distortionCount - 1;
          base.compromisedTransactions := base.compromisedTransactions + [current];
          base.currentTransaction := Some(NewTransaction(c, c.txnId));
        }
      } else {
        base.currentTransaction := Some(AddCounter(current, c, false));
        distortionCount := 2;
      }
    }

    /** The branch of `loadCounter` taken with no transaction open. */
    method Start(userProbe: Option<Probe>, counter: Counter) returns (ok: bool)
      requires base.currentTransaction.None?
      modifies base
      ensures (State(), ok) == ChaoticStart(old(State()), userProbe, MarkCounter, counter)
    {
      ok := true;
      if userProbe.Some? && !userProbe.value.isAnonymous {
        var marked := MarkCounter(counter);
        if marked.None? {
          ok := false;
          return;
        }
        var c := marked.value;
        if Truthy(c.txnId) {
          base.currentTransaction := Some(NewTransaction(c, c.txnId));
        } else {
          base.nonTransactionCounters := base.nonTransactionCounters + [c];
        }
      } else {
        base.nonTransactionCounters := base.nonTransactionCounters + [counter];
      }
    }

    /** `endLoad`. */
    method EndLoad()
      modifies this, base
      ensures State() == ChaoticEndLoad(old(State()))
    {
      if base.currentTransaction.Some? {
        if distortionCount == 0 {
          base.AppendTransaction(base.currentTransaction.value);
        } else {
          base.compromisedTransactions := base.compromisedTransactions + [base.currentTransaction.value];
        }
      }
      distortionCount := 0;
      base.currentTransaction := None;
    }
  }

  // ---------------------------------------------------------------------------------------------
  // BoundedTransactionLoader

  /**
   * The attributes of a bounded loader. `resumeFragment` is the truthiness of the fragment
   * `TxnFragments.addResumeFragment` returned. `heldBack` lists the transactions
   * `appendTransaction` leaves to the fragment store while resuming or suspending; the store
   * itself is not modelled.
   */
  datatype BoundedState = BoundedState(
    loader: LoaderState,
    nextTxnId: nat,
    nextFragmentId: nat,
    resumeFragment: bool,
    suspendingTxn: bool,
    heldBack: seq<Transaction>)

  /**
   * `BoundedTransactionLoader.buildTransaction`: a resuming counter starts a transaction keyed
   * by its data and registers a resume fragment; any other starts one keyed by the next fragment
   * id. Either way the loader is no longer suspending.
   */
  function NextTransaction(s: BoundedState, counter: Counter, resumeTxn: bool,
                            addResumeFragment: (string, Transaction) -> bool): (r: (BoundedState, Transaction))
    ensures r.1.counters == [counter] && !r.1.hasEndProbe && !r.0.suspendingTxn
    ensures r.0.loader == s.loader && r.0.nextTxnId == s.nextTxnId && r.0.heldBack == s.heldBack
    ensures resumeTxn ==> r.1.txnId == Linked(counter.data) && r.0.nextFragmentId == s.nextFragmentId
    ensures !resumeTxn ==> r.1.txnId == Numbered(s.nextFragmentId + 1)
    ensures !resumeTxn ==> r.0.nextFragmentId == s.nextFragmentId + 1 && !r.0.resumeFragment
  {
    if resumeTxn then
      var txn := NewTransaction(counter, Linked(counter.data));
      (s.(suspendingTxn := false, resumeFragment := addResumeFragment(counter.data, txn)), txn)
    else
      (s.(suspendingTxn := false, resumeFragment := false, nextFragmentId := s.nextFragmentId + 1),
       NewTransaction(counter, Numbered(s.nextFragmentId + 1)))
  }

  /**
   * `BoundedTransactionLoader.appendTransaction`: unless resuming or suspending, the transaction
   * gets the next id and is appended.
   */
  function BoundedAppend(s: BoundedState, txn: Transaction): (r: BoundedState)
    ensures s.nextTxnId <= r.nextTxnId <= s.nextTxnId + 1
    ensures |s.loader.transactions| <= |r.loader.transactions| <= |s.loader.transactions| + 1
    ensures r.loader.currentTransaction == s.loader.currentTransaction
  {
    if !(s.resumeFragment || s.suspendingTxn) then
      s.(nextTxnId := s.nextTxnId + 1,
         loader := s.loader.(transactions := AppendTo(s.loader.transactions, txn.(txnId := Numbered(s.nextTxnId + 1)))))
    else s.(heldBack := s.heldBack + [txn])
  }

  /**
   * The ids `appendTransaction` assigned: every loaded transaction has one between 1 and
   * `nextTxnId`, and they increase in the order the transactions were loaded.
   */
  predicate IdsAssigned(s: BoundedState) {
    var ts := s.loader.transactions;
    (forall k :: 0 <= k < |ts| ==> ts[k].txnId.Numbered? && 1 <= ts[k].txnId.n <= s.nextTxnId)
    && (forall i, j :: 0 <= i < j < |ts| ==> ts[i].txnId.n < ts[j].txnId.n)
  }

  /** The counters a bounded loader holds, those left to the fragment store included. */
  function BoundedHeld(s: BoundedState): nat {
    Held(s.loader) + CountersIn(s.heldBack)
  }

  /** The bounded loader's invariant. */
  predicate BoundedIntact(s: BoundedState) {
    Intact(s.loader) && IdsAssigned(s) && NonEmpty(s.heldBack)
  }

  /**
   * An appended transaction always gets a fresh id, one past every id assigned before, so it is
   * never joined into an earlier one: the ids stay strictly increasing.
   */
  lemma BoundedAppendAssigns(s: BoundedState, txn: Transaction)
    requires IdsAssigned(s)
    ensures var r := BoundedAppend(s, txn);
      IdsAssigned(r) && s.nextTxnId <= r.nextTxnId
      && (!(s.resumeFragment || s.suspendingTxn) ==>
        r.nextTxnId == s.nextTxnId + 1
        && r.loader.transactions == s.loader.transactions + [txn.(txnId := Numbered(s.nextTxnId + 1))])
      && (s.resumeFragment || s.suspendingTxn ==> r.loader.transactions == s.loader.transactions)
  {
    if !(s.resumeFragment || s.suspendingTxn) {
      var t := txn.(txnId := Numbered(s.nextTxnId + 1));
      assert Find(s.loader.transactions, t.txnId).None?;
      var r := BoundedAppend(s, txn);
      assert r.loader.transactions == s.loader.transactions + [t];
    }
  }

  /** Held counts the loaded transactions through `CountersIn`. */
  lemma HeldTransactions(b: LoaderState, ts: seq<Transaction>)
    ensures Held(b.(transactions := ts)) == Held(b) - CountersIn(b.transactions) + CountersIn(ts)
  {
  }

  /** Appending keeps every counter. */
  lemma BoundedAppendHeld(s: BoundedState, txn: Transaction)
    ensures BoundedHeld(BoundedAppend(s, txn)) == BoundedHeld(s) + |txn.counters|
  {
    var r := BoundedAppend(s, txn);
    if !(s.resumeFragment || s.suspendingTxn) {
      var t := txn.(txnId := Numbered(s.nextTxnId + 1));
      assert r.loader == s.loader.(transactions := AppendTo(s.loader.transactions, t)) && r.heldBack == s.heldBack;
      AppendToCounters(s.loader.transactions, t);
      HeldTransactions(s.loader, AppendTo(s.loader.transactions, t));
    } else {
      assert r.loader == s.loader && r.heldBack == s.heldBack + [txn];
      CountersInAppend(s.heldBack, txn);
    }
  }

  /** Appending a transaction that holds a counter keeps the invariant. */
  lemma BoundedAppendIntact(s: BoundedState, txn: Transaction)
    requires BoundedIntact(s) && |txn.counters| > 0
    ensures BoundedIntact(BoundedAppend(s, txn))
  {
    var t := txn.(txnId := Numbered(s.nextTxnId + 1));
    if !(s.resumeFragment || s.suspendingTxn) {
      AppendToUnique(s.loader.transactions, t);
      AppendToNonEmpty(s.loader.transactions, t);
      BoundedAppendAssigns(s, txn);
    }
  }

  /** The user probe of a counter; an unregistered probe stands for itself. */
  function BoundedUserProbe(probeMap: map<Probe, Probe>, counter: Counter): Probe {
    if counter.probe in probeMap then probeMap[counter.probe] else counter.probe
  }

  /** `BoundedTransactionLoader.loadCounter`. */
  function BoundedLoad(s: BoundedState, probeMap: map<Probe, Probe>, addResumeFragment: (string, Transaction) -> bool,
                       counter: Counter): (r: BoundedState)
    ensures r.loader.processedCounterCount == s.loader.processedCounterCount + 1
  {
    var c := s.(loader := Counted(s.loader));
    match s.loader.currentTransaction
    case Some(current) =>
      BoundedContinueHeld(c, current, BoundedUserProbe(probeMap, counter), addResumeFragment, counter);
      BoundedContinue(c, current, BoundedUserProbe(probeMap, counter), addResumeFragment, counter)
    case None =>
      BoundedStartKeeps(c, BoundedUserProbe(probeMap, counter), addResumeFragment, counter);
      BoundedStart(c, BoundedUserProbe(probeMap, counter), addResumeFragment, counter)
  }

  /**
   * A counter loaded while `current` is open. A begin probe after the end probe, or any resume
   * probe, closes `current` (the waiting counters turn loose) and starts the next transaction; a
   * begin probe before the end probe is just a counter. An end or suspend probe takes the
   * waiting counters and its own into `current` and marks it ended. Any other counter waits,
   * once `current` has ended, or joins it.
   */
  function BoundedContinue(s: BoundedState, current: Transaction, user: Probe,
                           addResumeFragment: (string, Transaction) -> bool, counter: Counter): BoundedState
  {
    var b := s.loader;
    if user.canBeginTxn || user.canResumeTxn then
      if current.hasEndProbe || user.canResumeTxn then BoundedClose(s, current, user.canResumeTxn, addResumeFragment, counter)
      else s.(loader := b.(currentTransaction := Some(AddCounter(current, counter, false))))
    else if user.canEndTxn || user.canSuspendTxn then
      s.(loader := b.(currentTransaction := Some(AddCounter(AddCounters(current, b.ephemeralCounters), counter, true)),
                      ephemeralCounters := []),
         suspendingTxn := s.suspendingTxn || user.canSuspendTxn)
    else if current.hasEndProbe then s.(loader := b.(ephemeralCounters := b.ephemeralCounters + [counter]))
    else s.(loader := b.(currentTransaction := Some(AddCounter(current, counter, false))))
  }

  /**
   * Closing `current` for a begin or resume counter: the waiting counters turn loose, `current`
   * is appended and the counter starts the next transaction.
   */
  function BoundedClose(s: BoundedState, current: Transaction, resumeTxn: bool,
                        addResumeFragment: (string, Transaction) -> bool, counter: Counter): BoundedState
  {
    var b := s.loader;
    var flushed := s.(loader := b.(nonTransactionCounters := b.nonTransactionCounters + b.ephemeralCounters,
                                   ephemeralCounters := []));
    var (s2, txn) := NextTransaction(BoundedAppend(flushed, current), counter, resumeTxn, addResumeFragment);
    s2.(loader := s2.loader.(currentTransaction := Some(txn)))
  }

  /**
   * A counter loaded with no transaction open. A begin or resume probe starts one (the waiting
   * counters turn loose); an end or suspend probe makes a compromised transaction of its counter
   * and the waiting ones; any other counter waits.
   */
  function BoundedStart(s: BoundedState, user: Probe, addResumeFragment: (string, Transaction) -> bool,
                        counter: Counter): BoundedState
  {
    var b := s.loader;
    if user.canBeginTxn || user.canResumeTxn then
      var (s1, txn) := NextTransaction(s, counter, user.canResumeTxn, addResumeFragment);
      s1.(loader := s1.loader.(currentTransaction := Some(txn),
                               nonTransactionCounters := s1.loader.nonTransactionCounters + s1.loader.ephemeralCounters,
                               ephemeralCounters := []))
    else if user.canEndTxn || user.canSuspendTxn then
      var (s1, txn) := NextTransaction(s, counter, false, addResumeFragment);
      s1.(loader := s1.loader.(compromisedTransactions := s1.loader.compromisedTransactions
                                 + [AddCounters(txn, b.ephemeralCounters)],
                               ephemeralCounters := []))
    else s.(loader := b.(ephemeralCounters := b.ephemeralCounters + [counter]))
  }

  /** `BoundedTransactionLoader.endLoad`: the open transaction is appended iff it has ended. */
  function BoundedEndLoad(s: BoundedState): (r: BoundedState)
    ensures r.loader.currentTransaction.None?
    ensures s.nextTxnId <= r.nextTxnId <= s.nextTxnId + 1
  {
    var b := s.loader;
    match b.currentTransaction
    case None => s
    case Some(t) =>
      if t.hasEndProbe then
        var s1 := BoundedAppend(s, t);
        s1.(loader := s1.loader.(currentTransaction := None))
      else s.(loader := b.(compromisedTransactions := b.compromisedTransactions + [t], currentTransaction := None))
  }

  /** Replacing the open transaction changes the count by the difference of the sizes. */
  lemma HeldReplace(b: LoaderState, current: Transaction, t: Transaction)
    requires b.currentTransaction == Some(current)
    ensures Held(b.(currentTransaction := Some(t))) == Held(b) - |current.counters| + |t.counters|
  {
  }

  /** Turning the waiting counters loose keeps the bounded invariant. */
  lemma BoundedFlushIntact(s: BoundedState)
    requires BoundedIntact(s)
    ensures BoundedIntact(s.(loader := s.loader.(nonTransactionCounters := s.loader.nonTransactionCounters
      + s.loader.ephemeralCounters, ephemeralCounters := [])))
  {
  }

  /** Building a transaction keeps the bounded invariant. */
  lemma NextTransactionIntact(s: BoundedState, counter: Counter, resumeTxn: bool,
                               addResumeFragment: (string, Transaction) -> bool)
    requires BoundedIntact(s)
    ensures BoundedIntact(NextTransaction(s, counter, resumeTxn, addResumeFragment).0)
  {
    var r := NextTransaction(s, counter, resumeTxn, addResumeFragment).0;
    assert r.loader == s.loader && r.nextTxnId == s.nextTxnId && r.heldBack == s.heldBack;
  }

  /** Opening a transaction that holds a counter keeps the bounded invariant. */
  lemma BoundedReplaceIntact(s: BoundedState, t: Transaction)
    requires BoundedIntact(s) && |t.counters| > 0
    ensures BoundedIntact(s.(loader := s.loader.(currentTransaction := Some(t))))
  {
    IntactReplace(s.loader, t);
  }

  /**
   * Closing the open transaction holds one counter more, turns the waiting counters loose and
   * starts a transaction of the one counter; the closed transaction gets the next id unless the
   * loader is resuming or suspending.
   */
  lemma BoundedCloseAccounts(s: BoundedState, current: Transaction, resumeTxn: bool,
                             addResumeFragment: (string, Transaction) -> bool, counter: Counter)
    requires s.loader.currentTransaction == Some(current)
    ensures var r := BoundedClose(s, current, resumeTxn, addResumeFragment, counter);
      BoundedHeld(r) == BoundedHeld(s) + 1
      && r.loader.processedCounterCount == s.loader.processedCounterCount
      && r.loader.nonTransactionCounters == s.loader.nonTransactionCounters + s.loader.ephemeralCounters
      && r.loader.ephemeralCounters == []
      && r.loader.currentTransaction.Some? && r.loader.currentTransaction.value.counters == [counter]
  {
    var b := s.loader;
    var flushed := s.(loader := b.(nonTransactionCounters := b.nonTransactionCounters + b.ephemeralCounters,
                                   ephemeralCounters := []));
    assert BoundedHeld(flushed) == BoundedHeld(s);
    var a := BoundedAppend(flushed, current);
    BoundedAppendHeld(flushed, current);
    var (s2, txn) := NextTransaction(a, counter, resumeTxn, addResumeFragment);
    HeldReplace(s2.loader, current, txn);
  }

  /** The transaction closed for a begin or resume counter gets the next id unless the loader is resuming or suspending. */
  lemma BoundedCloseAppends(s: BoundedState, current: Transaction, resumeTxn: bool,
                            addResumeFragment: (string, Transaction) -> bool, counter: Counter)
    requires s.loader.currentTransaction == Some(current) && IdsAssigned(s)
    ensures var r := BoundedClose(s, current, resumeTxn, addResumeFragment, counter);
      (!(s.resumeFragment || s.suspendingTxn) ==>
        r.loader.transactions == s.loader.transactions + [current.(txnId := Numbered(s.nextTxnId + 1))]
        && r.nextTxnId == s.nextTxnId + 1)
      && (s.resumeFragment || s.suspendingTxn ==>
        r.loader.transactions == s.loader.transactions && r.heldBack == s.heldBack + [current])
  {
    var b := s.loader;
    var flushed := s.(loader := b.(nonTransactionCounters := b.nonTransactionCounters + b.ephemeralCounters,
                                   ephemeralCounters := []));
    BoundedAppendAssigns(flushed, current);
  }

  /** Closing the open transaction keeps the bounded invariant. */
  lemma BoundedCloseIntact(s: BoundedState, current: Transaction, resumeTxn: bool,
                           addResumeFragment: (string, Transaction) -> bool, counter: Counter)
    requires s.loader.currentTransaction == Some(current) && BoundedIntact(s)
    ensures BoundedIntact(BoundedClose(s, current, resumeTxn, addResumeFragment, counter))
  {
    var b := s.loader;
    var flushed := s.(loader := b.(nonTransactionCounters := b.nonTransactionCounters + b.ephemeralCounters,
                                   ephemeralCounters := []));
    BoundedFlushIntact(s);
    var a := BoundedAppend(flushed, current);
    BoundedAppendIntact(flushed, current);
    NextTransactionIntact(a, counter, resumeTxn, addResumeFragment);
    var (s2, txn) := NextTransaction(a, counter, resumeTxn, addResumeFragment);
    BoundedReplaceIntact(s2, txn);
  }

  /** A counter loaded with a transaction open is held. */
  lemma BoundedContinueHeld(s: BoundedState, current: Transaction, user: Probe,
                            addResumeFragment: (string, Transaction) -> bool, counter: Counter)
    requires s.loader.currentTransaction == Some(current)
    ensures var r := BoundedContinue(s, current, user, addResumeFragment, counter);
      BoundedHeld(r) == BoundedHeld(s) + 1 && r.loader.processedCounterCount == s.loader.processedCounterCount
  {
    var b := s.loader;
    if user.canBeginTxn || user.canResumeTxn {
      if current.hasEndProbe || user.canResumeTxn {
        BoundedCloseAccounts(s, current, user.canResumeTxn, addResumeFragment, counter);
      } else {
        HeldAdd(b, current, counter, false);
      }
    } else if user.canEndTxn || user.canSuspendTxn {
      HeldReplace(b, current, AddCounter(AddCounters(current, b.ephemeralCounters), counter, true));
    } else if !current.hasEndProbe {
      HeldAdd(b, current, counter, false);
    }
  }

  /** A counter loaded with a transaction open keeps the invariant. */
  lemma BoundedContinueIntact(s: BoundedState, current: Transaction, user: Probe,
                              addResumeFragment: (string, Transaction) -> bool, counter: Counter)
    requires s.loader.currentTransaction == Some(current) && BoundedIntact(s)
    ensures BoundedIntact(BoundedContinue(s, current, user, addResumeFragment, counter))
  {
    var b := s.loader;
    if user.canBeginTxn || user.canResumeTxn {
      if current.hasEndProbe || user.canResumeTxn {
        BoundedCloseIntact(s, current, user.canResumeTxn, addResumeFragment, counter);
      } else {
        BoundedReplaceIntact(s, AddCounter(current, counter, false));
      }
    } else if user.canEndTxn || user.canSuspendTxn {
      BoundedReplaceIntact(s, AddCounter(AddCounters(current, b.ephemeralCounters), counter, true));
    } else if !current.hasEndProbe {
      BoundedReplaceIntact(s, AddCounter(current, counter, false));
    }
  }

  /** A counter loaded with no transaction open is held, and the invariant is kept. */
  lemma BoundedStartKeeps(s: BoundedState, user: Probe, addResumeFragment: (string, Transaction) -> bool,
                          counter: Counter)
    requires s.loader.currentTransaction.None?
    ensures var r := BoundedStart(s, user, addResumeFragment, counter);
      BoundedHeld(r) == BoundedHeld(s) + 1
      && r.loader.processedCounterCount == s.loader.processedCounterCount
      && (BoundedIntact(s) ==> BoundedIntact(r))
  {
    var b := s.loader;
    if !(user.canBeginTxn || user.canResumeTxn) && (user.canEndTxn || user.canSuspendTxn) {
      var (s1, txn) := NextTransaction(s, counter, false, addResumeFragment);
      CountersInAppend(b.compromisedTransactions, AddCounters(txn, b.ephemeralCounters));
    }
  }

  /** Counting a counter keeps what is held and the invariant. */
  lemma BoundedCountedKeeps(s: BoundedState)
    ensures BoundedHeld(s.(loader := Counted(s.loader))) == BoundedHeld(s)
    ensures BoundedIntact(s) ==> BoundedIntact(s.(loader := Counted(s.loader)))
  {
    var c := s.(loader := Counted(s.loader));
    assert c.loader.transactions == s.loader.transactions && c.nextTxnId == s.nextTxnId && c.heldBack == s.heldBack;
  }

  /**
   * `loadCounter` counts the counter and holds it: in the open transaction, among the waiting or
   * loose counters, in a loaded or compromised transaction, or with a transaction left to the
   * fragment store.
   */
  lemma BoundedLoadAccounts(s: BoundedState, probeMap: map<Probe, Probe>,
                            addResumeFragment: (string, Transaction) -> bool, counter: Counter)
    ensures var r := BoundedLoad(s, probeMap, addResumeFragment, counter);
      r.loader.processedCounterCount == s.loader.processedCounterCount + 1
      && BoundedHeld(r) == BoundedHeld(s) + 1
  {
    var user := BoundedUserProbe(probeMap, counter);
    var c := s.(loader := Counted(s.loader));
    BoundedCountedKeeps(s);
    match s.loader.currentTransaction
    case Some(current) =>
      assert BoundedLoad(s, probeMap, addResumeFragment, counter) == BoundedContinue(c, current, user, addResumeFragment, counter);
      BoundedContinueHeld(c, current, user, addResumeFragment, counter);
    case None =>
      assert BoundedLoad(s, probeMap, addResumeFragment, counter) == BoundedStart(c, user, addResumeFragment, counter);
      BoundedStartKeeps(c, user, addResumeFragment, counter);
  }

  /** `loadCounter` keeps the bounded invariant: ids stay increasing and no transaction is empty. */
  lemma BoundedLoadIntact(s: BoundedState, probeMap: map<Probe, Probe>,
                          addResumeFragment: (string, Transaction) -> bool, counter: Counter)
    requires BoundedIntact(s)
    ensures BoundedIntact(BoundedLoad(s, probeMap, addResumeFragment, counter))
  {
    var user := BoundedUserProbe(probeMap, counter);
    var c := s.(loader := Counted(s.loader));
    BoundedCountedKeeps(s);
    match s.loader.currentTransaction
    case Some(current) =>
      assert BoundedLoad(s, probeMap, addResumeFragment, counter) == BoundedContinue(c, current, user, addResumeFragment, counter);
      BoundedContinueIntact(c, current, user, addResumeFragment, counter);
    case None =>
      assert BoundedLoad(s, probeMap, addResumeFragment, counter) == BoundedStart(c, user, addResumeFragment, counter);
      BoundedStartKeeps(c, user, addResumeFragment, counter);
  }

  /**
   * An end or suspend counter with no transaction open makes a compromised transaction of itself
   * followed by the waiting counters, under the next fragment id; the waiting list is emptied.
   */
  lemma BoundedEndWithoutBegin(s: BoundedState, probeMap: map<Probe, Probe>,
                               addResumeFragment: (string, Transaction) -> bool, counter: Counter)
    requires s.loader.currentTransaction.None?
    requires var user := BoundedUserProbe(probeMap, counter);
      !(user.canBeginTxn || user.canResumeTxn) && (user.canEndTxn || user.canSuspendTxn)
    ensures var r := BoundedLoad(s, probeMap, addResumeFragment, counter).loader;
      |r.compromisedTransactions| == |s.loader.compromisedTransactions| + 1
      && r.compromisedTransactions[..|s.loader.compromisedTransactions|] == s.loader.compromisedTransactions
      && var t := r.compromisedTransactions[|s.loader.compromisedTransactions|];
      t.counters == [counter] + s.loader.ephemeralCounters && !t.hasEndProbe
      && t.txnId == Numbered(s.nextFragmentId + 1)
      && r.ephemeralCounters == [] && r.currentTransaction.None? && r.transactions == s.loader.transactions
  {
    var c := s.(loader := Counted(s.loader));
    var user := BoundedUserProbe(probeMap, counter);
    assert BoundedLoad(s, probeMap, addResumeFragment, counter) == BoundedStart(c, user, addResumeFragment, counter);
  }

  /**
   * An end or suspend counter with a transaction open closes it: the waiting counters and then
   * the counter itself join it, it is marked ended, and a suspend probe sets `suspendingTxn`.
   */
  lemma BoundedEndCloses(s: BoundedState, probeMap: map<Probe, Probe>,
                         addResumeFragment: (string, Transaction) -> bool, counter: Counter)
    requires s.loader.currentTransaction.Some?
    requires var user := BoundedUserProbe(probeMap, counter);
      !(user.canBeginTxn || user.canResumeTxn) && (user.canEndTxn || user.canSuspendTxn)
    ensures var r := BoundedLoad(s, probeMap, addResumeFragment, counter);
      var current := s.loader.currentTransaction.value;
      r.loader.currentTransaction.Some?
      && r.loader.currentTransaction.value.counters == current.counters + s.loader.ephemeralCounters + [counter]
      && r.loader.currentTransaction.value.hasEndProbe
      && r.loader.currentTransaction.value.txnId == current.txnId
      && r.loader.ephemeralCounters == [] && r.loader.transactions == s.loader.transactions
      && (r.suspendingTxn <==> s.suspendingTxn || BoundedUserProbe(probeMap, counter).canSuspendTxn)
  {
    var c := s.(loader := Counted(s.loader));
    var user := BoundedUserProbe(probeMap, counter);
    var current := s.loader.currentTransaction.value;
    assert BoundedLoad(s, probeMap, addResumeFragment, counter) == BoundedContinue(c, current, user, addResumeFragment, counter);
  }

  /**
   * A begin counter after the open transaction's end probe appends that transaction under the
   * next id (unless resuming or suspending) and opens a new one with the counter; a plain
   * counter after the end probe waits.
   */
  lemma BoundedAfterEnd(s: BoundedState, probeMap: map<Probe, Probe>,
                        addResumeFragment: (string, Transaction) -> bool, counter: Counter)
    requires s.loader.currentTransaction.Some? && s.loader.currentTransaction.value.hasEndProbe
    ensures var r := BoundedLoad(s, probeMap, addResumeFragment, counter);
      var user := BoundedUserProbe(probeMap, counter);
      var current := s.loader.currentTransaction.value;
      ((user.canBeginTxn || user.canResumeTxn) && IdsAssigned(s) && !(s.resumeFragment || s.suspendingTxn) ==>
        r.loader.transactions == s.loader.transactions + [current.(txnId := Numbered(s.nextTxnId + 1))]
        && r.loader.currentTransaction.Some? && r.loader.currentTransaction.value.counters == [counter]
        && r.loader.nonTransactionCounters == s.loader.nonTransactionCounters + s.loader.ephemeralCounters)
      && (!(user.canBeginTxn || user.canResumeTxn || user.canEndTxn || user.canSuspendTxn) ==>
        r.loader.ephemeralCounters == s.loader.ephemeralCounters + [counter]
        && r.loader.currentTransaction == s.loader.currentTransaction)
  {
    var c := s.(loader := Counted(s.loader));
    var user := BoundedUserProbe(probeMap, counter);
    var current := s.loader.currentTransaction.value;
    assert BoundedLoad(s, probeMap, addResumeFragment, counter) == BoundedContinue(c, current, user, addResumeFragment, counter);
    if (user.canBeginTxn || user.canResumeTxn) && IdsAssigned(s) {
      BoundedCloseAccounts(c, current, user.canResumeTxn, addResumeFragment, counter);
      BoundedCloseAppends(c, current, user.canResumeTxn, addResumeFragment, counter);
    }
  }

  /** `endLoad` keeps every counter and leaves no transaction open. */
  lemma BoundedEndLoadAccounts(s: BoundedState)
    ensures var r := BoundedEndLoad(s);
      BoundedHeld(r) == BoundedHeld(s) && r.loader.currentTransaction.None?
      && r.loader.processedCounterCount == s.loader.processedCounterCount
  {
    match s.loader.currentTransaction
    case None =>
    case Some(t) =>
      if t.hasEndProbe {
        var s1 := BoundedAppend(s, t);
        BoundedAppendHeld(s, t);
        HeldReplace(s1.loader, t, t);
        assert Held(s1.loader.(currentTransaction := None)) == Held(s1.loader) - |t.counters|;
      } else {
        CountersInAppend(s.loader.compromisedTransactions, t);
      }
  }

  /** `endLoad` keeps the bounded invariant. */
  lemma BoundedEndLoadIntact(s: BoundedState)
    requires BoundedIntact(s)
    ensures BoundedIntact(BoundedEndLoad(s))
  {
    match s.loader.currentTransaction
    case None =>
    case Some(t) =>
      if t.hasEndProbe {
        BoundedAppendIntact(s, t);
      }
  }

  /**
   * `endLoad` loads the open transaction under the next id iff it has ended (and the loader is
   * not resuming or suspending), and compromises it iff it has not.
   */
  lemma BoundedEndLoadRule(s: BoundedState)
    ensures var r := BoundedEndLoad(s);
      s.loader.currentTransaction.Some? && s.loader.currentTransaction.value.hasEndProbe && IdsAssigned(s)
        && !(s.resumeFragment || s.suspendingTxn) ==>
      r.loader.transactions == s.loader.transactions + [s.loader.currentTransaction.value.(txnId := Numbered(s.nextTxnId + 1))]
      && r.loader.compromisedTransactions == s.loader.compromisedTransactions
    ensures var r := BoundedEndLoad(s);
      s.loader.currentTransaction.Some? && !s.loader.currentTransaction.value.hasEndProbe ==>
      r.loader.compromisedTransactions == s.loader.compromisedTransactions + [s.loader.currentTransaction.value]
      && r.loader.transactions == s.loader.transactions
  {
    match s.loader.currentTransaction
    case None =>
    case Some(t) =>
      if t.hasEndProbe && IdsAssigned(s) {
        BoundedAppendAssigns(s, t);
      }
  }

  /** A bounded loader: the common attributes and the counters of fragment ids and txn ids. */
  class BoundedTransactionLoader {
    const base: AbstractTransactionLoader
    /** The truthiness of `TxnFragments.addResumeFragment(txnId, txn)`. */
    const addResumeFragment: (string, Transaction) -> bool
    var nextTxnId: nat
    var nextFragmentId: nat
    var resumeFragment: bool
    var suspendingTxn: bool
    ghost var heldBack: seq<Transaction>

    ghost function State(): BoundedState
      reads this, base
    {
      BoundedState(base.State(), nextTxnId, nextFragmentId, resumeFragment, suspendingTxn, heldBack)
    }

    constructor(probeMap: map<Probe, Probe>, addResumeFragment: (string, Transaction) -> bool)
      ensures fresh(base) && base.probeMap == probeMap && this.addResumeFragment == addResumeFragment
      ensures State() == BoundedState(INITIAL, 0, 0, false, false, [])
      ensures BoundedIntact(State())
    {
      base := new AbstractTransactionLoader(probeMap);
      this.addResumeFragment := addResumeFragment;
      nextTxnId := 0;
      nextFragmentId := 0;
      resumeFragment := false;
      suspendingTxn := false;
      heldBack := [];
    }

    method AppendTransaction(txn: Transaction)
      modifies this, base
      ensures State() == BoundedAppend(old(State()), txn)
    {
      if !(resumeFragment || suspendingTxn) {
        nextTxnId := nextTxnId + 1;
        base.AppendTransaction(txn.(txnId := Numbered(nextTxnId)));
      } else {
        heldBack := heldBack + [txn];
      }
    }

    method BuildTransaction(counter: Counter, resumeTxn: bool) returns (txn: Transaction)
      modifies this
      ensures (State(), txn) == NextTransaction(old(State()), counter, resumeTxn, addResumeFragment)
    {
      suspendingTxn := false;
      if resumeTxn {
        txn := NewTransaction(counter, Linked(counter.data));
        resumeFragment := addResumeFragment(counter.data, txn);
        return;
      }
      resumeFragment := false;
      nextFragmentId := nextFragmentId + 1;
      txn := NewTransaction(counter, Numbered(nextFragmentId));
    }

    method LoadCounter(counter: Counter)
      modifies this, base
      ensures State() == BoundedLoad(old(State()), base.probeMap, addResumeFragment, counter)
    {
      base.processedCounterCount := base.processedCounterCount + 1;
      assert State() == old(State()).(loader := Counted(old(State()).loader));
      var userProbe := BoundedUserProbe(base.probeMap, counter);
      if base.currentTransaction.Some? {
        Continue(base.currentTransaction.value, userProbe, counter);
      } else {
        Start(userProbe, counter);
      }
    }

    method Continue(current: Transaction, userProbe: Probe, counter: Counter)
      requires base.currentTransaction == Some(current)
      modifies this, base
      ensures State() == BoundedContinue(old(State()), current, userProbe, addResumeFragment, counter)
    {
      if userProbe.canBeginTxn || userProbe.canResumeTxn {
        if current.hasEndProbe || userProbe.canResumeTxn {
          Close(current, userProbe.canResumeTxn, counter);
        } else {
          base.currentTransaction := Some(AddCounter(current, counter, false));
        }
      } else if userProbe.canEndTxn || userProbe.canSuspendTxn {
        var t := current;
        if |base.ephemeralCounters| > 0 {
          t := AddCounters(t, base.ephemeralCounters);
          base.ephemeralCounters := [];
        }
        base.currentTransaction := Some(AddCounter(t, counter, true));
        if userProbe.canSuspendTxn {
          suspendingTxn := suspendingTxn || userProbe.canSuspendTxn;
        }
      } else if current.hasEndProbe {
        base.ephemeralCounters := base.ephemeralCounters + [counter];
      } else {
        base.currentTransaction := Some(AddCounter(current, counter, false));
      }
    }

    method Close(current: Transaction, resumeTxn: bool, counter: Counter)
      requires base.currentTransaction == Some(current)
      modifies this, base
      ensures State() == BoundedClose(old(State()), current, resumeTxn, addResumeFragment, counter)
    {
      if |base.ephemeralCounters| > 0 {
        base.nonTransactionCounters := base.nonTransactionCounters + base.ephemeralCounters;
        base.ephemeralCounters := [];
      }
      assert State() == old(State()).(loader := old(State()).loader.(nonTransactionCounters :=
        old(State()).loader.nonTransactionCounters + old(State()).loader.ephemeralCounters, ephemeralCounters := []));
      AppendTransaction(current);
      var txn := BuildTransaction(counter, resumeTxn);
      base.currentTransaction := Some(txn);
    }

    method Start(userProbe: Probe, counter: Counter)
      requires base.currentTransaction.None?
      modifies this, base
      ensures State() == BoundedStart(old(State()), userProbe, addResumeFragment, counter)
    {
      if userProbe.canBeginTxn || userProbe.canResumeTxn {
        var txn := BuildTransaction(counter, userProbe.canResumeTxn);
        base.currentTransaction := Some(txn);
        if |base.ephemeralCounters| > 0 {
          base.nonTransactionCounters := base.nonTransactionCounters + base.ephemeralCounters;
          base.ephemeralCounters := [];
        }
      } else if userProbe.canEndTxn || userProbe.canSuspendTxn {
        var compromised := BuildTransaction(counter, false);
        compromised := AddCounters(compromised, base.ephemeralCounters);
        base.compromisedTransactions := base.compromisedTransactions + [compromised];
        base.ephemeralCounters := [];
      } else {
        base.ephemeralCounters := base.ephemeralCounters + [counter];
      }
    }

    method EndLoad()
      modifies this, base
      ensures State() == BoundedEndLoad(old(State()))
    {
      if base.currentTransaction.Some? {
        var t := base.currentTransaction.value;
        if t.hasEndProbe {
          AppendTransaction(t);
        } else {
          base.compromisedTransactions := base.compromisedTransactions + [t];
        }
      }
      base.currentTransaction := None;
    }
  }
}
