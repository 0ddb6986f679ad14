/**
 * Which cached queries the dashboard invalidates when datasets change: the
 * fixed set invalidated after a dataset mutation or a list refetch, and the
 * keys derived from the difference between two observations of the ready
 * datasets. A key ending in `None` is a prefix and invalidates every query
 * under it.
 */
module QueryInvalidation {
  import opened Wrappers

  datatype QueryKey =
    | Datasets
    | DatasetSymbols
    | DatasetIntervals(symbol: Option<string>)
    | DatasetRange(symbol: Option<string>, interval: Option<string>)

  /**
   * `invalidateDatasetDependentQueries`: the symbol, interval and range
   * queries always, the list itself unless `skipDatasets`.
   */
  function InvalidateDatasetDependent(skipDatasets: bool): (r: set<QueryKey>)
    ensures DatasetSymbols in r && DatasetIntervals(None) in r && DatasetRange(None, None) in r
    ensures Datasets in r <==> !skipDatasets
    ensures forall q :: q in r ==> (q == Datasets || q == DatasetSymbols || q == DatasetIntervals(None)
      || q == DatasetRange(None, None))
  {
    (if skipDatasets then {} else {Datasets}) + {DatasetSymbols, DatasetIntervals(None), DatasetRange(None, None)}
  }

  /** A refetch of the list invalidates everything that depends on it, except the list it just fetched. */
  lemma RefetchSkipsList()
    ensures InvalidateDatasetDependent(true) == InvalidateDatasetDependent(false) - {Datasets}
  {
  }

  // The ready-set key: `${symbol}::${interval}`.

  /** A dataset as listed. */
  datatype Summary = Summary(symbol: string, interval: string, status: string)

  function Join(symbol: string, interval: string): string {
    symbol + "::" + interval
  }

  /** The texts the key format can take apart again. */
  predicate NoColon(s: string) {
    forall j :: 0 <= j < |s| ==> s[j] != ':'
  }

  /** A "::" starts at position `j` of `s`. */
  predicate SepAt(s: string, j: int) {
    0 <= j && j + 1 < |s| && s[j] == ':' && s[j + 1] == ':'
  }

  /** The position of the first "::" at or after `from`, or `|s|` when there is none. */
  function FindSep(s: string, from: nat): (r: nat)
    requires from <= |s|
    ensures from <= r <= |s|
    ensures r < |s| ==> SepAt(s, r)
    ensures forall j :: from <= j < r ==> !SepAt(s, j)
    decreases |s| - from
  {
    if from + 1 >= |s| then |s|
    else if s[from] == ':' && s[from + 1] == ':' then from
    else FindSep(s, from + 1)
  }

  /** `const [symbol, interval] = key.split("::")`: the first two pieces; the second is absent without a "::". */
  function SplitPair(key: string): (string, Option<string>) {
    var i := FindSep(key, 0);
    if i == |key| then (key, None) else (key[..i], Some(key[i + 2..FindSep(key, i + 2)]))
  }

  /** The search stops at the first "::" and only there. */
  lemma FindSepSkips(s: string, from: nat, to: nat)
    requires from <= to <= |s|
    requires forall j :: from <= j < to ==> !SepAt(s, j)
    requires to == |s| || SepAt(s, to)
    ensures FindSep(s, from) == to
  {
  }

  /** Splitting a joined key gives back its parts when neither contains a colon. */
  lemma SplitJoin(symbol: string, interval: string)
    requires NoColon(symbol) && NoColon(interval)
    ensures SplitPair(Join(symbol, interval)) == (symbol, Some(interval))
  {
    var k := Join(symbol, interval);
    FindSepSkips(k, 0, |symbol|);
    FindSepSkips(k, |symbol| + 2, |k|);
    assert k[..|symbol|] == symbol;
    assert k[|symbol| + 2..|k|] == interval;
  }

  /** Without that condition the split can cut elsewhere: a symbol ending in ':' loses it to the interval. */
  lemma TrailingColonSplitsEarly()
    ensures SplitPair(Join("a:", "1m")) == ("a", Some(":1m"))
  {
    var k := Join("a:", "1m");
    assert k == "a:::1m";
    FindSepSkips(k, 0, 1);
    FindSepSkips(k, 3, |k|);
    assert k[..1] == "a";
    assert k[3..|k|] == ":1m";
  }

  /** The keys of the datasets whose status is exactly "ready". */
  function ReadySet(ds: seq<Summary>): (r: set<string>)
    ensures forall d :: d in ds && d.status == "ready" ==> Join(d.symbol, d.interval) in r
  {
    set d | d in ds && d.status == "ready" :: Join(d.symbol, d.interval)
  }

  /** Every ready key comes from a listed dataset whose status is "ready". */
  lemma ReadyKeyOrigin(ds: seq<Summary>, k: string)
    requires k in ReadySet(ds)
    ensures exists d :: d in ds && d.status == "ready" && k == Join(d.symbol, d.interval)
  {
  }

  /** The effect's memory: the last ready set it acted on, and whether it has acted at all. */
  datatype Tracker = Tracker(ready: set<string>, tracked: bool)

  /** `hasChanges` as `useDatasets` computes it: first observation, a different size, or a new key. */
  predicate HasChanges(t: Tracker, next: set<string>) {
    !t.tracked || |t.ready| != |next| || exists k :: k in next && k !in t.ready
  }

  /** `hasChanges` holds exactly on the first observation or when the ready set differs. */
  lemma HasChangesIff(t: Tracker, next: set<string>)
    ensures HasChanges(t, next) <==> !t.tracked || t.ready != next
  {
    if t.tracked && |t.ready| == |next| && next <= t.ready {
      var extra := t.ready - next;
      assert t.ready == next + extra;
      assert |t.ready| == |next| + |extra|;
      assert extra == {};
    }
  }

  /** The symbol `useDatasets` reads off a key with `split("::")`. */
  function SymbolOf(key: string): string {
    SplitPair(key).0
  }

  /** The range key `useDatasets` builds by splitting, re-joining and splitting again. */
  function RangeKeyOf(key: string): (r: QueryKey)
    ensures r.DatasetRange?
  {
    var (symbol, interval) := SplitPair(key);
    var rejoined := symbol + "::" + (if interval.Some? then interval.value else "undefined");
    var (s2, i2) := SplitPair(rejoined);
    DatasetRange(Some(s2), i2)
  }

  /** The interval queries of the symbols of `keys`. */
  function IntervalKeys(keys: set<string>): (r: set<QueryKey>)
    ensures forall k :: k in keys ==> DatasetIntervals(Some(SymbolOf(k))) in r
    ensures forall q :: q in r ==> q.DatasetIntervals?
  {
    set k | k in keys :: DatasetIntervals(Some(SymbolOf(k)))
  }

  /** The range queries of `keys`. */
  function RangeKeys(keys: set<string>): (r: set<QueryKey>)
    ensures forall k :: k in keys ==> RangeKeyOf(k) in r
    ensures forall q :: q in r ==> q.DatasetRange?
  {
    set k | k in keys :: RangeKeyOf(k)
  }

  /** The keys invalidated on a change: the symbol list, and the interval and range queries of every affected key. */
  function ChangeInvalidations(prev: set<string>, next: set<string>): (r: set<QueryKey>)
    ensures DatasetSymbols in r
    ensures forall q :: q in r ==> q == DatasetSymbols || q.DatasetIntervals? || q.DatasetRange?
  {
    {DatasetSymbols} + IntervalKeys(prev + next) + RangeKeys(prev + next)
  }

  /** Every key ready before or after a change has its interval and range queries invalidated. */
  lemma ChangeInvalidationsCover(prev: set<string>, next: set<string>, k: string)
    requires k in prev + next
    ensures DatasetIntervals(Some(SymbolOf(k))) in ChangeInvalidations(prev, next)
    ensures RangeKeyOf(k) in ChangeInvalidations(prev, next)
  {
  }

  /**
   * Every query a change invalidates is the symbol list, or the interval or
   * range query of a key ready before or after it; the dataset list never is.
   */
  lemma ChangeInvalidationsOnly(prev: set<string>, next: set<string>, q: QueryKey)
    requires q in ChangeInvalidations(prev, next)
    ensures q != Datasets
    ensures q.DatasetRange? ==> exists k :: k in prev + next && q == RangeKeyOf(k)
    ensures q.DatasetIntervals? ==> exists k :: k in prev + next && q == DatasetIntervals(Some(SymbolOf(k)))
  {
    if q != DatasetSymbols {
      var k := InvalidatedKey(prev, next, q);
    }
  }

  /** The ready key behind an interval or range query a change invalidates. */
  lemma InvalidatedKey(prev: set<string>, next: set<string>, q: QueryKey) returns (k: string)
    requires q in ChangeInvalidations(prev, next) && q != DatasetSymbols
    ensures k in prev + next
    ensures q.DatasetRange? || q.DatasetIntervals?
    ensures q.DatasetRange? ==> q == RangeKeyOf(k)
    ensures q.DatasetIntervals? ==> q == DatasetIntervals(Some(SymbolOf(k)))
  {
    if q in RangeKeys(prev + next) {
      k := RangeKeySource(prev + next, q);
    } else {
      k := IntervalKeySource(prev + next, q);
    }
  }

  /** The key a range query of `RangeKeys(keys)` was built from. */
  lemma RangeKeySource(keys: set<string>, q: QueryKey) returns (k: string)
    requires q in RangeKeys(keys)
    ensures k in keys && q == RangeKeyOf(k)
  {
    k :| k in keys && q == RangeKeyOf(k);
  }

  /** The key an interval query of `IntervalKeys(keys)` was built from. */
  lemma IntervalKeySource(keys: set<string>, q: QueryKey) returns (k: string)
    requires q in IntervalKeys(keys)
    ensures k in keys && q == DatasetIntervals(Some(SymbolOf(k)))
  {
    k :| k in keys && q == DatasetIntervals(Some(SymbolOf(k)));
  }

  /**
   * The effect on a new list: nothing without data; nothing, and no update
   * of its memory, when the ready set is unchanged; otherwise remember the
   * new ready set and invalidate.
   */
  function ReadyEffect(t: Tracker, data: Option<seq<Summary>>): (r: (Tracker, set<QueryKey>))
    ensures data.None? ==> r == (t, {})
    ensures data.Some? && t.tracked && t.ready == ReadySet(data.value) ==> r == (t, {})
    ensures data.Some? && (!t.tracked || t.ready != ReadySet(data.value)) ==>
      r == (Tracker(ReadySet(data.value), true), ChangeInvalidations(t.ready, ReadySet(data.value)))
  {
    match data
    case None => (t, {})
    case Some(ds) =>
      var next := ReadySet(ds);
      HasChangesIff(t, next);
      if !HasChanges(t, next) then (t, {})
      else (Tracker(next, true), ChangeInvalidations(t.ready, next))
  }

  /** Datasets whose symbol and interval contain no colon. */
  predicate ColonFree(ds: seq<Summary>) {
    forall d :: d in ds ==> NoColon(d.symbol) && NoColon(d.interval)
  }

  /**
   * When the ready set changes between two observations, the range of every
   * dataset ready in either is invalidated, and so are the intervals of its
   * symbol.
   */
  lemma ChangedReadyCovers(prevDs: seq<Summary>, ds: seq<Summary>)
    requires ColonFree(prevDs) && ColonFree(ds)
    requires ReadySet(prevDs) != ReadySet(ds)
    ensures var inv := ReadyEffect(Tracker(ReadySet(prevDs), true), Some(ds)).1;
      forall d :: (d in prevDs || d in ds) && d.status == "ready" ==>
        DatasetRange(Some(d.symbol), Some(d.interval)) in inv && DatasetIntervals(Some(d.symbol)) in inv
  {
    var prev, next := ReadySet(prevDs), ReadySet(ds);
    var inv := ReadyEffect(Tracker(prev, true), Some(ds)).1;
    assert inv == ChangeInvalidations(prev, next);
    forall d | (d in prevDs || d in ds) && d.status == "ready"
      ensures DatasetRange(Some(d.symbol), Some(d.interval)) in inv && DatasetIntervals(Some(d.symbol)) in inv
    {
      assert Join(d.symbol, d.interval) in prev + next;
      ChangeInvalidationsCover(prev, next, Join(d.symbol, d.interval));
      RangeOfJoin(d.symbol, d.interval);
    }
  }

  /**
   * Conversely, every query a change invalidates is the symbol list, or the
   * range or the intervals of a dataset ready before or after it.
   */
  lemma ChangedReadyOnlyAffected(prevDs: seq<Summary>, ds: seq<Summary>, q: QueryKey)
    requires ColonFree(prevDs) && ColonFree(ds)
    requires q in ReadyEffect(Tracker(ReadySet(prevDs), true), Some(ds)).1
    ensures q == DatasetSymbols || q.DatasetIntervals? || q.DatasetRange?
    ensures q.DatasetRange? ==>
      exists d :: (d in prevDs || d in ds) && d.status == "ready" && q == DatasetRange(Some(d.symbol), Some(d.interval))
    ensures q.DatasetIntervals? ==>
      exists d :: (d in prevDs || d in ds) && d.status == "ready" && q == DatasetIntervals(Some(d.symbol))
  {
    var prev, next := ReadySet(prevDs), ReadySet(ds);
    assert q in ChangeInvalidations(prev, next);
    if q != DatasetSymbols {
      var k := InvalidatedKey(prev, next, q);
      var d;
      if k in prev {
        d := ReadyKeyWitness(prevDs, k);
      } else {
        d := ReadyKeyWitness(ds, k);
      }
      RangeOfJoin(d.symbol, d.interval);
      assert q.DatasetRange? ==> q == DatasetRange(Some(d.symbol), Some(d.interval));
      assert q.DatasetIntervals? ==> q == DatasetIntervals(Some(d.symbol));
    }
  }

  /** A ready dataset that a key in the ready set comes from. */
  lemma ReadyKeyWitness(ds: seq<Summary>, k: string) returns (d: Summary)
    requires k in ReadySet(ds)
    ensures d in ds && d.status == "ready" && k == Join(d.symbol, d.interval)
  {
    ReadyKeyOrigin(ds, k);
    d :| d in ds && d.status == "ready" && k == Join(d.symbol, d.interval);
  }

  /** The symbol and range a colon-free key yields are its own. */
  lemma RangeOfJoin(symbol: string, interval: string)
    requires NoColon(symbol) && NoColon(interval)
    ensures SymbolOf(Join(symbol, interval)) == symbol
    ensures RangeKeyOf(Join(symbol, interval)) == DatasetRange(Some(symbol), Some(interval))
  {
    SplitJoin(symbol, interval);
  }

  /** A second observation of the same list invalidates nothing. */
  lemma SameListQuiet(t: Tracker, ds: seq<Summary>)
    ensures var (t1, _) := ReadyEffect(t, Some(ds)); ReadyEffect(t1, Some(ds)) == (t1, {})
  {
  }
}
