/**
 * The live candle buffer of the session details page
 * (src/components/sessions/SessionDetailsPage.tsx): candles arriving on the
 * stream are merged by close time, kept newest first, and capped at
 * `MaxRows` rows, while a counter records how many arrived.
 *
 * The page's update rebuilds a map keyed by close time from the current rows,
 * sets the new candle, sorts and truncates. Its partner here is a reference
 * buffer that inserts each candle into place in one pass and is never
 * truncated; the main theorem says that the page's buffer is always the
 * first `MaxRows` rows of the reference.
 */
module KlineBuffer {
  import opened Wrappers
  import opened WsEnvelope
  import opened Ordering

  /** MAX_ROWS. */
  const MaxRows: nat := 200

  /** The key rows are merged and ordered by. */
  function CloseTime(k: Kline): real {
    k.closeTime
  }

  /** Close times strictly decrease along the rows: newest first, no close time twice. */
  predicate NewestFirst(s: seq<Kline>) {
    forall i, j :: 0 <= i < j < |s| ==> s[i].closeTime > s[j].closeTime
  }

  /** No two rows share a close time. */
  predicate UniqueCloseTimes(s: seq<Kline>) {
    forall i, j :: 0 <= i < j < |s| ==> s[i].closeTime != s[j].closeTime
  }

  /** No row has close time `t`. */
  predicate Lacks(s: seq<Kline>, t: real) {
    forall i :: 0 <= i < |s| ==> s[i].closeTime != t
  }

  lemma OrderBridge(s: seq<Kline>)
    ensures NewestFirst(s) <==> StrictlyDesc(s, CloseTime)
    ensures UniqueCloseTimes(s) <==> DistinctKeys(s, CloseTime)
    ensures NewestFirst(s) ==> SortedDesc(s, CloseTime)
  {
  }

  /** `s.slice(0, n)`. */
  function Take<T>(s: seq<T>, n: nat): (r: seq<T>)
    ensures |r| == (if |s| <= n then |s| else n)
    ensures r == s[..|r|]
  {
    if |s| <= n then s else s[..n]
  }

  lemma TakeCons<T>(x: T, s: seq<T>, n: nat)
    requires n > 0
    ensures Take([x] + s, n) == [x] + Take(s, n - 1)
  {
  }

  /** Map#set on a close-time-keyed Map, listed in insertion order: a known key keeps its place. */
  function MapSet(entries: seq<Kline>, k: Kline): (r: seq<Kline>)
    ensures 0 < |r| <= |entries| + 1
  {
    if |entries| == 0 then [k]
    else if entries[0].closeTime == k.closeTime then [k] + entries[1..]
    else [entries[0]] + MapSet(entries[1..], k)
  }

  /**
   * On rows with unique close times, setting a candle keeps them unique, and
   * each resulting row is the new candle or an untouched row with another
   * close time.
   */
  lemma {:induction false} MapSetUnique(e: seq<Kline>, k: Kline)
    requires UniqueCloseTimes(e)
    ensures UniqueCloseTimes(MapSet(e, k))
    ensures forall j :: 0 <= j < |MapSet(e, k)| ==>
      MapSet(e, k)[j] == k || (MapSet(e, k)[j] in e && MapSet(e, k)[j].closeTime != k.closeTime)
  {
    if |e| > 0 {
      if e[0].closeTime == k.closeTime {
        assert forall j :: 1 <= j < |e| ==> e[j].closeTime != k.closeTime;
      } else {
        MapSetUnique(e[1..], k);
        var r := MapSet(e, k);
        assert r[1..] == MapSet(e[1..], k);
        forall j | 1 <= j < |r| ensures r[j].closeTime != e[0].closeTime {
          if r[j] != k {
            var m :| 0 <= m < |e[1..]| && e[1..][m] == r[j];
            assert e[m + 1] == r[j];
          }
        }
      }
    }
  }

  /** `new Map(rows.map(row => [row.closeTime, row]))`, listed in insertion order. */
  function MapOf(rows: seq<Kline>): seq<Kline> {
    if |rows| == 0 then [] else MapSet(MapOf(rows[..|rows| - 1]), rows[|rows| - 1])
  }

  /** Rebuilding the map gives unique close times, drawn from the rows. */
  lemma {:induction false} MapOfUnique(rows: seq<Kline>)
    ensures UniqueCloseTimes(MapOf(rows))
    ensures forall x :: x in MapOf(rows) ==> x in rows
  {
    if |rows| > 0 {
      var init := rows[..|rows| - 1];
      MapOfUnique(init);
      MapSetUnique(MapOf(init), rows[|rows| - 1]);
      forall x | x in MapOf(rows) ensures x in rows {
        var j :| 0 <= j < |MapOf(rows)| && MapOf(rows)[j] == x;
        if x != rows[|rows| - 1] {
          assert x in init;
          var m :| 0 <= m < |init| && init[m] == x;
          assert rows[m] == x;
        }
      }
    }
  }

  /** handleKline's row update: merge by close time, sort newest first, keep the first `MaxRows`. */
  function HandleKline(rows: seq<Kline>, k: Kline): seq<Kline> {
    Take(SortDesc(MapSet(MapOf(rows), k), CloseTime), MaxRows)
  }

  /**
   * Whatever the current rows, the update's result is strictly newest first,
   * at most `MaxRows` long, made of the new candle and current rows only, and
   * holds no other row with the new candle's close time.
   */
  lemma HandleKlineShape(rows: seq<Kline>, k: Kline)
    ensures NewestFirst(HandleKline(rows, k))
    ensures |HandleKline(rows, k)| <= MaxRows
    ensures forall x :: x in HandleKline(rows, k) ==> x == k || (x in rows && x.closeTime != k.closeTime)
  {
    HandleKlineOrder(rows, k);
    HandleKlineMembers(rows, k);
  }

  lemma HandleKlineOrder(rows: seq<Kline>, k: Kline)
    ensures NewestFirst(HandleKline(rows, k))
  {
    MapOfUnique(rows);
    var merged := MapSet(MapOf(rows), k);
    MapSetUnique(MapOf(rows), k);
    OrderBridge(merged);
    var sorted := SortDesc(merged, CloseTime);
    SortDescStrict(merged, CloseTime);
    OrderBridge(sorted);
  }

  lemma HandleKlineMembers(rows: seq<Kline>, k: Kline)
    ensures forall x :: x in HandleKline(rows, k) ==> x == k || (x in rows && x.closeTime != k.closeTime)
  {
    MapOfUnique(rows);
    var merged := MapSet(MapOf(rows), k);
    MapSetUnique(MapOf(rows), k);
    var sorted := SortDesc(merged, CloseTime);
    forall x | x in HandleKline(rows, k) ensures x == k || (x in rows && x.closeTime != k.closeTime) {
      assert x in sorted;
      assert x in merged by { assert x in multiset(sorted); }
      var j :| 0 <= j < |merged| && merged[j] == x;
    }
  }

  // The reference buffer.

  /** A candle put into its place in newest-first rows, replacing the row with its close time. */
  function Ins(s: seq<Kline>, k: Kline): seq<Kline> {
    if |s| == 0 then [k]
    else if k.closeTime > s[0].closeTime then [k] + s
    else if k.closeTime == s[0].closeTime then [k] + s[1..]
    else [s[0]] + Ins(s[1..], k)
  }

  /** Rows all older than `b`, plus a candle older than `b`, stay older than `b`. */
  lemma {:induction false} InsBound(s: seq<Kline>, k: Kline, b: real)
    requires forall i :: 0 <= i < |s| ==> s[i].closeTime < b
    requires k.closeTime < b
    ensures forall i :: 0 <= i < |Ins(s, k)| ==> Ins(s, k)[i].closeTime < b
  {
    if |s| > 0 && k.closeTime < s[0].closeTime {
      InsBound(s[1..], k, b);
    }
  }

  /** Insertion keeps the rows newest first. */
  lemma {:induction false} InsNewestFirst(s: seq<Kline>, k: Kline)
    requires NewestFirst(s)
    ensures NewestFirst(Ins(s, k))
  {
    if |s| > 0 && k.closeTime < s[0].closeTime {
      InsNewestFirst(s[1..], k);
      InsBound(s[1..], k, s[0].closeTime);
    }
  }

  /** The inserted candle is a row, and so is every row with another close time. */
  lemma {:induction false} InsKeeps(s: seq<Kline>, k: Kline)
    ensures k in Ins(s, k)
    ensures forall i :: 0 <= i < |s| && s[i].closeTime != k.closeTime ==> s[i] in Ins(s, k)
  {
    if |s| > 0 && k.closeTime < s[0].closeTime {
      InsKeeps(s[1..], k);
      forall i | 1 <= i < |s| && s[i].closeTime != k.closeTime ensures s[i] in Ins(s, k) {
        assert s[1..][i - 1] == s[i];
      }
    }
  }

  /** On newest-first rows, every row after insertion is the candle or a row with another close time. */
  lemma {:induction false} InsRows(s: seq<Kline>, k: Kline)
    requires NewestFirst(s)
    ensures forall x :: x in Ins(s, k) ==> x == k || (x in s && x.closeTime != k.closeTime)
  {
    if |s| > 0 {
      if k.closeTime > s[0].closeTime {
        forall x | x in Ins(s, k) ensures x == k || (x in s && x.closeTime != k.closeTime) {
          var j :| 0 <= j < |Ins(s, k)| && Ins(s, k)[j] == x;
          if j > 0 { assert x == s[j - 1]; }
        }
      } else if k.closeTime == s[0].closeTime {
        forall x | x in Ins(s, k) ensures x == k || (x in s && x.closeTime != k.closeTime) {
          var j :| 0 <= j < |Ins(s, k)| && Ins(s, k)[j] == x;
          if j > 0 { assert x == s[j]; }
        }
      } else {
        InsRows(s[1..], k);
        InsRowsPast(s, k);
      }
    }
  }

  /** Past an older candle's position, the rows of the insertion into the tail carry over. */
  lemma InsRowsPast(s: seq<Kline>, k: Kline)
    requires |s| > 0 && k.closeTime < s[0].closeTime
    requires forall x :: x in Ins(s[1..], k) ==> x == k || (x in s[1..] && x.closeTime != k.closeTime)
    ensures forall x :: x in Ins(s, k) ==> x == k || (x in s && x.closeTime != k.closeTime)
  {
    assert Ins(s, k) == [s[0]] + Ins(s[1..], k);
    forall x | x in Ins(s, k) ensures x == k || (x in s && x.closeTime != k.closeTime) {
      if x != s[0] {
        assert x in Ins(s[1..], k);
        if x != k {
          var m :| 0 <= m < |s[1..]| && s[1..][m] == x;
          assert s[m + 1] == x;
        }
      }
    }
  }

  /** The reference buffer after a sequence of arrivals: every candle inserted in turn, nothing dropped. */
  function Full(ks: seq<Kline>): seq<Kline> {
    if |ks| == 0 then [] else Ins(Full(ks[..|ks| - 1]), ks[|ks| - 1])
  }

  /** The last candle of `ks` with close time `t`, if any. */
  function LatestFor(ks: seq<Kline>, t: real): (r: Option<Kline>)
    ensures r.Some? ==> r.value.closeTime == t && r.value in ks
  {
    if |ks| == 0 then None
    else if ks[|ks| - 1].closeTime == t then Some(ks[|ks| - 1])
    else
      var r := LatestFor(ks[..|ks| - 1], t);
      assert r.Some? ==> r.value in ks by {
        if r.Some? {
          var i :| 0 <= i < |ks| - 1 && ks[..|ks| - 1][i] == r.value;
          assert ks[i] == r.value;
        }
      }
      r
  }

  /**
   * The reference buffer is strictly newest first; each row is the latest
   * candle that arrived with its close time, and the latest candle of every
   * close time that arrived is a row.
   */
  lemma {:induction false} FullSpec(ks: seq<Kline>)
    ensures NewestFirst(Full(ks))
    ensures forall x :: x in Full(ks) ==> LatestFor(ks, x.closeTime) == Some(x)
    ensures forall t :: LatestFor(ks, t).Some? ==> LatestFor(ks, t).value in Full(ks)
  {
    if |ks| > 0 {
      var init, last := ks[..|ks| - 1], ks[|ks| - 1];
      FullSpec(init);
      var f := Full(init);
      InsNewestFirst(f, last);
      InsRows(f, last);
      InsKeeps(f, last);
      forall t | LatestFor(ks, t).Some? ensures LatestFor(ks, t).value in Full(ks) {
        if t != last.closeTime {
          var y := LatestFor(init, t).value;
          var j :| 0 <= j < |f| && f[j] == y;
        }
      }
    }
  }

  // Agreement of the page's buffer with the reference.

  lemma {:induction false} MapSetAbsent(e: seq<Kline>, k: Kline)
    requires Lacks(e, k.closeTime)
    ensures MapSet(e, k) == e + [k]
  {
    if |e| > 0 {
      MapSetAbsent(e[1..], k);
      assert e == [e[0]] + e[1..];
    }
  }

  /** Rows with unique close times rebuild to themselves through the map. */
  lemma {:induction false} MapOfIdentity(rows: seq<Kline>)
    requires UniqueCloseTimes(rows)
    ensures MapOf(rows) == rows
  {
    if |rows| > 0 {
      var init := rows[..|rows| - 1];
      MapOfIdentity(init);
      MapSetAbsent(init, rows[|rows| - 1]);
      assert init + [rows[|rows| - 1]] == rows;
    }
  }

  lemma {:induction false} MapSetPresent(e: seq<Kline>, k: Kline, i: nat)
    requires i < |e| && e[i].closeTime == k.closeTime
    requires Lacks(e[..i], k.closeTime)
    ensures MapSet(e, k) == e[i := k]
  {
    if i > 0 {
      assert e[1..][..i - 1] == e[..i][1..];
      MapSetPresent(e[1..], k, i - 1);
      assert e[i := k] == [e[0]] + e[1..][i - 1 := k];
    }
  }

  lemma {:induction false} InsPresent(s: seq<Kline>, k: Kline, i: nat)
    requires NewestFirst(s) && i < |s| && s[i].closeTime == k.closeTime
    ensures Ins(s, k) == s[i := k]
  {
    if i > 0 {
      InsPresent(s[1..], k, i - 1);
      assert s[i := k] == [s[0]] + s[1..][i - 1 := k];
    }
  }

  lemma {:induction false} InsAbsent(s: seq<Kline>, k: Kline)
    requires NewestFirst(s) && Lacks(s, k.closeTime)
    ensures Ins(s, k) == InsertDesc(s, k, CloseTime)
  {
    if |s| > 0 {
      InsAbsent(s[1..], k);
    }
  }

  /** On newest-first rows the page's update is the reference insertion, then the cap. */
  lemma HandleKlineIsCappedIns(rows: seq<Kline>, k: Kline)
    requires NewestFirst(rows)
    ensures HandleKline(rows, k) == Take(Ins(rows, k), MaxRows)
  {
    MapOfIdentity(rows);
    if i :| 0 <= i < |rows| && rows[i].closeTime == k.closeTime {
      MapSetPresent(rows, k, i);
      InsPresent(rows, k, i);
      InsNewestFirst(rows, k);
      OrderBridge(rows[i := k]);
      SortDescOfSorted(rows[i := k], CloseTime);
    } else {
      MapSetAbsent(rows, k);
      InsAbsent(rows, k);
      assert (rows + [k])[..|rows|] == rows;
      OrderBridge(rows);
      SortDescOfSorted(rows, CloseTime);
    }
  }

  /** Capping before or after an insertion keeps the same first `n` rows. */
  lemma {:induction false} TakeIns(f: seq<Kline>, k: Kline, n: nat)
    ensures Take(Ins(Take(f, n), k), n) == Take(Ins(f, k), n)
  {
    if n > 0 && |f| > 0 {
      var t := Take(f, n);
      TakeCons(f[0], f[1..], n);
      assert f == [f[0]] + f[1..];
      assert t[0] == f[0] && t[1..] == Take(f[1..], n - 1);
      if k.closeTime > f[0].closeTime {
        TakeCons(k, t, n);
        TakeCons(k, f, n);
        TakeTake(f, n - 1, n);
      } else if k.closeTime == f[0].closeTime {
        TakeCons(k, t[1..], n);
        TakeCons(k, f[1..], n);
        TakeTake(f[1..], n - 1, n - 1);
      } else {
        TakeIns(f[1..], k, n - 1);
        TakeCons(f[0], Ins(t[1..], k), n);
        TakeCons(f[0], Ins(f[1..], k), n);
      }
    }
  }

  lemma TakeTake<T>(s: seq<T>, m: nat, n: nat)
    requires m <= n
    ensures Take(Take(s, n), m) == Take(s, m)
  {
  }

  /** The rows after a sequence of arrivals, starting from an empty buffer. */
  function Replay(ks: seq<Kline>): seq<Kline> {
    if |ks| == 0 then [] else HandleKline(Replay(ks[..|ks| - 1]), ks[|ks| - 1])
  }

  /** One more candle replays as one more update. */
  lemma ReplaySnoc(ks: seq<Kline>, k: Kline)
    ensures Replay(ks + [k]) == HandleKline(Replay(ks), k)
  {
    assert (ks + [k])[..|ks|] == ks;
  }

  /** The page's buffer is always the first `MaxRows` rows of the reference buffer. */
  lemma {:induction false} ReplayIsCappedFull(ks: seq<Kline>)
    ensures Replay(ks) == Take(Full(ks), MaxRows)
  {
    if |ks| > 0 {
      var init, last := ks[..|ks| - 1], ks[|ks| - 1];
      ReplayIsCappedFull(init);
      FullSpec(init);
      HandleKlineIsCappedIns(Take(Full(init), MaxRows), last);
      TakeIns(Full(init), last, MaxRows);
    }
  }

  /**
   * A row missing from the first `MaxRows` rows of a newest-first buffer
   * sits past the cap: the capped rows are all there are room for, and all
   * are newer.
   */
  lemma CapHidesOnlyOlder(f: seq<Kline>, j: nat)
    requires NewestFirst(f) && j < |f| && Lacks(Take(f, MaxRows), f[j].closeTime)
    ensures |Take(f, MaxRows)| == MaxRows
    ensures forall i :: 0 <= i < MaxRows ==> Take(f, MaxRows)[i].closeTime > f[j].closeTime
  {
    var r := Take(f, MaxRows);
    if j < |r| {
      assert false;
    }
  }

  /**
   * What the page shows after any sequence of arrivals: newest first, each
   * row the latest candle with its close time, and a close time that arrived
   * is missing only when the buffer is full and every shown row is newer.
   */
  lemma ReplaySpec(ks: seq<Kline>)
    ensures NewestFirst(Replay(ks))
    ensures forall x :: x in Replay(ks) ==> LatestFor(ks, x.closeTime) == Some(x)
    ensures forall t :: LatestFor(ks, t).Some? && Lacks(Replay(ks), t) ==>
      |Replay(ks)| == MaxRows && forall i :: 0 <= i < MaxRows ==> Replay(ks)[i].closeTime > t
  {
    ReplayIsCappedFull(ks);
    FullSpec(ks);
    forall x | x in Replay(ks) ensures LatestFor(ks, x.closeTime) == Some(x) {
      ReplayRowLatest(ks, x);
    }
    forall t | LatestFor(ks, t).Some? && Lacks(Replay(ks), t)
      ensures |Replay(ks)| == MaxRows && forall i :: 0 <= i < MaxRows ==> Replay(ks)[i].closeTime > t
    {
      ReplayMissingOlder(ks, t);
    }
  }

  /** A shown row is the latest candle with its close time. */
  lemma ReplayRowLatest(ks: seq<Kline>, x: Kline)
    requires x in Replay(ks)
    ensures LatestFor(ks, x.closeTime) == Some(x)
  {
    ReplayIsCappedFull(ks);
    FullSpec(ks);
    var r := Replay(ks);
    var i :| 0 <= i < |r| && r[i] == x;
    assert Full(ks)[i] == x;
  }

  /** A close time that arrived but is not shown is older than every row of a full buffer. */
  lemma ReplayMissingOlder(ks: seq<Kline>, t: real)
    requires LatestFor(ks, t).Some? && Lacks(Replay(ks), t)
    ensures |Replay(ks)| == MaxRows && forall i :: 0 <= i < MaxRows ==> Replay(ks)[i].closeTime > t
  {
    ReplayIsCappedFull(ks);
    FullSpec(ks);
    var f := Full(ks);
    var j :| 0 <= j < |f| && f[j] == LatestFor(ks, t).value;
    CapHidesOnlyOlder(f, j);
  }

  /** The number of leading rows at least as new as `k`: where insertion puts it. */
  function Position(s: seq<Kline>, k: Kline): (p: nat)
    ensures p <= |s|
  {
    if |s| == 0 || k.closeTime > s[0].closeTime then 0 else 1 + Position(s[1..], k)
  }

  /** Insertion splits the rows at the candle's position. */
  lemma {:induction false} InsertAtPosition(s: seq<Kline>, k: Kline)
    ensures InsertDesc(s, k, CloseTime) == s[..Position(s, k)] + [k] + s[Position(s, k)..]
  {
    if |s| > 0 && k.closeTime <= s[0].closeTime {
      InsertCons(s, k);
      InsertAtPosition(s[1..], k);
      ConsSplit(s, Position(s[1..], k), k);
    }
  }

  /** Past a row at least as new as the candle, insertion and its position move one row on. */
  lemma InsertCons(s: seq<Kline>, k: Kline)
    requires |s| > 0 && k.closeTime <= s[0].closeTime
    ensures InsertDesc(s, k, CloseTime) == [s[0]] + InsertDesc(s[1..], k, CloseTime)
    ensures Position(s, k) == Position(s[1..], k) + 1
  {
  }

  /** Splitting after one more leading row. */
  lemma ConsSplit(s: seq<Kline>, p: nat, k: Kline)
    requires p < |s|
    ensures [s[0]] + (s[1..][..p] + [k] + s[1..][p..]) == s[..p + 1] + [k] + s[p + 1..]
  {
    assert s[..p + 1] == [s[0]] + s[1..][..p];
    assert s[p + 1..] == s[1..][p..];
  }

  /** Rows before the position are at least as new as the candle; the row at it is older. */
  lemma {:induction false} PositionSeparates(s: seq<Kline>, k: Kline)
    ensures forall i :: 0 <= i < Position(s, k) ==> s[i].closeTime >= k.closeTime
    ensures Position(s, k) < |s| ==> s[Position(s, k)].closeTime < k.closeTime
  {
    if |s| > 0 && k.closeTime <= s[0].closeTime {
      PositionSeparates(s[1..], k);
      forall i | 1 <= i < Position(s, k) ensures s[i].closeTime >= k.closeTime {
        assert s[1..][i - 1] == s[i];
      }
    }
  }

  /** One update on a buffer holding the candle's close time replaces that row in place. */
  lemma HandleKlineReplaces(rows: seq<Kline>, k: Kline, i: nat)
    requires NewestFirst(rows) && |rows| <= MaxRows && i < |rows| && rows[i].closeTime == k.closeTime
    ensures HandleKline(rows, k) == rows[i := k]
  {
    HandleKlineIsCappedIns(rows, k);
    InsPresent(rows, k, i);
  }

  /**
   * One update on a valid buffer (newest first, at most `MaxRows` rows) that
   * lacks the candle's close time: the candle goes in at its position, the
   * buffer grows by one until it is full, and a full buffer drops its oldest
   * row, or the candle itself when it is older than every row.
   */
  lemma HandleKlineInserts(rows: seq<Kline>, k: Kline)
    requires NewestFirst(rows) && |rows| <= MaxRows && Lacks(rows, k.closeTime)
    ensures HandleKline(rows, k) == Take(rows[..Position(rows, k)] + [k] + rows[Position(rows, k)..], MaxRows)
    ensures |HandleKline(rows, k)| == (if |rows| < MaxRows then |rows| + 1 else MaxRows)
    ensures k in HandleKline(rows, k) <==> |rows| < MaxRows || k.closeTime > rows[|rows| - 1].closeTime
  {
    HandleKlineIsCappedIns(rows, k);
    InsAbsent(rows, k);
    InsertAtPosition(rows, k);
    CapKeepsCandle(rows, k);
  }

  /** Capping the split rows keeps the candle unless the buffer was full and every row is newer. */
  lemma CapKeepsCandle(rows: seq<Kline>, k: Kline)
    requires NewestFirst(rows) && |rows| <= MaxRows && Lacks(rows, k.closeTime)
    ensures var r := rows[..Position(rows, k)] + [k] + rows[Position(rows, k)..];
      k in Take(r, MaxRows) <==> |rows| < MaxRows || k.closeTime > rows[|rows| - 1].closeTime
  {
    PositionSeparates(rows, k);
    var p := Position(rows, k);
    var r := rows[..p] + [k] + rows[p..];
    assert r[p] == k;
    if |rows| == MaxRows {
      if p == |rows| {
        assert Take(r, MaxRows) == rows;
        assert k !in rows;
        assert rows[|rows| - 1].closeTime >= k.closeTime;
      } else {
        assert rows[|rows| - 1].closeTime <= rows[p].closeTime;
      }
    }
  }
}
