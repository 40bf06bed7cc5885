/**
 * Price-history reconstruction (`getQuestionPriceHistory` in
 * src/controllers/questionController.ts): the timeframe window, the bucketing of BUY
 * transactions by minute, the chronological sort of the buckets and the forward fill
 * of each side's price.
 */
module PriceHistory {
  import opened Common
  import opened Sorting

  const MillisPerMinute: int := 60 * 1000
  const MillisPerHour: int := 60 * MillisPerMinute

  /** A fetched BUY transaction: the fields the query selects that the bucketing reads. */
  datatype Tx = Tx(pricePerToken: real, tokenType: Side, createdAt: int)

  /** One point of the series; a side without a price is `None` (`null`). */
  datatype PricePoint = PricePoint(timestamp: int, yesPrice: Option<real>, noPrice: Option<real>)

  datatype PriceHistoryResponse = PriceHistoryResponse(
    priceHistory: seq<PricePoint>,
    timeframe: string,
    interval: string)

  // ---------------------------------------------------------------------------
  // Timeframe

  /** The length of the window a timeframe selects; anything unrecognised means seven days. */
  function TimeframeDuration(timeframe: string): (ms: int)
    ensures timeframe == "1h" ==> ms == 1 * MillisPerHour
    ensures timeframe == "1d" ==> ms == 24 * MillisPerHour
    ensures timeframe == "7d" ==> ms == 168 * MillisPerHour
    ensures timeframe == "30d" ==> ms == 720 * MillisPerHour
    ensures timeframe !in {"1h", "1d", "7d", "30d"} ==> ms == 168 * MillisPerHour
  {
    if timeframe == "1h" then 60 * 60 * 1000
    else if timeframe == "1d" then 24 * 60 * 60 * 1000
    else if timeframe == "7d" then 7 * 24 * 60 * 60 * 1000
    else if timeframe == "30d" then 30 * 24 * 60 * 60 * 1000
    else 7 * 24 * 60 * 60 * 1000
  }

  /** The lower bound of the window: `now` minus the timeframe's duration. */
  function StartDate(now: int, timeframe: string): (start: int)
    ensures now - 720 * MillisPerHour <= start <= now - MillisPerHour
    ensures start == now - TimeframeDuration(timeframe)
  {
    now - TimeframeDuration(timeframe)
  }

  /** An unrecognised timeframe gives the same window as the default `'7d'`. */
  lemma UnknownTimeframeIsSevenDays(now: int, timeframe: string)
    requires timeframe !in {"1h", "1d", "7d", "30d"}
    ensures StartDate(now, timeframe) == StartDate(now, "7d")
  {
  }

  // ---------------------------------------------------------------------------
  // Minute buckets: the reference definitions

  /**
   * The bucket key `toISOString().slice(0, 16)`: the timestamp truncated to the minute.
   * Dafny's division rounds down for a positive divisor, as the calendar fields do.
   */
  function Minute(t: int): (m: int)
    ensures m * MillisPerMinute <= t < m * MillisPerMinute + MillisPerMinute
  {
    t / MillisPerMinute
  }

  function MinuteOf(p: PricePoint): int
  {
    Minute(p.timestamp)
  }

  /** The set of minutes in which some transaction of `txs` falls. */
  ghost function MinutesOf(txs: seq<Tx>): (ms: set<int>)
    ensures forall k :: 0 <= k < |txs| ==> Minute(txs[k].createdAt) in ms
  {
    if txs == [] then {}
    else MinutesOf(txs[..|txs| - 1]) + {Minute(txs[|txs| - 1].createdAt)}
  }

  /** The position of the first transaction of `txs` in minute `m`. */
  ghost function FirstIndex(txs: seq<Tx>, m: int): (k: nat)
    requires m in MinutesOf(txs)
    ensures k < |txs| && Minute(txs[k].createdAt) == m
    ensures forall j :: 0 <= j < k ==> Minute(txs[j].createdAt) != m
  {
    var init := txs[..|txs| - 1];
    if m in MinutesOf(init) then FirstIndex(init, m) else |txs| - 1
  }

  /** The position of the last transaction of `txs` on `side` in minute `m`, if any. */
  ghost function LastIndex(txs: seq<Tx>, m: int, side: Side): (r: Option<nat>)
    ensures r.Some? ==> r.value < |txs| && Minute(txs[r.value].createdAt) == m
                        && txs[r.value].tokenType == side
    ensures r.Some? ==> forall j :: r.value < j < |txs| ==>
                          !(Minute(txs[j].createdAt) == m && txs[j].tokenType == side)
    ensures r.None? ==> forall j :: 0 <= j < |txs| ==>
                          !(Minute(txs[j].createdAt) == m && txs[j].tokenType == side)
  {
    if txs == [] then None
    else
      var last := txs[|txs| - 1];
      if Minute(last.createdAt) == m && last.tokenType == side then Some(|txs| - 1)
      else LastIndex(txs[..|txs| - 1], m, side)
  }

  ghost function PriceAt(txs: seq<Tx>, k: Option<nat>): Option<real>
    requires k.Some? ==> k.value < |txs|
  {
    if k.Some? then Some(txs[k.value].pricePerToken) else None
  }

  /**
   * The point of minute `m`: the time of the minute's first transaction, and per side
   * the price of the minute's last transaction on that side, or `None`.
   */
  ghost function Bucket(txs: seq<Tx>, m: int): (p: PricePoint)
    requires m in MinutesOf(txs)
    ensures MinuteOf(p) == m
  {
    PricePoint(
      txs[FirstIndex(txs, m)].createdAt,
      PriceAt(txs, LastIndex(txs, m, YES)),
      PriceAt(txs, LastIndex(txs, m, NO)))
  }

  /** The minutes the points of `ps` fall in. */
  ghost function Keys(ps: seq<PricePoint>): set<int>
  {
    set i | 0 <= i < |ps| :: MinuteOf(ps[i])
  }

  /** What one transaction does to the point of its minute. */
  function Record(p: PricePoint, tx: Tx): (r: PricePoint)
    ensures r.timestamp == p.timestamp
    ensures tx.tokenType == YES ==> r.yesPrice == Some(tx.pricePerToken) && r.noPrice == p.noPrice
    ensures tx.tokenType != YES ==> r.noPrice == Some(tx.pricePerToken) && r.yesPrice == p.yesPrice
  {
    if tx.tokenType == YES then p.(yesPrice := Some(tx.pricePerToken))
    else p.(noPrice := Some(tx.pricePerToken))
  }

  /** Appending a transaction changes only the point of its own minute, as `Record` says. */
  lemma BucketSnoc(s: seq<Tx>, tx: Tx, m: int)
    requires m in MinutesOf(s + [tx])
    ensures m != Minute(tx.createdAt) ==> m in MinutesOf(s) && Bucket(s + [tx], m) == Bucket(s, m)
    ensures m == Minute(tx.createdAt) && m in MinutesOf(s) ==>
              Bucket(s + [tx], m) == Record(Bucket(s, m), tx)
    ensures m == Minute(tx.createdAt) && m !in MinutesOf(s) ==>
              Bucket(s + [tx], m) == Record(PricePoint(tx.createdAt, None, None), tx)
  {
    var t := s + [tx];
    assert t[..|t| - 1] == s;
    if m == Minute(tx.createdAt) && m !in MinutesOf(s) {
      assert LastIndex(s, m, YES).None? && LastIndex(s, m, NO).None?;
    }
  }

  // ---------------------------------------------------------------------------
  // Minute buckets: the imperative grouping

  /**
   * `buckets` and `order` are the `pricePoints` record after the transactions `s`: its
   * keys are their minutes, each entry is that minute's bucket, and `order` lists the
   * keys once each, in insertion order.
   */
  ghost predicate Grouped(s: seq<Tx>, buckets: map<int, PricePoint>, order: seq<int>)
  {
    && buckets.Keys == MinutesOf(s)
    && (forall m :: m in buckets ==> buckets[m] == Bucket(s, m))
    && (forall m :: m in buckets <==> m in order)
    && (forall i, j :: 0 <= i < j < |order| ==> order[i] != order[j])
  }

  /** The body of the `forEach` keeps `Grouped` for one more transaction. */
  lemma GroupedSnoc(s: seq<Tx>, tx: Tx, buckets: map<int, PricePoint>, order: seq<int>,
                    buckets': map<int, PricePoint>, order': seq<int>)
    requires Grouped(s, buckets, order)
    requires var key := Minute(tx.createdAt);
             if key in buckets then
               buckets' == buckets[key := Record(buckets[key], tx)] && order' == order
             else
               buckets' == buckets[key := Record(PricePoint(tx.createdAt, None, None), tx)]
               && order' == order + [key]
    ensures Grouped(s + [tx], buckets', order')
  {
    var t := s + [tx];
    assert t[..|t| - 1] == s;
    assert MinutesOf(t) == MinutesOf(s) + {Minute(tx.createdAt)};
    assert buckets'.Keys == MinutesOf(t);
    forall m | m in buckets' ensures buckets'[m] == Bucket(t, m) {
      BucketSnoc(s, tx, m);
    }
    assert forall m :: m in buckets' <==> m in order';
  }

  /** `Object.values` of a grouped record: its entries in key-insertion order. */
  lemma GroupedValues(s: seq<Tx>, buckets: map<int, PricePoint>, order: seq<int>,
                      points: seq<PricePoint>)
    requires Grouped(s, buckets, order)
    requires |points| == |order|
    requires forall i :: 0 <= i < |order| ==> order[i] in buckets && points[i] == buckets[order[i]]
    ensures KeysDistinct(points, MinuteOf)
    ensures Keys(points) == MinutesOf(s)
    ensures forall i :: 0 <= i < |points| ==>
              MinuteOf(points[i]) in MinutesOf(s) && points[i] == Bucket(s, MinuteOf(points[i]))
  {
    assert forall i :: 0 <= i < |points| ==> MinuteOf(points[i]) == order[i];
    forall m | m in MinutesOf(s) ensures m in Keys(points) {
      var i :| 0 <= i < |order| && order[i] == m;
      assert MinuteOf(points[i]) == m;
    }
  }

  /**
   * The `forEach` that fills the `pricePoints` record, followed by `Object.values`:
   * one point per distinct minute, in the order the minutes first occur.
   */
  method BucketByMinute(txs: seq<Tx>) returns (points: seq<PricePoint>)
    ensures KeysDistinct(points, MinuteOf)
    ensures Keys(points) == MinutesOf(txs)
    ensures forall i :: 0 <= i < |points| ==>
              MinuteOf(points[i]) in MinutesOf(txs) && points[i] == Bucket(txs, MinuteOf(points[i]))
  {
    var buckets: map<int, PricePoint> := map[];
    var order: seq<int> := [];
    for k := 0 to |txs|
      invariant Grouped(txs[..k], buckets, order)
    {
      var tx := txs[k];
      var key := Minute(tx.createdAt);
      ghost var before, orderBefore := buckets, order;
      if key !in buckets {
        buckets := buckets[key := PricePoint(tx.createdAt, None, None)];
        order := order + [key];
      }
      buckets := buckets[key := Record(buckets[key], tx)];
      GroupedStep(txs, k, before, orderBefore, buckets, order);
    }
    assert txs[..|txs|] == txs;
    points := Values(buckets, order);
    GroupedValues(txs, buckets, order, points);
  }

  /** The loop body of `BucketByMinute` keeps `Grouped` for the next prefix. */
  lemma GroupedStep(txs: seq<Tx>, k: nat, buckets: map<int, PricePoint>, order: seq<int>,
                    buckets': map<int, PricePoint>, order': seq<int>)
    requires k < |txs| && Grouped(txs[..k], buckets, order)
    requires var tx := txs[k];
             var key := Minute(tx.createdAt);
             if key in buckets then
               buckets' == buckets[key := Record(buckets[key], tx)] && order' == order
             else
               buckets' == buckets[key := Record(PricePoint(tx.createdAt, None, None), tx)]
               && order' == order + [key]
    ensures Grouped(txs[..k + 1], buckets', order')
  {
    assert txs[..k + 1] == txs[..k] + [txs[k]];
    GroupedSnoc(txs[..k], txs[k], buckets, order, buckets', order');
  }

  /** `Object.values`: the entries of `buckets` in the key order `order`. */
  method Values(buckets: map<int, PricePoint>, order: seq<int>) returns (points: seq<PricePoint>)
    requires forall i :: 0 <= i < |order| ==> order[i] in buckets
    ensures |points| == |order|
    ensures forall i :: 0 <= i < |order| ==> points[i] == buckets[order[i]]
  {
    points := [];
    for i := 0 to |order|
      invariant |points| == i
      invariant forall j :: 0 <= j < i ==> points[j] == buckets[order[j]]
    {
      points := points + [buckets[order[i]]];
    }
  }

  /** A YES buy and a NO buy within one minute make a single point with both prices. */
  lemma SameMinuteBothSides(t: int, yes: real, no: real)
    requires t % MillisPerMinute == 0
    ensures var txs := [Tx(yes, YES, t), Tx(no, NO, t + 30000)];
            MinutesOf(txs) == {Minute(t)}
            && Bucket(txs, Minute(t)) == PricePoint(t, Some(yes), Some(no))
  {
    var txs := [Tx(yes, YES, t), Tx(no, NO, t + 30000)];
    assert Minute(t + 30000) == Minute(t);
    assert txs[..1] == [txs[0]] && txs[..1][..0] == [];
    assert MinutesOf(txs[..1]) == {Minute(t)};
  }

  // ---------------------------------------------------------------------------
  // Forward fill: the reference definition

  function PriceOf(p: PricePoint, side: Side): Option<real>
  {
    if side == YES then p.yesPrice else p.noPrice
  }

  /** The most recent truthy price of `side` at or before position `i`, if any. */
  ghost function LastTruthy(s: seq<PricePoint>, i: nat, side: Side): (r: Option<real>)
    requires i < |s|
    ensures r.Some? ==> TruthyNumber(r)
  {
    var p := PriceOf(s[i], side);
    if TruthyNumber(p) then p
    else if i == 0 then None
    else LastTruthy(s, i - 1, side)
  }

  /** The filled price of `side` at `i`: the most recent truthy one, else what the point had. */
  ghost function FilledPrice(s: seq<PricePoint>, i: nat, side: Side): Option<real>
    requires i < |s|
  {
    var l := LastTruthy(s, i, side);
    if l.Some? then l else PriceOf(s[i], side)
  }

  /** The series after forward fill; timestamps are kept. */
  ghost function Fill(s: seq<PricePoint>): (r: seq<PricePoint>)
    ensures |r| == |s|
    ensures forall i :: 0 <= i < |s| ==> r[i].timestamp == s[i].timestamp
  {
    seq(|s|, i requires 0 <= i < |s| =>
      PricePoint(s[i].timestamp, FilledPrice(s, i, YES), FilledPrice(s, i, NO)))
  }

  /** A point that has a (truthy) price for a side keeps it. */
  lemma FillKeepsPresentPrice(s: seq<PricePoint>, i: nat, side: Side)
    requires i < |s| && TruthyNumber(PriceOf(s[i], side))
    ensures PriceOf(Fill(s)[i], side) == PriceOf(s[i], side)
  {
  }

  lemma FilledPriceOfFill(s: seq<PricePoint>, i: nat, side: Side)
    requires i < |s|
    ensures PriceOf(Fill(s)[i], side) == FilledPrice(s, i, side)
  {
  }

  /**
   * A point lacking a side's price gets that of the most recent earlier point that has
   * one: position `k`, with no truthy price of that side after it up to `i`.
   */
  lemma {:induction false} FillCarriesMostRecent(s: seq<PricePoint>, k: nat, i: nat, side: Side)
    requires k < i < |s|
    requires TruthyNumber(PriceOf(s[k], side))
    requires forall m :: k < m <= i ==> !TruthyNumber(PriceOf(s[m], side))
    ensures PriceOf(Fill(s)[i], side) == PriceOf(s[k], side)
  {
    FilledPriceOfFill(s, i, side);
    TruthyAfter(s, k, i, side);
  }

  lemma {:induction false} TruthyAfter(s: seq<PricePoint>, k: nat, i: nat, side: Side)
    requires k <= i < |s|
    requires TruthyNumber(PriceOf(s[k], side))
    requires forall m :: k < m <= i ==> !TruthyNumber(PriceOf(s[m], side))
    ensures LastTruthy(s, i, side) == PriceOf(s[k], side)
    decreases i
  {
    if k < i {
      TruthyAfter(s, k, i - 1, side);
    }
  }

  /** Once a side has had a truthy price, no later point lacks one for that side. */
  lemma {:induction false} FillNeverNullAfterFirst(s: seq<PricePoint>, k: nat, i: nat, side: Side)
    requires k <= i < |s|
    requires TruthyNumber(PriceOf(s[k], side))
    ensures TruthyNumber(PriceOf(Fill(s)[i], side))
    decreases i
  {
    FilledPriceOfFill(s, i, side);
    SeenIsRemembered(s, k, i, side);
  }

  lemma {:induction false} SeenIsRemembered(s: seq<PricePoint>, k: nat, i: nat, side: Side)
    requires k <= i < |s|
    requires TruthyNumber(PriceOf(s[k], side))
    ensures LastTruthy(s, i, side).Some?
    decreases i
  {
    if k < i && !TruthyNumber(PriceOf(s[i], side)) {
      SeenIsRemembered(s, k, i - 1, side);
    }
  }

  /** Before a side's first truthy price, its points are left as they were (`null` or `0`). */
  lemma {:induction false} FillBeforeFirstUnchanged(s: seq<PricePoint>, i: nat, side: Side)
    requires i < |s|
    requires forall m :: 0 <= m <= i ==> !TruthyNumber(PriceOf(s[m], side))
    ensures PriceOf(Fill(s)[i], side) == PriceOf(s[i], side)
    decreases i
  {
    FilledPriceOfFill(s, i, side);
    NothingSeen(s, i, side);
  }

  lemma {:induction false} NothingSeen(s: seq<PricePoint>, i: nat, side: Side)
    requires i < |s|
    requires forall m :: 0 <= m <= i ==> !TruthyNumber(PriceOf(s[m], side))
    ensures LastTruthy(s, i, side).None?
    decreases i
  {
    if i > 0 {
      NothingSeen(s, i - 1, side);
    }
  }

  // ---------------------------------------------------------------------------
  // Forward fill: the imperative fold

  /**
   * The forward-fill loop: walks the sorted points once, carrying the last truthy YES
   * and NO prices, and fills each side whose own price is falsy.
   */
  method ForwardFill(a: array<PricePoint>)
    modifies a
    ensures a[..] == Fill(old(a[..]))
  {
    ghost var s := a[..];
    var lastYesPrice: Option<real> := None;
    var lastNoPrice: Option<real> := None;
    for i := 0 to a.Length
      invariant forall k :: i <= k < a.Length ==> a[k] == s[k]
      invariant forall k :: 0 <= k < i ==> a[k] == Fill(s)[k]
      invariant lastYesPrice == if i == 0 then None else LastTruthy(s, i - 1, YES)
      invariant lastNoPrice == if i == 0 then None else LastTruthy(s, i - 1, NO)
    {
      var point := a[i];
      if TruthyNumber(point.yesPrice) { lastYesPrice := point.yesPrice; }
      if TruthyNumber(point.noPrice) { lastNoPrice := point.noPrice; }
      if !TruthyNumber(point.yesPrice) && TruthyNumber(lastYesPrice) {
        point := point.(yesPrice := lastYesPrice);
      }
      if !TruthyNumber(point.noPrice) && TruthyNumber(lastNoPrice) {
        point := point.(noPrice := lastNoPrice);
      }
      a[i] := point;
    }
    assert a[..] == Fill(s);
  }

  // ---------------------------------------------------------------------------
  // The whole operation

  /** The key of the chronological sort: `new Date(a.timestamp).getTime()`. */
  function TimeKey(p: PricePoint): (k: real)
    ensures k.Floor == p.timestamp && k == k.Floor as real
  {
    p.timestamp as real
  }

  /** Comparing keys is comparing timestamps, so the sort orders the points chronologically. */
  lemma TimeKeyOrder(p: PricePoint, q: PricePoint)
    ensures TimeKey(p) <= TimeKey(q) <==> p.timestamp <= q.timestamp
    ensures TimeKey(p) == TimeKey(q) <==> p.timestamp == q.timestamp
  {
  }

  /**
   * `ps` holds exactly the minute buckets of `txs`: one point per distinct minute,
   * each equal to that minute's bucket.
   */
  ghost predicate Bucketed(txs: seq<Tx>, ps: seq<PricePoint>)
  {
    && KeysDistinct(ps, MinuteOf)
    && Keys(ps) == MinutesOf(txs)
    && (forall p :: p in ps ==> MinuteOf(p) in MinutesOf(txs) && p == Bucket(txs, MinuteOf(p)))
  }

  /** Each bucket's timestamp is the time of one of the transactions. */
  lemma BucketTimeIsTransactionTime(txs: seq<Tx>, m: int, start: int)
    requires m in MinutesOf(txs)
    requires forall k :: 0 <= k < |txs| ==> txs[k].createdAt >= start
    ensures Bucket(txs, m).timestamp >= start
  {
    var k := FirstIndex(txs, m);
  }

  /** A reordering of the buckets has the same elements, hence the same keys. */
  lemma PermutedBuckets(txs: seq<Tx>, points: seq<PricePoint>, sorted: seq<PricePoint>)
    requires Bucketed(txs, points)
    requires multiset(points) == multiset(sorted)
    ensures Bucketed(txs, sorted)
  {
    PermutationKeepsKeysDistinct(points, sorted, MinuteOf);
    SameElements(points, sorted);
    SameElementsSameKeys(points, sorted);
  }

  /** Sequences with the same multiset have the same elements. */
  lemma SameElements<T>(s: seq<T>, t: seq<T>)
    requires multiset(s) == multiset(t)
    ensures forall x :: x in s <==> x in t
  {
    forall x ensures x in s <==> x in t {
      assert x in s <==> x in multiset(s);
      assert x in t <==> x in multiset(t);
    }
  }

  /** Sequences with the same elements have the same minute keys. */
  lemma SameElementsSameKeys(s: seq<PricePoint>, t: seq<PricePoint>)
    requires forall p :: p in s <==> p in t
    ensures Keys(s) == Keys(t)
  {
    forall m | m in Keys(s) ensures m in Keys(t) {
      var j :| 0 <= j < |s| && MinuteOf(s[j]) == m;
      assert s[j] in t;
      var i :| 0 <= i < |t| && t[i] == s[j];
    }
    forall m | m in Keys(t) ensures m in Keys(s) {
      var i :| 0 <= i < |t| && MinuteOf(t[i]) == m;
      assert t[i] in s;
      var j :| 0 <= j < |s| && s[j] == t[i];
    }
  }

  /** Ordered by time and one per minute: the timestamps strictly increase. */
  lemma SortedIsStrictlyIncreasing(sorted: seq<PricePoint>)
    requires KeysDistinct(sorted, MinuteOf)
    requires SortedBy(sorted, TimeKey)
    ensures forall i, j :: 0 <= i < j < |sorted| ==> sorted[i].timestamp < sorted[j].timestamp
  {
    forall i, j | 0 <= i < j < |sorted| ensures sorted[i].timestamp < sorted[j].timestamp {
      assert TimeKey(sorted[i]) <= TimeKey(sorted[j]);
      assert MinuteOf(sorted[i]) != MinuteOf(sorted[j]);
    }
  }

  /** The raw bucket of each point's minute, in the points' order. */
  ghost function Raw(txs: seq<Tx>, ps: seq<PricePoint>): (r: seq<PricePoint>)
    requires forall i :: 0 <= i < |ps| ==> MinuteOf(ps[i]) in MinutesOf(txs)
    ensures |r| == |ps|
  {
    seq(|ps|, i requires 0 <= i < |ps| => Bucket(txs, MinuteOf(ps[i])))
  }

  /**
   * The price history for the transactions the store returned: BUY transactions of the
   * question created at or after the window's start. The series has one point per
   * distinct minute, in strictly increasing time, each the forward fill of the raw
   * minute buckets.
   */
  method GetQuestionPriceHistory(
    now: int, timeframe: Option<string>, interval: Option<string>, fetched: seq<Tx>)
    returns (r: PriceHistoryResponse)
    requires forall k :: 0 <= k < |fetched| ==>
               fetched[k].createdAt >= StartDate(now, Default(timeframe, "7d"))
    ensures r.timeframe == Default(timeframe, "7d") && r.interval == Default(interval, "1h")
    ensures forall i, j :: 0 <= i < j < |r.priceHistory| ==>
              r.priceHistory[i].timestamp < r.priceHistory[j].timestamp
    ensures KeysDistinct(r.priceHistory, MinuteOf)
    ensures Keys(r.priceHistory) == MinutesOf(fetched)
    ensures forall i :: 0 <= i < |r.priceHistory| ==>
              r.priceHistory[i].timestamp >= StartDate(now, r.timeframe)
    ensures forall i :: 0 <= i < |r.priceHistory| ==> MinuteOf(r.priceHistory[i]) in MinutesOf(fetched)
    ensures r.priceHistory == Fill(Raw(fetched, r.priceHistory))
  {
    var tf := Default(timeframe, "7d");
    var itv := Default(interval, "1h");
    var points := BucketByMinute(fetched);
    var a := new PricePoint[|points|](i requires 0 <= i < |points| => points[i]);
    assert a[..] == points;
    SortByKey(a, TimeKey);
    ghost var sorted := a[..];
    PermutedBuckets(fetched, points, sorted);
    SortedIsStrictlyIncreasing(sorted);
    ForwardFill(a);
    var history := a[..];
    FilledBuckets(fetched, sorted, history, StartDate(now, tf));
    r := PriceHistoryResponse(history, tf, itv);
  }

  /** Filling keeps the timestamps, so the filled series still carries the buckets' keys. */
  lemma FilledBuckets(txs: seq<Tx>, sorted: seq<PricePoint>, history: seq<PricePoint>, start: int)
    requires Bucketed(txs, sorted)
    requires forall i, j :: 0 <= i < j < |sorted| ==> sorted[i].timestamp < sorted[j].timestamp
    requires forall k :: 0 <= k < |txs| ==> txs[k].createdAt >= start
    requires history == Fill(sorted)
    ensures forall i, j :: 0 <= i < j < |history| ==> history[i].timestamp < history[j].timestamp
    ensures KeysDistinct(history, MinuteOf)
    ensures Keys(history) == MinutesOf(txs)
    ensures forall i :: 0 <= i < |history| ==> history[i].timestamp >= start
    ensures forall i :: 0 <= i < |history| ==> MinuteOf(history[i]) in MinutesOf(txs)
    ensures history == Fill(Raw(txs, history))
  {
    SameTimestamps(sorted, history);
    FilledRaw(txs, sorted, history, start);
    assert Keys(history) == Keys(sorted);
  }

  /** Two series with the same timestamps have the same order, minutes and keys. */
  lemma SameTimestamps(sorted: seq<PricePoint>, history: seq<PricePoint>)
    requires |history| == |sorted|
    requires forall i :: 0 <= i < |sorted| ==> history[i].timestamp == sorted[i].timestamp
    ensures forall i :: 0 <= i < |history| ==> MinuteOf(history[i]) == MinuteOf(sorted[i])
    ensures Keys(history) == Keys(sorted)
  {
    assert forall i :: 0 <= i < |history| ==> MinuteOf(history[i]) == MinuteOf(sorted[i]);
  }

  /** Each filled point lies in the window, and the buckets under it are the sorted points. */
  lemma FilledRaw(txs: seq<Tx>, sorted: seq<PricePoint>, history: seq<PricePoint>, start: int)
    requires Bucketed(txs, sorted)
    requires forall k :: 0 <= k < |txs| ==> txs[k].createdAt >= start
    requires |history| == |sorted|
    requires forall i :: 0 <= i < |history| ==> MinuteOf(history[i]) == MinuteOf(sorted[i])
    requires forall i :: 0 <= i < |sorted| ==> history[i].timestamp == sorted[i].timestamp
    ensures forall i :: 0 <= i < |history| ==> MinuteOf(history[i]) in MinutesOf(txs)
    ensures forall i :: 0 <= i < |history| ==> history[i].timestamp >= start
    ensures Raw(txs, history) == sorted
  {
    forall i | 0 <= i < |history|
      ensures MinuteOf(history[i]) in MinutesOf(txs)
      ensures Raw(txs, history)[i] == sorted[i]
      ensures history[i].timestamp >= start
    {
      assert sorted[i] in sorted;
      BucketTimeIsTransactionTime(txs, MinuteOf(sorted[i]), start);
    }
    assert Raw(txs, history) == sorted;
  }
}
