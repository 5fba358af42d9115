/** What every epoch batch satisfies: it depends only on the set of valid orders, never overfills
    an order, and settles exactly when its two orders allow it. */
module EpochProperties {
  import opened Wrappers
  import opened SettlementCore
  import opened Sorting
  import opened Matcher

  /** An order the epoch may match: of this instrument, inside the integer book's domain, at a positive
      price on tick and of at least the minimum size. */
  predicate Valid(p: Params, o: Order) {
    && o.instrument == p.crypto.instrumentHash(p.instrumentId)
    && 0 < o.price <= I64_MAX && o.price % p.tickSize == 0 && p.minQty <= o.qty <= I64_MAX
  }

  /** No two different matchable orders of the input share a digest. */
  ghost predicate NoCollision(p: Params, orders: seq<Order>) {
    forall a, b | a in orders && b in orders && p.Matchable(a) && p.Matchable(b) ::
      p.crypto.orderDigest(a) == p.crypto.orderDigest(b) ==> a == b
  }

  // ------------------------------------------------------------------ the canonical feed

  ghost predicate DistinctDigests(p: Params, orders: seq<Order>) {
    forall i, j :: 0 <= i < j < |orders| ==> p.crypto.orderDigest(orders[i]) != p.crypto.orderDigest(orders[j])
  }

  lemma {:induction false} CanonDistinct(p: Params, orders: seq<Order>)
    ensures DistinctDigests(p, Canon(p, orders))
    ensures forall o :: o in Canon(p, orders) ==> o in orders && p.Matchable(o)
  {
    if orders != [] {
      CanonDistinct(p, orders[..|orders| - 1]);
    }
  }

  lemma {:induction false} CanonKeeps(p: Params, orders: seq<Order>, o: Order)
    requires NoCollision(p, orders) && o in orders && p.Matchable(o)
    ensures o in Canon(p, orders)
  {
    var n := |orders| - 1;
    var before := Canon(p, orders[..n]);
    CanonDistinct(p, orders[..n]);
    assert orders == orders[..n] + [orders[n]];
    if HasDigest(p, before, p.crypto.orderDigest(o)) {
      var i :| 0 <= i < |before| && p.crypto.orderDigest(before[i]) == p.crypto.orderDigest(o);
      assert before[i] in orders[..n];
      assert before[i] == o;
    } else if o in orders[..n] {
      CanonKeeps(p, orders[..n], o);
    }
  }

  lemma {:induction false} FilterDistinct(p: Params, orders: seq<Order>, keep: Order -> bool)
    requires DistinctDigests(p, orders)
    ensures DistinctDigests(p, Filter(orders, keep))
  {
    if orders != [] {
      assert DistinctDigests(p, orders[1..]);
      FilterDistinct(p, orders[1..], keep);
      forall o | o in orders[1..] ensures p.crypto.orderDigest(o) != p.crypto.orderDigest(orders[0]) {
        var i :| 0 <= i < |orders[1..]| && orders[1..][i] == o;
        assert orders[i+1] == o;
      }
    }
  }

  /** Each half of the feed is strictly sorted and holds exactly the canonical orders of its side. */
  lemma FeedHalf(p: Params, orders: seq<Order>, keep: Order -> bool, key: Order -> Key)
    requires key == SellKey(p) || key == BuyKey(p)
    ensures var half := SortBy(Filter(Canon(p, orders), keep), key);
            && StrictlyAscending(half, key)
            && forall o :: o in half <==> o in Canon(p, orders) && keep(o)
  {
    var canon := Canon(p, orders);
    CanonDistinct(p, orders);
    FilterDistinct(p, canon, keep);
    assert DistinctKeys(Filter(canon, keep), key);
    SortByStrict(Filter(canon, keep), key);
    var half := SortBy(Filter(canon, keep), key);
    forall o ensures o in half <==> o in canon && keep(o) {
      SortByMember(Filter(canon, keep), key, o);
    }
  }

  // ------------------------------------------------------------------ set-determinism

  lemma {:induction false} ReplaySkipsUnplaceable(p: Params, pool: Pool, feed: seq<Order>, placeable: Order -> bool)
    requires forall o :: placeable(o) == p.Placeable(o)
    ensures Replay(p, pool, feed) == Replay(p, pool, Filter(feed, placeable))
    decreases |feed|
  {
    if feed != [] {
      var next := PoolStep(p, pool, feed[0]).0;
      ReplaySkipsUnplaceable(p, next, feed[1..], placeable);
      var kept := Filter(feed, placeable);
      if p.Placeable(feed[0]) {
        assert kept[1..] == Filter(feed[1..], placeable);
      } else {
        assert kept == Filter(feed[1..], placeable);
        assert [] + Replay(p, next, feed[1..]) == Replay(p, next, feed[1..]);
      }
    }
  }

  lemma {:induction false} FilterAppend(a: seq<Order>, b: seq<Order>, keep: Order -> bool)
    ensures Filter(a + b, keep) == Filter(a, keep) + Filter(b, keep)
  {
    if a == [] {
      assert a + b == b;
      assert Filter(a, keep) == [];
    } else {
      FilterAppend(a[1..], b, keep);
      assert (a + b)[1..] == a[1..] + b && (a + b)[0] == a[0];
      var head := if keep(a[0]) then [a[0]] else [];
      assert Filter(a + b, keep) == head + Filter(a[1..] + b, keep);
      assert head + (Filter(a[1..], keep) + Filter(b, keep)) == (head + Filter(a[1..], keep)) + Filter(b, keep);
    }
  }

  ghost predicate SameValidSet(p: Params, a: seq<Order>, b: seq<Order>) {
    forall o :: Valid(p, o) ==> (o in a <==> o in b)
  }

  lemma HalvesAgree(p: Params, a: seq<Order>, b: seq<Order>, keep: Order -> bool, key: Order -> Key,
                    placeable: Order -> bool)
    requires (forall o :: placeable(o) == p.Placeable(o))
    requires NoCollision(p, a) && NoCollision(p, b) && SameValidSet(p, a, b)
    requires key == SellKey(p) || key == BuyKey(p)
    ensures Filter(SortBy(Filter(Canon(p, a), keep), key), placeable)
        == Filter(SortBy(Filter(Canon(p, b), keep), key), placeable)
  {
    FeedHalf(p, a, keep, key);
    FeedHalf(p, b, keep, key);
    var x, y := SortBy(Filter(Canon(p, a), keep), key), SortBy(Filter(Canon(p, b), keep), key);
    FilterStrict(x, placeable, key);
    FilterStrict(y, placeable, key);
    CanonDistinct(p, a);
    CanonDistinct(p, b);
    forall o ensures o in Filter(x, placeable) <==> o in Filter(y, placeable) {
      if o in Filter(x, placeable) { CanonKeeps(p, b, o); }
      if o in Filter(y, placeable) { CanonKeeps(p, a, o); }
    }
    StrictSortUnique(Filter(x, placeable), Filter(y, placeable), key);
  }

  /** Set-determinism. Two inputs holding the same set of valid orders give the same fills and the
      same hash, whatever their arrival order, duplicates, foreign-instrument, out-of-range,
      off-tick or undersized extras. */
  lemma SetDeterminism(p: Params, a: seq<Order>, b: seq<Order>)
    requires NoCollision(p, a) && NoCollision(p, b)
    requires SameValidSet(p, a, b)
    ensures EpochFills(p, a) == EpochFills(p, b)
    ensures p.crypto.fillsHash(EpochFills(p, a)) == p.crypto.fillsHash(EpochFills(p, b))
  {
    var placeable := (o: Order) => p.Placeable(o);
    var sa, ba := SortBy(Filter(Canon(p, a), IS_SELL), SellKey(p)), SortBy(Filter(Canon(p, a), NOT_SELL), BuyKey(p));
    var sb, bb := SortBy(Filter(Canon(p, b), IS_SELL), SellKey(p)), SortBy(Filter(Canon(p, b), NOT_SELL), BuyKey(p));
    HalvesAgree(p, a, b, IS_SELL, SellKey(p), placeable);
    HalvesAgree(p, a, b, NOT_SELL, BuyKey(p), placeable);
    FilterAppend(sa, ba, placeable);
    FilterAppend(sb, bb, placeable);
    ReplaySkipsUnplaceable(p, EMPTY_POOL, Feed(p, a), placeable);
    ReplaySkipsUnplaceable(p, EMPTY_POOL, Feed(p, b), placeable);
  }

  // ------------------------------------------------------------------ every fill is sound

  ghost predicate GoodEntries(p: Params, entries: seq<Entry>, from: seq<Order>, buys: bool) {
    forall i :: 0 <= i < |entries| ==>
      && var e := entries[i];
         && e.order in from && Valid(p, e.order) && 0 < e.left <= e.order.qty && (e.order.side == SIDE_BUY <==> buys)
  }

  /** A fill of two valid input orders of different traders, within both limits and both sizes. */
  ghost predicate GoodFill(p: Params, f: BatchFill, from: seq<Order>) {
    && f.buy in from && f.sell in from && Valid(p, f.buy) && Valid(p, f.sell)
    && f.buy.side == SIDE_BUY && f.sell.side != SIDE_BUY && f.buy.trader != f.sell.trader
    && 0 < f.qty <= f.buy.qty && f.qty <= f.sell.qty
    && f.sell.price <= f.execPrice <= f.buy.price
  }

  lemma {:induction false} CrossIsGood(p: Params, makers: seq<Entry>, taker: Order, left: int, from: seq<Order>)
    requires GoodEntries(p, makers, from, taker.side != SIDE_BUY)
    requires taker in from && Valid(p, taker) && 0 <= left <= taker.qty
    ensures var c := Cross(makers, taker, left);
            && GoodEntries(p, c.makers, from, taker.side != SIDE_BUY) && 0 <= c.left <= left
            && forall j :: 0 <= j < |c.fills| ==> GoodFill(p, c.fills[j], from)
  {
    if left == 0 || makers == [] || !Meets(makers[0].order, taker) {
    } else if makers[0].order.trader == taker.trader {
      CrossIsGood(p, makers[1..], taker, left, from);
    } else if left >= makers[0].left {
      CrossIsGood(p, makers[1..], taker, left - makers[0].left, from);
    }
  }

  ghost predicate GoodPool(p: Params, pool: Pool, from: seq<Order>) {
    GoodEntries(p, pool.bids, from, true) && GoodEntries(p, pool.asks, from, false)
  }

  lemma StepIsGood(p: Params, pool: Pool, o: Order, from: seq<Order>)
    requires GoodPool(p, pool, from) && o in from && p.Matchable(o)
    ensures var (next, fills) := PoolStep(p, pool, o);
            && GoodPool(p, next, from)
            && forall j :: 0 <= j < |fills| ==> GoodFill(p, fills[j], from)
  {
    if p.Placeable(o) {
      var makers := if o.side == SIDE_BUY then pool.asks else pool.bids;
      CrossIsGood(p, makers, o, o.qty, from);
    }
  }

  lemma {:induction false} ReplayIsGood(p: Params, pool: Pool, feed: seq<Order>, from: seq<Order>, j: nat)
    requires GoodPool(p, pool, from)
    requires forall o :: o in feed ==> o in from && p.Matchable(o)
    requires j < |Replay(p, pool, feed)|
    ensures GoodFill(p, Replay(p, pool, feed)[j], from)
    decreases |feed|
  {
    StepIsGood(p, pool, feed[0], from);
    var (next, fills) := PoolStep(p, pool, feed[0]);
    if j >= |fills| {
      ReplayIsGood(p, next, feed[1..], from, j - |fills|);
    }
  }

  lemma FeedFromInput(p: Params, orders: seq<Order>, o: Order)
    requires o in Feed(p, orders)
    ensures o in orders && p.Matchable(o)
  {
    FeedHalf(p, orders, IS_SELL, SellKey(p));
    FeedHalf(p, orders, NOT_SELL, BuyKey(p));
    CanonDistinct(p, orders);
  }

  /** Every fill of every epoch names two valid input orders, crosses inside both limits and both
      sizes, and never pairs a trader with itself. */
  lemma EpochFillsAreGood(p: Params, orders: seq<Order>, j: nat)
    requires j < |EpochFills(p, orders)|
    ensures GoodFill(p, EpochFills(p, orders)[j], orders)
  {
    forall o | o in Feed(p, orders) ensures o in orders && p.Matchable(o) {
      FeedFromInput(p, orders, o);
    }
    ReplayIsGood(p, EMPTY_POOL, Feed(p, orders), orders, j);
  }

  /** When an epoch fill settles, exactly: the matcher leaves only the sell's side code, the buy's
      lot and the two expiries to be checked. */
  lemma EpochFillSettlesIff(p: Params, orders: seq<Order>, j: nat, now: int)
    requires j < |EpochFills(p, orders)|
    ensures var f := EpochFills(p, orders)[j];
            ValidatePair(f.buy, f.sell, f.qty, f.execPrice, now).None?
            <==> f.sell.side == SIDE_SELL && f.buy.lotId == ZERO_HASH && now <= f.buy.expiry && now <= f.sell.expiry
  {
    EpochFillsAreGood(p, orders, j);
  }

  /** What an assembler of the input can check beforehand. */
  ghost predicate PlainInput(p: Params, orders: seq<Order>, now: int) {
    forall o | o in orders && Valid(p, o) ::
      && now <= o.expiry
      && (o.side == SIDE_SELL || (o.side == SIDE_BUY && o.lotId == ZERO_HASH))
  }

  /** On such an input every fill of the epoch settles. */
  lemma PlainInputSettles(p: Params, orders: seq<Order>, now: int, j: nat)
    requires PlainInput(p, orders, now) && j < |EpochFills(p, orders)|
    ensures var f := EpochFills(p, orders)[j]; ValidatePair(f.buy, f.sell, f.qty, f.execPrice, now).None?
  {
    EpochFillsAreGood(p, orders, j);
    EpochFillSettlesIff(p, orders, j, now);
  }

  /** Two orders of different digests are both fed, in one order or the other. */
  lemma PairFeed(p: Params, a: Order, b: Order)
    requires Valid(p, a) && Valid(p, b) && p.crypto.orderDigest(a) != p.crypto.orderDigest(b)
    ensures Feed(p, [a, b]) == [a, b] || Feed(p, [a, b]) == [b, a]
  {
    assert [a, b][..1] == [a] && [a][..0] == [];
    assert Canon(p, []) == [];
    assert Canon(p, [a]) == [a];
    assert !HasDigest(p, [a], p.crypto.orderDigest(b));
    assert Canon(p, [a, b]) == [a] + [b] == [a, b];
    PairSorted(a, b, IS_SELL, SellKey(p));
    PairSorted(a, b, NOT_SELL, BuyKey(p));
  }

  lemma PairSorted(a: Order, b: Order, keep: Order -> bool, key: Order -> Key)
    ensures var half := SortBy(Filter([a, b], keep), key);
            if keep(a) && keep(b) then half == [a, b] || half == [b, a]
            else half == (if keep(a) then [a] else []) + (if keep(b) then [b] else [])
  {
    assert [a, b][1..] == [b] && [b][1..] == [] && [a][1..] == [];
    assert Filter([b], keep) == if keep(b) then [b] else [];
    assert SortBy([a], key) == [a] && SortBy([b], key) == [b];
    if keep(a) && keep(b) {
      assert Filter([a, b], keep) == [a, b];
      assert InsertByKey(a, [b], key) == [a, b] || InsertByKey(a, [b], key) == [b, a];
    }
  }

  /** Two equal-sized orders of different traders that cross print once, in full. */
  lemma PairPrints(p: Params, a: Order, b: Order)
    requires Valid(p, a) && Valid(p, b) && a.trader != b.trader && a.qty == b.qty
    requires (a.side == SIDE_BUY) != (b.side == SIDE_BUY) && Meets(a, b)
    ensures Replay(p, EMPTY_POOL, [a, b]) == [Print(a, b, a.qty)]
  {
    var e := Entry(a, a.qty);
    assert Cross([], a, a.qty) == Crossed([], [], a.qty);
    assert AddEntry([], e) == [e];
    assert [e][1..] == [];
    assert Cross([], b, 0) == Crossed([], [], 0);
    assert Cross([e], b, b.qty) == Crossed([Print(a, b, a.qty)], [], 0);
    var pool := if a.side == SIDE_BUY then Pool([e], []) else Pool([], [e]);
    assert [a, b][1..] == [b] && [b][1..] == [];
    assert PoolStep(p, EMPTY_POOL, a) == (pool, []);
    assert PoolStep(p, pool, b) == (EMPTY_POOL, [Print(a, b, a.qty)]);
    assert Replay(p, EMPTY_POOL, []) == [];
    assert Replay(p, pool, [b]) == [Print(a, b, a.qty)] + [];
    assert Replay(p, EMPTY_POOL, [a, b]) == [] + Replay(p, pool, [b]);
  }

  /** Two valid orders of different traders and equal size that would cross, one of them a buy. */
  ghost predicate CrossingPair(p: Params, a: Order, b: Order) {
    && Valid(p, a) && Valid(p, b) && a.trader != b.trader && a.qty == b.qty
    && (a.side == SIDE_BUY) != (b.side == SIDE_BUY) && Meets(a, b)
  }

  lemma PairEpoch(p: Params, a: Order, b: Order)
    requires CrossingPair(p, a, b) && p.crypto.orderDigest(a) != p.crypto.orderDigest(b)
    ensures EpochFills(p, [a, b]) == [Print(a, b, a.qty)] || EpochFills(p, [a, b]) == [Print(b, a, a.qty)]
  {
    PairFeed(p, a, b);
    PairPrints(p, a, b);
    PairPrints(p, b, a);
  }

  /** For an epoch of two orders that cross, the condition on the input is exact: its one fill
      settles if and only if both orders are plain. */
  lemma PairSettlesIffPlain(p: Params, a: Order, b: Order, now: int)
    requires CrossingPair(p, a, b) && p.crypto.orderDigest(a) != p.crypto.orderDigest(b)
    ensures |EpochFills(p, [a, b])| == 1
    ensures var f := EpochFills(p, [a, b])[0];
            ValidatePair(f.buy, f.sell, f.qty, f.execPrice, now).None? <==> PlainInput(p, [a, b], now)
  {
    PairEpoch(p, a, b);
    assert forall o :: o in [a, b] <==> o in [b, a];
  }

  /** A plain sell and a crossing buy that names a lot: the epoch fills them and the fill does not
      settle, at any time. */
  lemma LotBuyFillsUnsettled(p: Params, sell: Order, buy: Order, now: int)
    requires p.tickSize == 1 && p.minQty == 1 && p.crypto.orderDigest(sell) != p.crypto.orderDigest(buy)
    requires sell == Order(p.crypto.instrumentHash(p.instrumentId), SIDE_SELL, 100, 10, 0, 1, U64_MAX, 0)
    requires buy == Order(p.crypto.instrumentHash(p.instrumentId), SIDE_BUY, 100, 10, 7, 2, U64_MAX, 0)
    ensures EpochFills(p, [sell, buy]) == [BatchFill(buy, sell, 10, 100)]
    ensures ValidatePair(buy, sell, 10, 100, now) == Some(InvalidOrderPair)
  {
    PairEpoch(p, sell, buy);
  }

  /** A buy and an order whose side is neither 0 nor 1: it is sorted with the buys, placed as a sell,
      and the fill does not settle. */
  lemma OddSideFillsUnsettled(p: Params, buy: Order, odd: Order, now: int)
    requires p.tickSize == 1 && p.minQty == 1 && p.crypto.orderDigest(buy) != p.crypto.orderDigest(odd)
    requires buy == Order(p.crypto.instrumentHash(p.instrumentId), SIDE_BUY, 100, 10, 0, 1, U64_MAX, 0)
    requires odd == Order(p.crypto.instrumentHash(p.instrumentId), 2, 100, 10, 0, 2, U64_MAX, 0)
    ensures EpochFills(p, [buy, odd]) == [BatchFill(buy, odd, 10, 100)]
    ensures ValidatePair(buy, odd, 10, 100, now) == Some(InvalidOrderPair)
  {
    PairEpoch(p, buy, odd);
  }

  // ------------------------------------------------------------------ no order is overfilled

  /** Quantity of all fills naming `o`, on either side. */
  function Named(fills: seq<BatchFill>, o: Order): int {
    if fills == [] then 0
    else (if fills[0].buy == o || fills[0].sell == o then fills[0].qty else 0) + Named(fills[1..], o)
  }

  function LeftOf(entries: seq<Entry>, o: Order): int {
    if entries == [] then 0
    else (if entries[0].order == o then entries[0].left else 0) + LeftOf(entries[1..], o)
  }

  lemma {:induction false} NamedAppend(a: seq<BatchFill>, b: seq<BatchFill>, o: Order)
    ensures Named(a + b, o) == Named(a, o) + Named(b, o)
  {
    if a == [] {
      assert a + b == b;
    } else {
      NamedAppend(a[1..], b, o);
      assert (a + b)[1..] == a[1..] + b;
    }
  }

  lemma {:induction false} LeftAppend(a: seq<Entry>, b: seq<Entry>, o: Order)
    ensures LeftOf(a + b, o) == LeftOf(a, o) + LeftOf(b, o)
  {
    if a == [] {
      assert a + b == b;
    } else {
      LeftAppend(a[1..], b, o);
      assert (a + b)[1..] == a[1..] + b;
    }
  }

  lemma AddLeft(entries: seq<Entry>, e: Entry, o: Order)
    ensures LeftOf(AddEntry(entries, e), o) == LeftOf(entries, o) + (if e.order == o then e.left else 0)
  {
    var i := AddIndex(entries, e.order);
    LeftAppend(entries[..i], entries[i..], o);
    assert entries == entries[..i] + entries[i..];
    LeftAppend(entries[..i] + [e], entries[i..], o);
    LeftAppend(entries[..i], [e], o);
    assert [e][1..] == [];
  }

  ghost predicate AllLeft(entries: seq<Entry>) {
    forall i :: 0 <= i < |entries| ==> entries[i].left > 0
  }

  lemma TailLeft(entries: seq<Entry>)
    requires AllLeft(entries) && entries != []
    ensures AllLeft(entries[1..])
  {
    assert forall i :: 0 <= i < |entries[1..]| ==> entries[1..][i] == entries[i+1];
  }

  /** Crossing moves a maker's quantity into prints (or cancels it) and the taker's into prints. */
  lemma {:induction false} CrossAccounts(makers: seq<Entry>, taker: Order, left: int, o: Order)
    requires left >= 0 && AllLeft(makers)
    ensures var c := Cross(makers, taker, left);
            && c.left >= 0 && AllLeft(c.makers)
            && (if o == taker then Named(c.fills, o) + c.left == left && LeftOf(c.makers, o) <= LeftOf(makers, o)
                else Named(c.fills, o) + LeftOf(c.makers, o) <= LeftOf(makers, o))
  {
    var c := Cross(makers, taker, left);
    if left == 0 || makers == [] || !Meets(makers[0].order, taker) {
    } else if makers[0].order.trader == taker.trader {
      TailLeft(makers);
      CrossAccounts(makers[1..], taker, left, o);
    } else if left < makers[0].left {
      assert c.fills[1..] == [] && c.makers[1..] == makers[1..];
    } else {
      TailLeft(makers);
      CrossAccounts(makers[1..], taker, left - makers[0].left, o);
      assert c.fills[1..] == Cross(makers[1..], taker, left - makers[0].left).fills;
    }
  }

  ghost predicate PositiveLeft(pool: Pool) {
    AllLeft(pool.bids) && AllLeft(pool.asks)
  }

  function PoolLeft(pool: Pool, o: Order): int {
    LeftOf(pool.bids, o) + LeftOf(pool.asks, o)
  }

  lemma RestAccounts(makers: seq<Entry>, own: seq<Entry>, taker: Order, o: Order)
    requires AllLeft(makers) && AllLeft(own)
    ensures var c := Cross(makers, taker, taker.qty);
            var rested := if c.left > 0 then AddEntry(own, Entry(taker, c.left)) else own;
            && AllLeft(c.makers) && AllLeft(rested)
            && Named(c.fills, o) + LeftOf(c.makers, o) + LeftOf(rested, o)
               <= LeftOf(makers, o) + LeftOf(own, o) + (if o == taker then o.qty else 0)
  {
    CrossAccounts(makers, taker, taker.qty, o);
    AddLeft(own, Entry(taker, Cross(makers, taker, taker.qty).left), o);
  }

  lemma StepAccounts(p: Params, pool: Pool, taker: Order, o: Order)
    requires PositiveLeft(pool)
    ensures var (next, fills) := PoolStep(p, pool, taker);
            && PositiveLeft(next)
            && Named(fills, o) + PoolLeft(next, o) <= PoolLeft(pool, o) + (if o == taker then o.qty else 0)
  {
    if p.Placeable(taker) {
      RestAccounts(if taker.side == SIDE_BUY then pool.asks else pool.bids,
                   if taker.side == SIDE_BUY then pool.bids else pool.asks, taker, o);
    }
    hide Cross, AddEntry, LeftOf, AllLeft;
  }

  lemma {:induction false} ReplayAccounts(p: Params, pool: Pool, feed: seq<Order>, o: Order)
    requires PositiveLeft(pool)
    requires forall i, j :: 0 <= i < j < |feed| ==> feed[i] != feed[j]
    requires o in feed ==> PoolLeft(pool, o) == 0
    ensures Named(Replay(p, pool, feed), o) <= PoolLeft(pool, o) + (if o in feed then o.qty else 0)
    ensures PoolLeft(pool, o) >= 0
    decreases |feed|
  {
    LeftNonNegative(pool.bids, o);
    LeftNonNegative(pool.asks, o);
    if feed != [] {
      var (next, fills) := PoolStep(p, pool, feed[0]);
      StepAccounts(p, pool, feed[0], o);
      LeftNonNegative(next.bids, o);
      LeftNonNegative(next.asks, o);
      StepNamed(p, pool, feed[0], o);
      ReplayAccounts(p, next, feed[1..], o);
      NamedAppend(fills, Replay(p, next, feed[1..]), o);
    }
  }

  lemma {:induction false} LeftNonNegative(entries: seq<Entry>, o: Order)
    requires AllLeft(entries)
    ensures LeftOf(entries, o) >= 0
  {
    if entries != [] { LeftNonNegative(entries[1..], o); }
  }

  lemma {:induction false} NamedNonNegative(fills: seq<BatchFill>, o: Order)
    requires forall j :: 0 <= j < |fills| ==> fills[j].qty > 0
    ensures Named(fills, o) >= 0
  {
    if fills != [] { NamedNonNegative(fills[1..], o); }
  }

  lemma {:induction false} CrossPrintsPositive(makers: seq<Entry>, taker: Order, left: int)
    requires left >= 0 && AllLeft(makers)
    ensures forall j :: 0 <= j < |Cross(makers, taker, left).fills| ==> Cross(makers, taker, left).fills[j].qty > 0
  {
    if left == 0 || makers == [] || !Meets(makers[0].order, taker) {
    } else if makers[0].order.trader == taker.trader {
      CrossPrintsPositive(makers[1..], taker, left);
    } else if left >= makers[0].left {
      CrossPrintsPositive(makers[1..], taker, left - makers[0].left);
    }
  }

  lemma StepNamed(p: Params, pool: Pool, taker: Order, o: Order)
    requires PositiveLeft(pool)
    ensures Named(PoolStep(p, pool, taker).1, o) >= 0
  {
    if p.Placeable(taker) {
      CrossPrintsPositive(if taker.side == SIDE_BUY then pool.asks else pool.bids, taker, taker.qty);
    }
    NamedNonNegative(PoolStep(p, pool, taker).1, o);
  }

  /** Over a whole epoch the fills naming an order, whatever sides or traders the input mixes, sum
      to at most its signed quantity. */
  lemma NeverOverfilled(p: Params, orders: seq<Order>, o: Order)
    ensures Named(EpochFills(p, orders), o) <= o.qty
  {
    FeedHalf(p, orders, IS_SELL, SellKey(p));
    FeedHalf(p, orders, NOT_SELL, BuyKey(p));
    var sells, buys :=
        SortBy(Filter(Canon(p, orders), IS_SELL), SellKey(p)), SortBy(Filter(Canon(p, orders), NOT_SELL), BuyKey(p));
    var feed := Feed(p, orders);
    forall i, j | 0 <= i < j < |feed| ensures feed[i] != feed[j] {
      if j < |sells| {
        assert KeyLess(SellKey(p)(sells[i]), SellKey(p)(sells[j]));
      } else if i >= |sells| {
        assert KeyLess(BuyKey(p)(buys[i - |sells|]), BuyKey(p)(buys[j - |sells|]));
      } else {
        assert sells[i] in sells && buys[j - |sells|] in buys;
      }
    }
    ReplayAccounts(p, EMPTY_POOL, feed, o);
  }
}
