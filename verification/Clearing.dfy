/** The greedy replay clears the market: the volume an epoch prints is the largest that any single
    price could clear, and every print is at the sell's own limit. */
module Clearing {
  import opened Wrappers
  import opened SettlementCore
  import opened Sorting
  import opened Matcher
  import opened EpochProperties

  function Volume(fills: seq<BatchFill>): int {
    if fills == [] then 0 else fills[0].qty + Volume(fills[1..])
  }

  function SumBy(orders: seq<Order>, weight: Order -> int): int {
    if orders == [] then 0 else weight(orders[0]) + SumBy(orders[1..], weight)
  }

  /** Quantity for sale at `price` or less. */
  function Supply(asks: seq<Entry>, price: int): int {
    if asks == [] then 0
    else (if asks[0].order.price <= price then asks[0].left else 0) + Supply(asks[1..], price)
  }

  /** Quantity wanted at `price` or more. */
  function Demand(buys: seq<Order>, price: int): int {
    if buys == [] then 0
    else (if buys[0].price >= price then buys[0].qty else 0) + Demand(buys[1..], price)
  }

  /** What a queue of buys lifts from resting asks, one buy after the other. */
  function Lifted(asks: seq<Entry>, buys: seq<Order>): int
    decreases |buys|
  {
    if buys == [] then 0
    else
      var c := Cross(asks, buys[0], buys[0].qty);
      Volume(c.fills) + Lifted(c.makers, buys[1..])
  }

  ghost predicate Queue(asks: seq<Entry>) {
    && (forall i, j :: 0 <= i < j < |asks| ==> asks[i].order.price <= asks[j].order.price)
    && (forall i :: 0 <= i < |asks| ==> asks[i].left > 0)
  }

  ghost predicate BuyQueue(buys: seq<Order>) {
    && (forall i, j :: 0 <= i < j < |buys| ==> buys[i].price >= buys[j].price)
    && (forall i :: 0 <= i < |buys| ==> buys[i].side == SIDE_BUY && buys[i].qty > 0)
  }

  /** No ask sits within the limit of a buy of its own trader. */
  ghost predicate NoOwnCross(asks: seq<Entry>, buy: Order) {
    forall i :: 0 <= i < |asks| && asks[i].order.trader == buy.trader ==> asks[i].order.price > buy.price
  }

  lemma {:induction false} SupplyMonotone(asks: seq<Entry>, low: int, high: int)
    requires Queue(asks) && low <= high
    ensures 0 <= Supply(asks, low) <= Supply(asks, high)
  {
    if asks != [] { SupplyMonotone(asks[1..], low, high); }
  }

  lemma {:induction false} NoSupplyBelow(asks: seq<Entry>, price: int)
    requires Queue(asks) && (asks == [] || asks[0].order.price > price)
    ensures Supply(asks, price) == 0
  {
    if asks != [] { NoSupplyBelow(asks[1..], price); }
  }

  lemma {:induction false} CrossSplits(asks: seq<Entry>, buy: Order, left: int)
    requires Queue(asks) && buy.side == SIDE_BUY && left >= 0
    ensures var c := Cross(asks, buy, left);
            && c.left >= 0 && 0 <= Volume(c.fills) && Volume(c.fills) + c.left == left
            && (c.left > 0 ==> Supply(c.makers, buy.price) == 0)
    decreases |asks|
  {
    var c := Cross(asks, buy, left);
    if left == 0 || asks == [] || !Meets(asks[0].order, buy) {
      if asks != [] && !Meets(asks[0].order, buy) { NoSupplyBelow(asks, buy.price); }
    } else if asks[0].order.trader == buy.trader {
      CrossSplits(asks[1..], buy, left);
    } else if left >= asks[0].left {
      CrossSplits(asks[1..], buy, left - asks[0].left);
      assert c.fills[1..] == Cross(asks[1..], buy, left - asks[0].left).fills;
    } else {
      assert c.fills[1..] == [];
    }
  }

  lemma {:induction false} CrossKeepsQueue(asks: seq<Entry>, buy: Order, left: int)
    requires Queue(asks) && left >= 0
    ensures var c := Cross(asks, buy, left);
            && Queue(c.makers)
            && (c.makers != [] ==> asks != [] && asks[0].order.price <= c.makers[0].order.price)
            && (forall i :: 0 <= i < |c.makers| ==> exists k :: 0 <= k < |asks| && asks[k].order == c.makers[i].order)
    decreases |asks|
  {
    var c := Cross(asks, buy, left);
    if left == 0 || asks == [] || !Meets(asks[0].order, buy) {
    } else if asks[0].order.trader == buy.trader || left >= asks[0].left {
      var left' := if asks[0].order.trader == buy.trader then left else left - asks[0].left;
      CrossKeepsQueue(asks[1..], buy, left');
      assert c.makers == Cross(asks[1..], buy, left').makers;
      hide Cross, Queue, Meets;
      forall i | 0 <= i < |c.makers| ensures exists k :: 0 <= k < |asks| && asks[k].order == c.makers[i].order {
        var k :| 0 <= k < |asks[1..]| && asks[1..][k].order == c.makers[i].order;
        assert asks[k+1].order == c.makers[i].order;
      }
    }
  }

  /** A buy lifts from the cheap end: below any price still offered, what was there is what is left
      and everything lifted. */
  lemma {:induction false} CrossLifts(asks: seq<Entry>, buy: Order, left: int, price: int)
    requires Queue(asks) && buy.side == SIDE_BUY && left >= 0
    requires price >= buy.price || Supply(Cross(asks, buy, left).makers, price) > 0
    ensures var c := Cross(asks, buy, left);
            Supply(asks, price) >= Supply(c.makers, price) + Volume(c.fills)
    decreases |asks|
  {
    var c := Cross(asks, buy, left);
    if left == 0 || asks == [] || !Meets(asks[0].order, buy) {
    } else if asks[0].order.trader == buy.trader {
      CrossLifts(asks[1..], buy, left, price);
    } else {
      CrossKeepsQueue(asks, buy, left);
      if asks[0].order.price > price {
        NoSupplyBelow(c.makers, price);
      }
      if left >= asks[0].left {
        CrossLifts(asks[1..], buy, left - asks[0].left, price);
        assert c.fills[1..] == Cross(asks[1..], buy, left - asks[0].left).fills;
      } else {
        assert c.fills[1..] == [] && c.makers[1..] == asks[1..];
      }
    }
  }

  /** Without a self-match nothing but the prints leaves the queue. */
  lemma {:induction false} CrossOnlyLifts(asks: seq<Entry>, buy: Order, left: int, price: int)
    requires Queue(asks) && buy.side == SIDE_BUY && left >= 0 && NoOwnCross(asks, buy)
    ensures var c := Cross(asks, buy, left);
            Supply(c.makers, price) >= Supply(asks, price) - Volume(c.fills)
    decreases |asks|
  {
    var c := Cross(asks, buy, left);
    if left == 0 || asks == [] || !Meets(asks[0].order, buy) {
    } else if left >= asks[0].left {
      assert NoOwnCross(asks[1..], buy);
      CrossOnlyLifts(asks[1..], buy, left - asks[0].left, price);
      assert c.fills[1..] == Cross(asks[1..], buy, left - asks[0].left).fills;
    } else {
      assert c.fills[1..] == [] && c.makers[1..] == asks[1..];
    }
  }

  lemma {:induction false} NothingWanted(buys: seq<Order>, price: int)
    requires BuyQueue(buys) && (buys == [] || buys[0].price < price)
    ensures Demand(buys, price) == 0
  {
    if buys != [] { NothingWanted(buys[1..], price); }
  }

  lemma {:induction false} DemandNonNegative(buys: seq<Order>, price: int)
    requires BuyQueue(buys)
    ensures Demand(buys, price) >= 0
  {
    if buys != [] { DemandNonNegative(buys[1..], price); }
  }

  /** Some price could clear everything that was lifted, self-matches or not. */
  lemma {:induction false} LiftedFits(asks: seq<Entry>, buys: seq<Order>) returns (price: int)
    requires Queue(asks) && BuyQueue(buys)
    ensures 0 <= Lifted(asks, buys) <= Min(Demand(buys, price), Supply(asks, price))
    ensures buys != [] ==> price <= buys[0].price
    decreases |buys|
  {
    if buys == [] {
      price := 0;
      SupplyMonotone(asks, 0, 0);
    } else {
      var b := buys[0];
      var c := Cross(asks, b, b.qty);
      CrossSplits(asks, b, b.qty);
      CrossKeepsQueue(asks, b, b.qty);
      price := LiftedFits(c.makers, buys[1..]);
      if Lifted(c.makers, buys[1..]) == 0 {
        price := b.price;
        CrossLifts(asks, b, b.qty, price);
        DemandNonNegative(buys[1..], price);
        SupplyMonotone(c.makers, price, price);
      } else {
        assert buys[1..] != [];
        CrossLifts(asks, b, b.qty, price);
      }
    }
  }

  /** No price could clear more than was lifted, unless a self-match cancelled an ask. */
  lemma {:induction false} LiftedIsMost(asks: seq<Entry>, buys: seq<Order>, price: int)
    requires Queue(asks) && BuyQueue(buys)
    requires forall i :: 0 <= i < |buys| ==> NoOwnCross(asks, buys[i])
    ensures Min(Demand(buys, price), Supply(asks, price)) <= Lifted(asks, buys)
    decreases |buys|
  {
    if buys != [] {
      var b := buys[0];
      var c := Cross(asks, b, b.qty);
      CrossSplits(asks, b, b.qty);
      CrossKeepsQueue(asks, b, b.qty);
      CrossOnlyLifts(asks, b, b.qty, price);
      forall i | 0 <= i < |buys[1..]| ensures NoOwnCross(c.makers, buys[1..][i]) {
        assert NoOwnCross(asks, buys[i+1]);
      }
      LiftedIsMost(c.makers, buys[1..], price);
      if b.price < price {
        NothingWanted(buys, price);
        var q := LiftedFits(asks, buys);
      } else if c.left > 0 {
        CrossOnlyLifts(asks, b, b.qty, b.price);
        SupplyMonotone(asks, price, b.price);
        var q := LiftedFits(c.makers, buys[1..]);
      }
    }
  }

  // ------------------------------------------------------------------ from the replay to the queues

  function Entries(orders: seq<Order>): seq<Entry> {
    if orders == [] then [] else [Entry(orders[0], orders[0].qty)] + Entries(orders[1..])
  }

  lemma {:induction false} AddAtEnd(asks: seq<Entry>, o: Order)
    requires o.side != SIDE_BUY && forall i :: 0 <= i < |asks| ==> asks[i].order.price <= o.price
    ensures AddIndex(asks, o) == |asks|
  {
    if asks != [] { AddAtEnd(asks[1..], o); }
  }

  ghost predicate SellFeed(p: Params, asks: seq<Entry>, sells: seq<Order>) {
    && (forall i :: 0 <= i < |sells| ==> sells[i].side == SIDE_SELL && p.Placeable(sells[i]))
    && (forall i, j :: 0 <= i < j < |sells| ==> sells[i].price <= sells[j].price)
    && (forall i, j :: 0 <= i < |asks| && 0 <= j < |sells| ==> asks[i].order.price <= sells[j].price)
  }

  lemma SellStep(p: Params, asks: seq<Entry>, o: Order)
    requires p.Placeable(o) && o.side == SIDE_SELL
    requires forall i :: 0 <= i < |asks| ==> asks[i].order.price <= o.price
    ensures PoolStep(p, Pool([], asks), o) == (Pool([], asks + [Entry(o, o.qty)]), [])
  {
    AddAtEnd(asks, o);
    assert AddEntry(asks, Entry(o, o.qty)) == asks + [Entry(o, o.qty)];
  }

  /** Phase one: into an empty book every sell rests behind the cheaper ones, printing nothing. */
  lemma {:induction false} SellsRest(p: Params, asks: seq<Entry>, sells: seq<Order>, buys: seq<Order>,
                                     feed: seq<Order>, all: seq<Entry>)
    requires SellFeed(p, asks, sells)
    requires feed == sells + buys && all == asks + Entries(sells)
    ensures Replay(p, Pool([], asks), feed) == Replay(p, Pool([], all), buys)
    decreases |sells|
  {
    if sells == [] {
      assert feed == buys && all == asks;
    } else {
      var next := asks + [Entry(sells[0], sells[0].qty)];
      SellStep(p, asks, sells[0]);
      assert feed[1..] == sells[1..] + buys && all == next + Entries(sells[1..]);
      SellsRest(p, next, sells[1..], buys, feed[1..], all);
    }
  }

  lemma {:induction false} VolumeAppend(a: seq<BatchFill>, b: seq<BatchFill>)
    ensures Volume(a + b) == Volume(a) + Volume(b)
  {
    if a == [] {
      assert a + b == b;
    } else {
      VolumeAppend(a[1..], b);
      assert (a + b)[1..] == a[1..] + b;
    }
  }

  /** Phase two: buys lift the asks; what rests of them on the bid side is never looked at. */
  lemma {:induction false} BuysLift(p: Params, pool: Pool, buys: seq<Order>)
    requires forall i :: 0 <= i < |buys| ==> buys[i].side == SIDE_BUY && p.Placeable(buys[i])
    ensures Volume(Replay(p, pool, buys)) == Lifted(pool.asks, buys)
    decreases |buys|
  {
    if buys != [] {
      var (next, fills) := PoolStep(p, pool, buys[0]);
      BuysLift(p, next, buys[1..]);
      VolumeAppend(fills, Replay(p, next, buys[1..]));
    }
  }

  lemma {:induction false} LiftsAtSellPrice(asks: seq<Entry>, buy: Order, left: int)
    requires buy.side == SIDE_BUY
    ensures forall j :: 0 <= j < |Cross(asks, buy, left).fills| ==>
              Cross(asks, buy, left).fills[j].execPrice == Cross(asks, buy, left).fills[j].sell.price
    decreases |asks|
  {
    if left == 0 || asks == [] || !Meets(asks[0].order, buy) {
    } else if asks[0].order.trader == buy.trader {
      LiftsAtSellPrice(asks[1..], buy, left);
    } else if left >= asks[0].left {
      LiftsAtSellPrice(asks[1..], buy, left - asks[0].left);
    }
  }

  lemma {:induction false} BuysPaySellPrice(p: Params, pool: Pool, buys: seq<Order>, j: nat)
    requires forall i :: 0 <= i < |buys| ==> buys[i].side == SIDE_BUY
    requires j < |Replay(p, pool, buys)|
    ensures Replay(p, pool, buys)[j].execPrice == Replay(p, pool, buys)[j].sell.price
    decreases |buys|
  {
    hide Cross;
    var (next, fills) := PoolStep(p, pool, buys[0]);
    LiftsAtSellPrice(pool.asks, buys[0], buys[0].qty);
    if j >= |fills| {
      BuysPaySellPrice(p, next, buys[1..], j - |fills|);
    }
  }

  // ------------------------------------------------------------------ sums over the input set

  lemma {:induction false} InsertSum(x: Order, s: seq<Order>, key: Order -> Key, weight: Order -> int)
    ensures SumBy(InsertByKey(x, s, key), weight) == weight(x) + SumBy(s, weight)
  {
    if s == [] || !KeyLess(key(s[0]), key(x)) {
      assert ([x] + s)[1..] == s;
    } else {
      InsertSum(x, s[1..], key, weight);
      assert InsertByKey(x, s, key)[1..] == InsertByKey(x, s[1..], key);
    }
  }

  lemma {:induction false} SortSum(s: seq<Order>, key: Order -> Key, weight: Order -> int)
    ensures SumBy(SortBy(s, key), weight) == SumBy(s, weight)
  {
    if s != [] {
      SortSum(s[1..], key, weight);
      InsertSum(s[0], SortBy(s[1..], key), key, weight);
    }
  }

  lemma {:induction false} FilterSum(s: seq<Order>, keep: Order -> bool, weight: Order -> int)
    requires forall o :: !keep(o) ==> weight(o) == 0
    ensures SumBy(Filter(s, keep), weight) == SumBy(s, weight)
  {
    if s != [] {
      FilterSum(s[1..], keep, weight);
      assert keep(s[0]) ==> Filter(s, keep)[1..] == Filter(s[1..], keep);
      assert !keep(s[0]) ==> Filter(s, keep) == Filter(s[1..], keep);
    }
  }

  function SellWeight(p: Params, price: int): Order -> int {
    (o: Order) => if Valid(p, o) && o.side == SIDE_SELL && o.price <= price then o.qty else 0
  }

  function BuyWeight(p: Params, price: int): Order -> int {
    (o: Order) => if Valid(p, o) && o.side == SIDE_BUY && o.price >= price then o.qty else 0
  }

  /** Valid quantity on offer at `price` or less, each order counted once. */
  function ValidSupply(p: Params, orders: seq<Order>, price: int): int {
    SumBy(Canon(p, orders), SellWeight(p, price))
  }

  /** Valid quantity wanted at `price` or more, each order counted once. */
  function ValidDemand(p: Params, orders: seq<Order>, price: int): int {
    SumBy(Canon(p, orders), BuyWeight(p, price))
  }

  lemma {:induction false} SupplyIsSum(p: Params, sells: seq<Order>, price: int)
    requires forall o :: o in sells ==> Valid(p, o) && o.side == SIDE_SELL
    ensures Supply(Entries(sells), price) == SumBy(sells, SellWeight(p, price))
  {
    if sells != [] {
      SupplyIsSum(p, sells[1..], price);
      assert Entries(sells)[1..] == Entries(sells[1..]);
      assert sells[0] in sells;
    }
  }

  lemma {:induction false} DemandIsSum(p: Params, buys: seq<Order>, price: int)
    requires forall o :: o in buys ==> Valid(p, o) && o.side == SIDE_BUY
    ensures Demand(buys, price) == SumBy(buys, BuyWeight(p, price))
  {
    if buys != [] {
      DemandIsSum(p, buys[1..], price);
      assert buys[0] in buys;
    }
  }

  // ------------------------------------------------------------------ the epoch

  function Placeables(p: Params): Order -> bool {
    (o: Order) => p.Placeable(o)
  }

  /** The valid sells, cheapest first, and the valid buys, dearest first. */
  function Sells(p: Params, orders: seq<Order>): seq<Order> {
    Filter(SortBy(Filter(Canon(p, orders), IS_SELL), SellKey(p)), Placeables(p))
  }

  function Buys(p: Params, orders: seq<Order>): seq<Order> {
    Filter(SortBy(Filter(Canon(p, orders), NOT_SELL), BuyKey(p)), Placeables(p))
  }

  /** Every valid order is a plain buy or a plain sell. */
  ghost predicate PlainSides(p: Params, orders: seq<Order>) {
    forall o :: o in orders && Valid(p, o) ==> o.side == SIDE_BUY || o.side == SIDE_SELL
  }

  /** No trader offers at or below its own bid. */
  ghost predicate NoSelfCross(p: Params, orders: seq<Order>) {
    forall sell, buy | sell in orders && buy in orders && Valid(p, sell) && Valid(p, buy) ::
      sell.side == SIDE_SELL && buy.side == SIDE_BUY && sell.trader == buy.trader ==> sell.price > buy.price
  }

  lemma SellsSorted(p: Params, orders: seq<Order>)
    ensures SellFeed(p, [], Sells(p, orders))
    ensures forall o :: o in Sells(p, orders) <==> o in Canon(p, orders) && p.Placeable(o) && o.side == SIDE_SELL
  {
    FeedHalf(p, orders, IS_SELL, SellKey(p));
    var half := SortBy(Filter(Canon(p, orders), IS_SELL), SellKey(p));
    FilterStrict(half, Placeables(p), SellKey(p));
    var sells := Sells(p, orders);
    forall i | 0 <= i < |sells| ensures sells[i].side == SIDE_SELL && p.Placeable(sells[i]) {
      assert sells[i] in sells;
    }
    forall i, j | 0 <= i < j < |sells| ensures sells[i].price <= sells[j].price {
      assert KeyLess(SellKey(p)(sells[i]), SellKey(p)(sells[j]));
    }
  }

  lemma BuysSorted(p: Params, orders: seq<Order>)
    requires PlainSides(p, orders)
    ensures BuyQueue(Buys(p, orders))
    ensures forall o :: o in Buys(p, orders) <==> o in Canon(p, orders) && p.Placeable(o) && o.side == SIDE_BUY
  {
    FeedHalf(p, orders, NOT_SELL, BuyKey(p));
    var half := SortBy(Filter(Canon(p, orders), NOT_SELL), BuyKey(p));
    FilterStrict(half, Placeables(p), BuyKey(p));
    CanonDistinct(p, orders);
    var buys := Buys(p, orders);
    forall i | 0 <= i < |buys| ensures buys[i].side == SIDE_BUY && buys[i].qty > 0 {
      assert buys[i] in buys;
    }
    forall i, j | 0 <= i < j < |buys| ensures buys[i].price >= buys[j].price {
      assert KeyLess(BuyKey(p)(buys[i]), BuyKey(p)(buys[j]));
    }
  }

  /** With plain sides an epoch is: rest every sell, then lift with every buy. */
  lemma EpochIsLifting(p: Params, orders: seq<Order>)
    requires PlainSides(p, orders)
    ensures EpochFills(p, orders) == Replay(p, Pool([], Entries(Sells(p, orders))), Buys(p, orders))
    ensures Volume(EpochFills(p, orders)) == Lifted(Entries(Sells(p, orders)), Buys(p, orders))
  {
    var s, b := SortBy(Filter(Canon(p, orders), IS_SELL), SellKey(p)),
                SortBy(Filter(Canon(p, orders), NOT_SELL), BuyKey(p));
    hide Replay, PoolStep, SortBy, Filter, Canon, Entries, Lifted, Cross;
    ReplaySkipsUnplaceable(p, EMPTY_POOL, s + b, Placeables(p));
    FilterAppend(s, b, Placeables(p));
    SellsSorted(p, orders);
    BuysSorted(p, orders);
    SellsRest(p, [], Sells(p, orders), Buys(p, orders), Sells(p, orders) + Buys(p, orders), Entries(Sells(p, orders)));
    forall i | 0 <= i < |Buys(p, orders)| ensures p.Placeable(Buys(p, orders)[i]) {
      assert Buys(p, orders)[i] in Buys(p, orders);
    }
    BuysLift(p, Pool([], Entries(Sells(p, orders))), Buys(p, orders));
  }

  lemma {:induction false} EntriesAt(orders: seq<Order>)
    ensures |Entries(orders)| == |orders|
    ensures forall i :: 0 <= i < |orders| ==> Entries(orders)[i] == Entry(orders[i], orders[i].qty)
  {
    if orders != [] { EntriesAt(orders[1..]); }
  }

  lemma QueuesMeasureInput(p: Params, orders: seq<Order>, price: int)
    requires PlainSides(p, orders)
    ensures Supply(Entries(Sells(p, orders)), price) == ValidSupply(p, orders, price)
    ensures Demand(Buys(p, orders), price) == ValidDemand(p, orders, price)
  {
    var canon := Canon(p, orders);
    CanonDistinct(p, orders);
    SellsSorted(p, orders);
    BuysSorted(p, orders);
    SupplyIsSum(p, Sells(p, orders), price);
    DemandIsSum(p, Buys(p, orders), price);
    FilterSum(SortBy(Filter(canon, IS_SELL), SellKey(p)), Placeables(p), SellWeight(p, price));
    SortSum(Filter(canon, IS_SELL), SellKey(p), SellWeight(p, price));
    FilterSum(canon, IS_SELL, SellWeight(p, price));
    FilterSum(SortBy(Filter(canon, NOT_SELL), BuyKey(p)), Placeables(p), BuyWeight(p, price));
    SortSum(Filter(canon, NOT_SELL), BuyKey(p), BuyWeight(p, price));
    FilterSum(canon, NOT_SELL, BuyWeight(p, price));
  }

  lemma SellEntriesQueue(p: Params, orders: seq<Order>)
    ensures Queue(Entries(Sells(p, orders)))
  {
    SellsSorted(p, orders);
    EntriesAt(Sells(p, orders));
  }

  /** Whatever self-matches cancel, an epoch never prints more than one single price could clear. */
  lemma ClearingNeverExceeds(p: Params, orders: seq<Order>) returns (price: int)
    requires PlainSides(p, orders)
    ensures Volume(EpochFills(p, orders)) <= Min(ValidDemand(p, orders, price), ValidSupply(p, orders, price))
  {
    EpochIsLifting(p, orders);
    SellEntriesQueue(p, orders);
    BuysSorted(p, orders);
    price := LiftedFits(Entries(Sells(p, orders)), Buys(p, orders));
    QueuesMeasureInput(p, orders, price);
  }

  lemma QueuesNoOwnCross(p: Params, orders: seq<Order>, i: nat)
    requires PlainSides(p, orders) && NoSelfCross(p, orders) && i < |Buys(p, orders)|
    ensures NoOwnCross(Entries(Sells(p, orders)), Buys(p, orders)[i])
  {
    var sells, buy := Sells(p, orders), Buys(p, orders)[i];
    SellsSorted(p, orders);
    BuysSorted(p, orders);
    CanonDistinct(p, orders);
    EntriesAt(sells);
    assert buy in Buys(p, orders);
    forall k | 0 <= k < |sells| && sells[k].trader == buy.trader ensures sells[k].price > buy.price {
      assert sells[k] in sells;
    }
  }

  /** With no trader crossing itself, no single price could clear more than an epoch prints. */
  lemma ClearingIsMost(p: Params, orders: seq<Order>, price: int)
    requires PlainSides(p, orders) && NoSelfCross(p, orders)
    ensures Min(ValidDemand(p, orders, price), ValidSupply(p, orders, price)) <= Volume(EpochFills(p, orders))
  {
    EpochIsLifting(p, orders);
    SellEntriesQueue(p, orders);
    BuysSorted(p, orders);
    forall i | 0 <= i < |Buys(p, orders)| ensures NoOwnCross(Entries(Sells(p, orders)), Buys(p, orders)[i]) {
      QueuesNoOwnCross(p, orders, i);
    }
    LiftedIsMost(Entries(Sells(p, orders)), Buys(p, orders), price);
    QueuesMeasureInput(p, orders, price);
  }

  /** The volume one price could clear: the shorter of demand and supply there. */
  function ClearableAt(p: Params, orders: seq<Order>, price: int): int {
    Min(ValidDemand(p, orders, price), ValidSupply(p, orders, price))
  }

  /** The clearing theorem: with no trader crossing itself, the printed volume is exactly the
      maximum over prices of min(demand, supply). */
  lemma ClearingVolume(p: Params, orders: seq<Order>)
    requires PlainSides(p, orders) && NoSelfCross(p, orders)
    ensures forall price: int :: ClearableAt(p, orders, price) <= Volume(EpochFills(p, orders))
    ensures exists price: int :: Volume(EpochFills(p, orders)) == ClearableAt(p, orders, price)
  {
    forall price: int ensures ClearableAt(p, orders, price) <= Volume(EpochFills(p, orders)) {
      ClearingIsMost(p, orders, price);
    }
    var best := ClearingNeverExceeds(p, orders);
    assert Volume(EpochFills(p, orders)) == ClearableAt(p, orders, best);
  }

  /** With plain sides every fill executes at the sell's own limit price. */
  lemma EpochPaysSellPrice(p: Params, orders: seq<Order>, j: nat)
    requires PlainSides(p, orders) && j < |EpochFills(p, orders)|
    ensures EpochFills(p, orders)[j].execPrice == EpochFills(p, orders)[j].sell.price
  {
    EpochIsLifting(p, orders);
    BuysSorted(p, orders);
    BuysPaySellPrice(p, Pool([], Entries(Sells(p, orders))), Buys(p, orders), j);
  }
}
