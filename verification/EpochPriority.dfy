/** Who trades first in an epoch: the better price, and among equal prices the lower digest. */
module EpochPriority {
  import opened Wrappers
  import opened SettlementCore
  import opened Sorting
  import opened Matcher
  import opened EpochProperties
  import opened EpochQueues

  // ------------------------------------------------------------------ the whole feed

  /** Once `a` is in its queue, whatever follows trades `b` only after all that was left of `a`. */
  lemma {:induction false} RestFillsFirst(p: Params, pool: Pool, feed: seq<Order>, a: Order, b: Order)
    requires Good(pool) && Standing(pool, a, b) && Sided(pool, a, b) && NoWorse(a, b) && a != b
    requires forall o :: o in feed ==> o != a && (p.Placeable(o) ==> Spares(a, o))
    ensures var fills, left := Replay(p, pool, feed), LeftOf(Own(pool, a), a);
            0 <= Named(fills, a) <= left && (Named(fills, b) != 0 ==> Named(fills, a) == left)
    decreases |feed|
  {
    if feed == [] {
      LeftNonNegative(Own(pool, a), a);
    } else {
      var (next, fills) := PoolStep(p, pool, feed[0]);
      StepRespects(p, pool, feed[0], a, b);
      assert forall o :: o in feed[1..] ==> o in feed;
      RestFillsFirst(p, next, feed[1..], a, b);
      NamedAppend(fills, Replay(p, next, feed[1..]), a);
      NamedAppend(fills, Replay(p, next, feed[1..]), b);
    }
  }

  /** Neither order is anywhere in the pool. */
  ghost predicate Absent(pool: Pool, a: Order, b: Order) {
    PoolLacks(pool, a) && PoolLacks(pool, b)
  }

  ghost predicate PoolLacks(pool: Pool, o: Order) {
    LeftOf(pool.bids, o) == 0 && LeftOf(pool.asks, o) == 0
  }

  lemma StrangerStep(p: Params, pool: Pool, o: Order, x: Order)
    requires Good(pool) && PoolLacks(pool, x) && o != x
    ensures var (next, fills) := PoolStep(p, pool, o); PoolLacks(next, x) && Named(fills, x) == 0
  {
    if p.Placeable(o) {
      CrossNothing(Against(pool, o), o, o.qty, x);
      AddLeft(Own(pool, o), Entry(o, Cross(Against(pool, o), o, o.qty).left), x);
    }
  }

  lemma FirstStep(p: Params, pool: Pool, a: Order, b: Order)
    requires Good(pool) && Absent(pool, a, b) && a != b && p.Placeable(a)
    ensures var (next, fills) := PoolStep(p, pool, a);
            && Standing(next, a, b) && Sided(next, a, b) && Named(fills, b) == 0
            && Named(fills, a) + LeftOf(Own(next, a), a) == a.qty
  {
    var makers := Against(pool, a);
    var c, e := Cross(makers, a, a.qty), Entry(a, Cross(makers, a, a.qty).left);
    CrossAccounts(makers, a, a.qty, a);
    LeftNonNegative(c.makers, a);
    CrossNothing(makers, a, a.qty, b);
    AddLeft(Own(pool, a), e, a);
    AddLeft(Own(pool, a), e, b);
    CrossStops(makers, a, a.qty);
    CrossRanked(makers, a, a.qty, !IsBuy(a));
    var (next, fills) := PoolStep(p, pool, a);
    StepIsOrderly(p, pool, a);
    LeftPresent(Own(next, a), b);
    hide Cross, LeftOf, Named, AddEntry;
  }

  /** From before `a` comes: `b` trades only after all of `a` has. */
  lemma {:induction false} FeedFillsFirst(p: Params, pool: Pool, feed: seq<Order>, i: nat, a: Order, b: Order)
    requires Good(pool) && Absent(pool, a, b) && NoWorse(a, b) && a != b && p.Placeable(a)
    requires i < |feed| && feed[i] == a && b !in feed[..i]
    requires forall k :: 0 <= k < |feed| && k != i ==> feed[k] != a
    requires forall k :: i < k < |feed| && p.Placeable(feed[k]) ==> Spares(a, feed[k])
    ensures var fills := Replay(p, pool, feed); Named(fills, b) != 0 ==> Named(fills, a) == a.qty
    decreases |feed|
  {
    var (next, fills) := PoolStep(p, pool, feed[0]);
    StepIsOrderly(p, pool, feed[0]);
    var rest := feed[1..];
    NamedAppend(fills, Replay(p, next, rest), a);
    NamedAppend(fills, Replay(p, next, rest), b);
    assert forall k :: 0 <= k < |rest| ==> rest[k] == feed[k+1];
    hide PoolStep, Named, Good, Standing, Sided, PoolLacks, NoWorse, Spares;
    if i == 0 {
      FirstStep(p, pool, a, b);
      RestFillsFirst(p, next, rest, a, b);
    } else {
      StrangerStep(p, pool, feed[0], a);
      assert feed[0] in feed[..i];
      StrangerStep(p, pool, feed[0], b);
      FeedFillsFirst(p, next, rest, i - 1, a, b);
    }
  }

  // ------------------------------------------------------------------ priority

  /** Where an element stands in a strictly sorted sequence: once, and ahead of every larger one. */
  lemma StrictPlace(half: seq<Order>, key: Order -> Key, a: Order, b: Order) returns (h: nat)
    requires StrictlyAscending(half, key) && a in half && KeyLess(key(a), key(b))
    ensures h < |half| && half[h] == a && b !in half[..h]
    ensures forall k :: 0 <= k < |half| && k != h ==> half[k] != a
  {
    h :| 0 <= h < |half| && half[h] == a;
    forall k | 0 <= k < |half| && k != h ensures half[k] != a && (k < h ==> half[k] != b) {
      assert if k < h then KeyLess(key(half[k]), key(a)) else KeyLess(key(a), key(half[k]));
    }
  }

  /** Where an order stands in the canonical feed, given one that sorts after it on the same side. */
  lemma FeedPlace(p: Params, orders: seq<Order>, a: Order, b: Order) returns (i: nat)
    requires NoCollision(p, orders) && a in orders && p.Matchable(a) && IS_SELL(a) == IS_SELL(b)
    requires if IS_SELL(a) then a.price <= b.price else a.price >= b.price
    requires a.price == b.price ==> p.crypto.orderDigest(a) < p.crypto.orderDigest(b)
    ensures var feed := Feed(p, orders);
            && i < |feed| && feed[i] == a && b !in feed[..i]
            && (forall k :: 0 <= k < |feed| && k != i ==> feed[k] != a)
            && (!IS_SELL(a) ==> forall k :: i < k < |feed| ==> !IS_SELL(feed[k]))
  {
    var sells := SortBy(Filter(Canon(p, orders), IS_SELL), SellKey(p));
    var others := SortBy(Filter(Canon(p, orders), NOT_SELL), BuyKey(p));
    FeedHalf(p, orders, IS_SELL, SellKey(p));
    FeedHalf(p, orders, NOT_SELL, BuyKey(p));
    CanonKeeps(p, orders, a);
    if IS_SELL(a) {
      i := StrictPlace(sells, SellKey(p), a, b);
    } else {
      var h := StrictPlace(others, BuyKey(p), a, b);
      i := |sells| + h;
    }
    JoinPlace(sells, others, a, b, i);
  }

  lemma JoinPlace(sells: seq<Order>, others: seq<Order>, a: Order, b: Order, i: nat)
    requires (forall o :: o in sells ==> IS_SELL(o)) && (forall o :: o in others ==> !IS_SELL(o))
    requires IS_SELL(a) == IS_SELL(b) && i < |sells| + |others| && (IS_SELL(a) <==> i < |sells|)
    requires var half, h := if IS_SELL(a) then sells else others, if IS_SELL(a) then i else i - |sells|;
             half[h] == a && b !in half[..h] && forall k :: 0 <= k < |half| && k != h ==> half[k] != a
    ensures var feed := sells + others;
            && feed[i] == a && b !in feed[..i]
            && (forall k :: 0 <= k < |feed| && k != i ==> feed[k] != a)
            && (!IS_SELL(a) ==> forall k :: i < k < |feed| ==> !IS_SELL(feed[k]))
  {
    var feed := sells + others;
    assert forall k :: 0 <= k < |sells| ==> sells[k] in sells;
    assert forall k :: 0 <= k < |others| ==> others[k] in others;
    if !IS_SELL(a) {
      assert feed[..i] == sells + others[..i - |sells|];
    } else {
      assert feed[..i] == sells[..i];
    }
  }

  lemma EmptyIsGood(a: Order, b: Order)
    ensures Good(EMPTY_POOL) && Absent(EMPTY_POOL, a, b)
  {
  }

  /** Of two valid sells the cheaper, and at equal prices the one with the lower digest, trades in full
      before the other trades at all. Only a buy of its own trader that reaches its price could
      stand in the way, by cancelling it. */
  lemma CheaperSellFirst(p: Params, orders: seq<Order>, a: Order, b: Order)
    requires NoCollision(p, orders) && a in orders && Valid(p, a) && Valid(p, b)
    requires a.side == SIDE_SELL && b.side == SIDE_SELL
    requires a.price < b.price || (a.price == b.price && p.crypto.orderDigest(a) < p.crypto.orderDigest(b))
    requires forall o :: o in orders && Valid(p, o) && o.side == SIDE_BUY && o.trader == a.trader ==> o.price < a.price
    ensures Named(EpochFills(p, orders), b) > 0 ==> Named(EpochFills(p, orders), a) == a.qty
  {
    var feed := Feed(p, orders);
    var i := FeedPlace(p, orders, a, b);
    EmptyIsGood(a, b);
    forall k | i < k < |feed| && p.Placeable(feed[k]) ensures Spares(a, feed[k]) {
      FeedFromInput(p, orders, feed[k]);
    }
    FeedFillsFirst(p, EMPTY_POOL, feed, i, a, b);
  }

  /** Neither a buy nor a sell by its code; the matcher sorts it with the buys and places it as a sell. */
  predicate OddSide(o: Order) {
    o.side != SIDE_BUY && o.side != SIDE_SELL
  }

  /** Of two valid buys the dearer, and at equal prices the one with the lower digest, trades in full
      before the other trades at all. Only an odd-sided order of its own trader that reaches its
      price could stand in the way. */
  lemma DearerBuyFirst(p: Params, orders: seq<Order>, a: Order, b: Order)
    requires NoCollision(p, orders) && a in orders && Valid(p, a) && Valid(p, b)
    requires a.side == SIDE_BUY && b.side == SIDE_BUY
    requires a.price > b.price || (a.price == b.price && p.crypto.orderDigest(a) < p.crypto.orderDigest(b))
    requires forall o :: o in orders && Valid(p, o) && OddSide(o) && o.trader == a.trader ==> o.price > a.price
    ensures Named(EpochFills(p, orders), b) > 0 ==> Named(EpochFills(p, orders), a) == a.qty
  {
    var feed := Feed(p, orders);
    var i := FeedPlace(p, orders, a, b);
    EmptyIsGood(a, b);
    forall k | i < k < |feed| && p.Placeable(feed[k]) ensures Spares(a, feed[k]) {
      FeedFromInput(p, orders, feed[k]);
    }
    FeedFillsFirst(p, EMPTY_POOL, feed, i, a, b);
  }

  // ------------------------------------------------------------------ the exception is real

  /** Two ten-token sells at 100 and a ten-token buy at 100. */
  ghost predicate TwoSellsOneBuy(p: Params, a: Order, b: Order, buy: Order) {
    && p.tickSize == 1 && p.minQty == 1
    && p.crypto.orderDigest(a) < p.crypto.orderDigest(b)
    && p.crypto.orderDigest(buy) != p.crypto.orderDigest(a) && p.crypto.orderDigest(buy) != p.crypto.orderDigest(b)
    && a == Order(p.crypto.instrumentHash(p.instrumentId), SIDE_SELL, 100, 10, 0, 1, U64_MAX, 0)
    && b == Order(p.crypto.instrumentHash(p.instrumentId), SIDE_SELL, 100, 10, 0, 2, U64_MAX, 0)
    && buy == Order(p.crypto.instrumentHash(p.instrumentId), SIDE_BUY, 100, 10, 0, 1, U64_MAX, 0)
  }

  lemma ThreeCanon(p: Params, a: Order, b: Order, buy: Order)
    requires TwoSellsOneBuy(p, a, b, buy)
    ensures Canon(p, [a, b, buy]) == [a, b, buy]
  {
    var two := [a, b];
    assert [a, b, buy][..2] == two && two[..1] == [a] && [a][..0] == [];
    assert Canon(p, []) == [] && Canon(p, [a]) == [a];
    assert !HasDigest(p, [a], p.crypto.orderDigest(b)) && !HasDigest(p, two, p.crypto.orderDigest(buy));
    assert Canon(p, two) == [a] + [b] == two;
    assert Canon(p, [a, b, buy]) == two + [buy] == [a, b, buy];
  }

  lemma TwoAndOne(a: Order, b: Order, buy: Order)
    requires IS_SELL(a) && IS_SELL(b) && NOT_SELL(buy)
    ensures Filter([a, b, buy], IS_SELL) == [a, b] && Filter([a, b, buy], NOT_SELL) == [buy]
  {
    assert [a, b, buy][1..] == [b, buy] && [b, buy][1..] == [buy] && [buy][1..] == [];
    assert Filter([buy], IS_SELL) == [] && Filter([buy], NOT_SELL) == [buy];
    assert Filter([b, buy], IS_SELL) == [b] && Filter([b, buy], NOT_SELL) == [buy];
    assert [a] + [b] == [a, b];
  }

  lemma SortOne(o: Order, key: Order -> Key)
    ensures SortBy([o], key) == [o]
  {
    assert [o][1..] == [] && SortBy([], key) == [];
  }

  lemma ThreeFeed(p: Params, a: Order, b: Order, buy: Order)
    requires TwoSellsOneBuy(p, a, b, buy)
    ensures Feed(p, [a, b, buy]) == [a, b, buy]
  {
    ThreeCanon(p, a, b, buy);
    TwoAndOne(a, b, buy);
    hide Canon, Filter;
    SortOne(b, SellKey(p));
    SortOne(buy, BuyKey(p));
    assert [a, b][1..] == [b];
    assert SortBy([a, b], SellKey(p)) == InsertByKey(a, [b], SellKey(p)) == [a] + [b];
  }

  lemma BothRest(p: Params, a: Order, b: Order, buy: Order)
    requires TwoSellsOneBuy(p, a, b, buy)
    ensures PoolStep(p, EMPTY_POOL, a) == (Pool([], [Entry(a, 10)]), [])
    ensures PoolStep(p, Pool([], [Entry(a, 10)]), b) == (Pool([], [Entry(a, 10), Entry(b, 10)]), [])
  {
    var ea, eb := Entry(a, 10), Entry(b, 10);
    assert Cross([], a, 10) == Crossed([], [], 10) && Cross([], b, 10) == Crossed([], [], 10);
    assert AddEntry([], ea) == [ea] && AddIndex([ea], b) == 1 && AddEntry([ea], eb) == [ea, eb];
  }

  lemma BuySkipsOwn(p: Params, a: Order, b: Order, buy: Order)
    requires TwoSellsOneBuy(p, a, b, buy)
    ensures PoolStep(p, Pool([], [Entry(a, 10), Entry(b, 10)]), buy) == (EMPTY_POOL, [Print(b, buy, 10)])
  {
    var ea, eb := Entry(a, 10), Entry(b, 10);
    assert [ea, eb][1..] == [eb] && [eb][1..] == [];
    assert Cross([], buy, 0) == Crossed([], [], 0);
    assert Cross([eb], buy, 10) == Crossed([Print(b, buy, 10)], [], 0);
    assert Cross([ea, eb], buy, 10) == Crossed([Print(b, buy, 10)], [], 0);
  }

  /** A trader's own buy cancels its sell, first in line, and the later sell of another trader is filled
      instead: the one exception to `CheaperSellFirst`. */
  lemma OwnBuyForfeitsPriority(p: Params, a: Order, b: Order, buy: Order)
    requires TwoSellsOneBuy(p, a, b, buy)
    ensures EpochFills(p, [a, b, buy]) == [BatchFill(buy, b, 10, 100)]
    ensures Named(EpochFills(p, [a, b, buy]), b) == 10 && Named(EpochFills(p, [a, b, buy]), a) == 0
  {
    ThreeFeed(p, a, b, buy);
    hide Feed;
    var ea, eb := Entry(a, 10), Entry(b, 10);
    BothRest(p, a, b, buy);
    BuySkipsOwn(p, a, b, buy);
    hide PoolStep, TwoSellsOneBuy;
    assert [a, b, buy][1..] == [b, buy] && [b, buy][1..] == [buy] && [buy][1..] == [];
    assert Replay(p, Pool([], [ea, eb]), [buy]) == [Print(b, buy, 10)] + Replay(p, EMPTY_POOL, []);
    assert Replay(p, Pool([], [ea]), [b, buy]) == [] + Replay(p, Pool([], [ea, eb]), [buy]);
    assert Replay(p, EMPTY_POOL, [a, b, buy]) == [] + Replay(p, Pool([], [ea]), [b, buy]);
    assert [BatchFill(buy, b, 10, 100)][1..] == [];
  }
}
