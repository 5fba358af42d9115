/** The epoch matcher: canonicalise a set of signed orders, replay it through the venue's own book, emit
    the crossed fills. Its meaning is a direct crossing with no ids, labels or clock. */
module Matcher {
  import opened Wrappers
  import opened SettlementCore
  import opened Sorting
  import Book = OrderBook

  datatype Params = Params(instrumentId: string, tickSize: posint, minQty: posint, crypto: Crypto) {
    /** Orders of this instrument inside the integer book's domain. */
    predicate Matchable(o: Order) {
      o.instrument == crypto.instrumentHash(instrumentId) && o.price <= I64_MAX && o.qty <= I64_MAX
    }

    /** Orders the book accepts. */
    predicate Placeable(o: Order) {
      o.price > 0 && o.price % tickSize == 0 && o.qty >= minQty
    }
  }

  datatype EpochBatch = EpochBatch(fills: seq<BatchFill>, fillsHash: Hash)

  // ------------------------------------------------------------------ canonical order

  predicate HasDigest(p: Params, orders: seq<Order>, digest: Hash) {
    exists k :: 0 <= k < |orders| && p.crypto.orderDigest(orders[k]) == digest
  }

  /** The matchable orders, each digest once, in order of first arrival. */
  function Canon(p: Params, orders: seq<Order>): seq<Order> {
    if orders == [] then
      []
    else
      var before, o := Canon(p, orders[..|orders| - 1]), orders[|orders| - 1];
      if p.Matchable(o) && !HasDigest(p, before, p.crypto.orderDigest(o)) then before + [o] else before
  }

  function SellKey(p: Params): Order -> Key {
    (o: Order) => (o.price, p.crypto.orderDigest(o))
  }

  function BuyKey(p: Params): Order -> Key {
    (o: Order) => (0 - o.price as int, p.crypto.orderDigest(o))
  }

  const IS_SELL: Order -> bool := (o: Order) => o.side == SIDE_SELL
  const NOT_SELL: Order -> bool := (o: Order) => o.side != SIDE_SELL

  /** Sells cheapest first, then everything else dearest first, digests breaking ties. */
  function Feed(p: Params, orders: seq<Order>): seq<Order> {
    var canon := Canon(p, orders);
    SortBy(Filter(canon, IS_SELL), SellKey(p)) + SortBy(Filter(canon, NOT_SELL), BuyKey(p))
  }

  // ------------------------------------------------------------------ direct crossing

  datatype Entry = Entry(order: Order, left: int)
  datatype Pool = Pool(bids: seq<Entry>, asks: seq<Entry>)
  datatype Crossed = Crossed(fills: seq<BatchFill>, makers: seq<Entry>, left: int)

  predicate Meets(maker: Order, taker: Order) {
    if taker.side == SIDE_BUY then maker.price <= taker.price else maker.price >= taker.price
  }

  /** A print at the maker's price, the taker's own side deciding which order buys. */
  function Print(maker: Order, taker: Order, qty: int): BatchFill {
    if taker.side == SIDE_BUY then BatchFill(taker, maker, qty, maker.price)
    else BatchFill(maker, taker, qty, maker.price)
  }

  function Cross(makers: seq<Entry>, taker: Order, left: int): Crossed {
    if left == 0 || makers == [] || !Meets(makers[0].order, taker) then
      Crossed([], makers, left)
    else if makers[0].order.trader == taker.trader then
      Cross(makers[1..], taker, left)
    else if left < makers[0].left then
      Crossed([Print(makers[0].order, taker, left)],
              [Entry(makers[0].order, makers[0].left - left)] + makers[1..], 0)
    else
      var rest := Cross(makers[1..], taker, left - makers[0].left);
      rest.(fills := [Print(makers[0].order, taker, makers[0].left)] + rest.fills)
  }

  /** Queue position of a newly resting order: behind every price as good as its own. */
  function AddIndex(entries: seq<Entry>, o: Order): (i: nat)
    ensures i <= |entries|
  {
    if entries == [] then 0
    else if (if o.side == SIDE_BUY then entries[0].order.price >= o.price else entries[0].order.price <= o.price)
    then 1 + AddIndex(entries[1..], o)
    else 0
  }

  function AddEntry(entries: seq<Entry>, e: Entry): seq<Entry> {
    var i := AddIndex(entries, e.order);
    entries[..i] + [e] + entries[i..]
  }

  function PoolStep(p: Params, pool: Pool, o: Order): (Pool, seq<BatchFill>) {
    if !p.Placeable(o) then
      (pool, [])
    else if o.side == SIDE_BUY then
      var c := Cross(pool.asks, o, o.qty);
      (Pool(if c.left > 0 then AddEntry(pool.bids, Entry(o, c.left)) else pool.bids, c.makers), c.fills)
    else
      var c := Cross(pool.bids, o, o.qty);
      (Pool(c.makers, if c.left > 0 then AddEntry(pool.asks, Entry(o, c.left)) else pool.asks), c.fills)
  }

  function Replay(p: Params, pool: Pool, feed: seq<Order>): seq<BatchFill>
    decreases |feed|
  {
    if feed == [] then []
    else
      var (next, fills) := PoolStep(p, pool, feed[0]);
      fills + Replay(p, next, feed[1..])
  }

  const EMPTY_POOL := Pool([], [])

  /** The epoch's fills, as a function of the input orders. */
  function EpochFills(p: Params, orders: seq<Order>): seq<BatchFill> {
    Replay(p, EMPTY_POOL, Feed(p, orders))
  }

  // ------------------------------------------------------------------ the book replay means the direct crossing

  type Names = map<Book.OrderId, Order>

  /** A resting book order stands for a pool entry. */
  ghost predicate Stands(p: Params, names: Names, b: Book.Order, e: Entry, side: Side) {
    && b.id in names && names[b.id] == e.order
    && b == BookOrder(p, b.id, b.ts, e.order).(qty := e.left) && b.side == side
  }

  ghost predicate SideStands(p: Params, names: Names, book: seq<Book.Order>, entries: seq<Entry>, side: Side) {
    && |book| == |entries|
    && forall i :: 0 <= i < |book| ==> Stands(p, names, book[i], entries[i], side)
  }

  ghost predicate Labelled(book: seq<Book.Order>, pos: nat) {
    forall i :: 0 <= i < |book| ==> book[i].id.Local? && book[i].id.number < pos && book[i].ts < pos
  }

  ghost predicate Mirrors(p: Params, names: Names, b: Book.BookState, pool: Pool, pos: nat) {
    && SideStands(p, names, b.bids, pool.bids, Buy) && Labelled(b.bids, pos)
    && SideStands(p, names, b.asks, pool.asks, Sell) && Labelled(b.asks, pos)
  }

  function BookOrder(p: Params, id: Book.OrderId, ts: int, o: Order): Book.Order {
    Book.Order(id, p.instrumentId, if o.side == SIDE_BUY then Buy else Sell, o.price, o.qty, o.trader, ts)
  }

  ghost predicate FillsStand(names: Names, taker: Order, takerId: Book.OrderId, fills: seq<Book.Fill>,
                             prints: seq<BatchFill>) {
    && |fills| == |prints|
    && forall j :: 0 <= j < |fills| ==>
         && fills[j].takerId == takerId && fills[j].makerId in names
         && prints[j] == Print(names[fills[j].makerId], taker, fills[j].qty)
         && fills[j].price == prints[j].execPrice
  }

  lemma {:induction false} SweepStandsForCross(p: Params, names: Names, book: seq<Book.Order>, entries: seq<Entry>,
                                               side: Side, taker: Order, b: Book.Order)
    requires SideStands(p, names, book, entries, side)
    requires b == BookOrder(p, b.id, b.ts, taker).(qty := b.qty) && b.side == side.Opposite()
    ensures var r, c := Book.Sweep(book, b), Cross(entries, taker, b.qty);
            && SideStands(p, names, r.makers, c.makers, side)
            && FillsStand(names, taker, b.id, r.fills, c.fills)
            && r.taker == b.(qty := c.left)
  {
    if b.qty == 0 || book == [] || !Book.Crosses(book[0], b) {
    } else if book[0].owner == b.owner {
      SweepStandsForCross(p, names, book[1..], entries[1..], side, taker, b);
    } else if b.qty < book[0].qty {
      assert Stands(p, names, book[0], entries[0], side);
    } else {
      SweepStandsForCross(p, names, book[1..], entries[1..], side, taker, b.(qty := b.qty - book[0].qty));
    }
  }

  lemma {:induction false} InsertStandsForAdd(p: Params, names: Names, book: seq<Book.Order>, entries: seq<Entry>,
                                              b: Book.Order, e: Entry)
    requires SideStands(p, names, book, entries, b.side) && Stands(p, names, b, e, b.side)
    requires forall i :: 0 <= i < |book| ==> book[i].ts < b.ts
    ensures Book.InsertIndex(book, b) == AddIndex(entries, e.order)
    ensures SideStands(p, names, Book.InsertOrder(book, b), AddEntry(entries, e), b.side)
  {
    if book != [] && Book.StaysAhead(book[0], b) {
      InsertStandsForAdd(p, names, book[1..], entries[1..], b, e);
    }
  }

  lemma SweepStaysLabelled(book: seq<Book.Order>, b: Book.Order, pos: nat)
    requires Labelled(book, pos)
    ensures Labelled(Book.Sweep(book, b).makers, pos)
    decreases |book|
  {
    if b.qty == 0 || book == [] || !Book.Crosses(book[0], b) {
    } else if book[0].owner == b.owner {
      SweepStaysLabelled(book[1..], b, pos);
    } else if b.qty >= book[0].qty {
      SweepStaysLabelled(book[1..], b.(qty := b.qty - book[0].qty), pos);
    }
  }

  lemma FreshLabel(p: Params, names: Names, b: Book.BookState, pool: Pool, pos: nat)
    requires Mirrors(p, names, b, pool, pos)
    ensures !Book.HasId(b.bids, Book.Local(pos)) && !Book.HasId(b.asks, Book.Local(pos))
  {
  }

  lemma RestStandsForAdd(p: Params, names: Names, own: seq<Book.Order>, mine: seq<Entry>, pos: nat, o: Order, left: int)
    requires Book.Local(pos) in names && names[Book.Local(pos)] == o
    requires SideStands(p, names, own, mine, BookOrder(p, Book.Local(pos), pos, o).side) && Labelled(own, pos)
    ensures var b := BookOrder(p, Book.Local(pos), pos, o).(qty := left);
            && SideStands(p, names, Book.InsertOrder(own, b), AddEntry(mine, Entry(o, left)), b.side)
            && Labelled(Book.InsertOrder(own, b), pos + 1)
  {
    InsertStandsForAdd(p, names, own, mine, BookOrder(p, Book.Local(pos), pos, o).(qty := left), Entry(o, left));
  }

  /** One placement through the labelled book is one direct crossing step, prints included. */
  lemma PlaceStandsForStep(p: Params, names: Names, b: Book.BookState, pool: Pool, pos: nat, o: Order)
    requires Mirrors(p, names, b, pool, pos)
    ensures var id := Book.Local(pos);
            var names' := names[id := o];
            var (b', r) := Book.PlaceIn(BookConfig(p), b, BookOrder(p, id, pos, o));
            var (pool', prints) := PoolStep(p, pool, o);
            if p.Placeable(o) then
              r.Success? && FillsStand(names', o, id, r.value.fills, prints) && Mirrors(p, names', b', pool', pos + 1)
            else
              r.Failure? && b' == b && pool' == pool && prints == []
  {
    if p.Placeable(o) {
      FreshLabel(p, names, b, pool, pos);
      var names' := names[Book.Local(pos) := o];
      var taker := BookOrder(p, Book.Local(pos), pos, o);
      if o.side == SIDE_BUY {
        SweepStandsForCross(p, names', b.asks, pool.asks, Sell, o, taker);
        SweepStaysLabelled(b.asks, taker, pos);
        RestStandsForAdd(p, names', b.bids, pool.bids, pos, o, Cross(pool.asks, o, o.qty).left);
      } else {
        SweepStandsForCross(p, names', b.bids, pool.bids, Buy, o, taker);
        SweepStaysLabelled(b.bids, taker, pos);
        RestStandsForAdd(p, names', b.asks, pool.asks, pos, o, Cross(pool.bids, o, o.qty).left);
      }
    }
  }

  function BookConfig(p: Params): Book.Config {
    Book.Config(p.instrumentId, p.tickSize, p.minQty)
  }

  // ------------------------------------------------------------------ the matcher

  method Canonicalise(p: Params, orders: seq<Order>) returns (canon: seq<Order>)
    ensures canon == Canon(p, orders)
  {
    var seen: set<Hash> := {};
    canon := [];
    var i := 0;
    while i < |orders|
      invariant i <= |orders|
      invariant canon == Canon(p, orders[..i])
      invariant forall d :: d in seen <==> HasDigest(p, canon, d)
    {
      var o := orders[i];
      assert orders[..i+1][..i] == orders[..i];
      i := i + 1;
      if !p.Matchable(o) {
        continue;
      }
      var digest := p.crypto.orderDigest(o);
      if digest in seen {
        continue;
      }
      seen := seen + {digest};
      ExtendedDigests(p, canon, o);
      canon := canon + [o];
    }
    assert orders[..i] == orders;
  }

  lemma ExtendedDigests(p: Params, canon: seq<Order>, o: Order)
    ensures forall d :: HasDigest(p, canon + [o], d) <==> HasDigest(p, canon, d) || d == p.crypto.orderDigest(o)
  {
    var more := canon + [o];
    assert more[|canon|] == o;
    forall d | HasDigest(p, canon, d) ensures HasDigest(p, more, d) {
      var k :| 0 <= k < |canon| && p.crypto.orderDigest(canon[k]) == d;
      assert more[k] == canon[k];
    }
  }

  /** `match_epoch`: replay the canonical feed through a real book. The branch that skips a print
      naming an unknown order is never taken. */
  method MatchEpoch(p: Params, orders: seq<Order>) returns (batch: EpochBatch)
    ensures batch.fills == EpochFills(p, orders)
    ensures batch.fillsHash == p.crypto.fillsHash(batch.fills)
  {
    var canon := Canonicalise(p, orders);
    var feed := SortBy(Filter(canon, IS_SELL), SellKey(p)) + SortBy(Filter(canon, NOT_SELL), BuyKey(p));
    var book := new Book.NativeBook(p.instrumentId, p.tickSize, p.minQty);
    var byId: Names := map[];
    var fills: seq<BatchFill> := [];
    ghost var pool, whole := EMPTY_POOL, EpochFills(p, orders);
    assert feed == Feed(p, orders);
    ReplayStarts(p, orders);
    assert Mirrors(p, byId, book.State(), pool, 0);
    var pos := 0;
    while pos < |feed|
      invariant pos <= |feed|
      invariant book.Cfg() == BookConfig(p)
      invariant Mirrors(p, byId, book.State(), pool, pos)
      invariant whole == fills + Replay(p, pool, feed[pos..])
    {
      var o := feed[pos];
      ghost var (pool', prints) := PoolStep(p, pool, o);
      ReplayAdvances(p, pool, fills, feed, pos);
      PlaceStandsForStep(p, byId, book.State(), pool, pos, o);
      var id := Book.Local(pos);
      var outcome := book.Place(BookOrder(p, id, pos, o));
      if outcome.Success? {
        byId := byId[id := o];
        var added := Pair(byId, outcome.value.fills, o, id, prints);
        fills := fills + added;
      } else {
        RelabelMirrors(p, byId, book.State(), pool, pos);
        assert fills + [] == fills;
      }
      pool := pool';
      pos := pos + 1;
    }
    ReplayEnds(p, pool, fills, feed);
    batch := EpochBatch(fills, p.crypto.fillsHash(fills));
  }

  lemma ReplayAdvances(p: Params, pool: Pool, fills: seq<BatchFill>, feed: seq<Order>, pos: nat)
    requires pos < |feed|
    ensures var (next, prints) := PoolStep(p, pool, feed[pos]);
            fills + Replay(p, pool, feed[pos..]) == (fills + prints) + Replay(p, next, feed[pos+1..])
  {
    hide PoolStep;
    assert feed[pos..][1..] == feed[pos+1..];
  }

  lemma ReplayEnds(p: Params, pool: Pool, fills: seq<BatchFill>, feed: seq<Order>)
    ensures fills + Replay(p, pool, feed[|feed|..]) == fills
  {
    assert feed[|feed|..] == [];
  }

  lemma ReplayStarts(p: Params, orders: seq<Order>)
    ensures EpochFills(p, orders) == [] + Replay(p, EMPTY_POOL, Feed(p, orders)[0..])
  {
    assert Feed(p, orders)[0..] == Feed(p, orders);
  }

  lemma RelabelMirrors(p: Params, names: Names, b: Book.BookState, pool: Pool, pos: nat)
    requires Mirrors(p, names, b, pool, pos)
    ensures Mirrors(p, names, b, pool, pos + 1)
  {
  }

  /** The inner loop: join one placement's prints back to signed orders. */
  method Pair(byId: Names, fills: seq<Book.Fill>, taker: Order, takerId: Book.OrderId, ghost prints: seq<BatchFill>)
    returns (added: seq<BatchFill>)
    requires takerId in byId && byId[takerId] == taker
    requires FillsStand(byId, taker, takerId, fills, prints)
    ensures added == prints
  {
    added := [];
    var j := 0;
    while j < |fills|
      invariant j <= |fills|
      invariant added == prints[..j]
    {
      var f := fills[j];
      assert f.makerId in byId && f.takerId in byId;
      var maker, taker := byId[f.makerId], byId[f.takerId];
      var buy, sell := if taker.side == SIDE_BUY then taker else maker, if taker.side == SIDE_BUY then maker else taker;
      added := added + [BatchFill(buy, sell, f.qty, f.price)];
      j := j + 1;
    }
  }
}
