/** What the venue's ledger is to keep, and the account of its parts: joining prints to signed orders moves
    counter and queue together, pruning and placing keep every resting order linked to the terms that
    were signed, and neither lets filled and resting quantity together exceed them. */
module LedgerSteps {
  import opened Wrappers
  import opened SettlementCore
  import opened BookProperties
  import opened BookConservation
  import opened SignedLedger
  import Book = OrderBook

  // ------------------------------------------------------------------ quantities

  /** Quantity of the queued fills naming a digest on either side. */
  function QueuedFor(c: Crypto, outbox: seq<SignedFill>, d: Hash): int {
    if outbox == [] then 0
    else
      var f := outbox[|outbox| - 1];
      QueuedFor(c, outbox[..|outbox| - 1], d)
      + (if c.orderDigest(f.buy.order) == d || c.orderDigest(f.sell.order) == d then f.qty else 0)
  }

  /** Quantity resting in the book under a digest. */
  function RestingFor(b: Book.BookState, d: Hash): int {
    RestingIn(b, Book.Digest(d))
  }

  // ------------------------------------------------------------------ the invariant

  /** A resting order that came from a signed order carries its terms. */
  ghost predicate Linked(ctx: Ctx, orders: map<Hash, SignedOrder>, b: Book.Order) {
    b.id.Digest? ==>
      && b.id.digest in orders
      && var o := orders[b.id.digest].order;
         && b.owner == o.trader && b.price == o.price > 0 && b.qty <= o.qty
         && (b.side == Buy <==> o.side == SIDE_BUY)
  }

  ghost predicate AllLinked(ctx: Ctx, orders: map<Hash, SignedOrder>, book: seq<Book.Order>) {
    forall i :: 0 <= i < |book| ==> Linked(ctx, orders, book[i])
  }

  /** Every live signed order was verified at intake, for this instrument. */
  ghost predicate Intake(ctx: Ctx, v: Venue) {
    forall d :: d in v.orders ==>
      && ctx.crypto.orderDigest(v.orders[d].order) == d && ctx.crypto.Verifies(v.orders[d])
      && v.orders[d].order.instrument == ctx.crypto.instrumentHash(ctx.cfg.instrument)
      && (v.orders[d].order.side == SIDE_BUY || v.orders[d].order.side == SIDE_SELL)
  }

  ghost predicate Alive(v: Venue, now: int) {
    forall d :: d in v.orders ==> v.orders[d].order.expiry >= now
  }

  /** Filled and resting together never exceed what was signed, and `filled` is what was queued. */
  ghost predicate Committed(ctx: Ctx, v: Venue) {
    forall d :: d in v.orders ==>
      && v.Filled(d) + RestingFor(v.book, d) <= v.orders[d].order.qty
      && 0 <= v.Filled(d) == QueuedFor(ctx.crypto, v.outbox, d)
  }

  /** An order of a queued fill is still live, or had expired by `clock`. */
  ghost predicate Recalled(ctx: Ctx, v: Venue, o: Order, clock: int) {
    var d := ctx.crypto.orderDigest(o);
    (d in v.orders && v.orders[d].order == o) || o.expiry < clock
  }

  ghost predicate HistoryOk(ctx: Ctx, v: Venue, clock: int) {
    forall j :: 0 <= j < |v.outbox| ==>
      Recalled(ctx, v, v.outbox[j].buy.order, clock) && Recalled(ctx, v, v.outbox[j].sell.order, clock)
  }

  /** What every run keeps, whatever the clock does. */
  ghost predicate VenueInv(ctx: Ctx, v: Venue) {
    && BookInv(ctx.cfg, v.book)
    && AllLinked(ctx, v.orders, v.book.bids) && AllLinked(ctx, v.orders, v.book.asks)
    && Intake(ctx, v) && v.filled.Keys <= v.orders.Keys && forall d :: d in v.filled ==> v.filled[d] >= 0
  }

  ghost predicate LedgerInv(ctx: Ctx, v: Venue) {
    VenueInv(ctx, v) && Committed(ctx, v)
  }

  /** A signed order has the terms of the live order of its digest, if there is one. */
  ghost predicate Agrees(ctx: Ctx, v: Venue, so: SignedOrder) {
    ctx.crypto.orderDigest(so.order) in v.orders ==> v.orders[ctx.crypto.orderDigest(so.order)].order == so.order
  }

  // ------------------------------------------------------------------ pairing

  lemma QueuedPush(c: Crypto, outbox: seq<SignedFill>, f: SignedFill, d: Hash)
    ensures QueuedFor(c, outbox + [f], d) == QueuedFor(c, outbox, d)
              + (if c.orderDigest(f.buy.order) == d || c.orderDigest(f.sell.order) == d then f.qty else 0)
  {
    assert (outbox + [f])[..|outbox|] == outbox;
  }

  /** Pairing one print moves the counter of an order and the fills queued for it together, by at
      most what printed. */
  lemma PairFillMoves(ctx: Ctx, v: Venue, f: Book.Fill, now: int, d: Hash)
    requires f.makerId != f.takerId && f.qty > 0
    requires forall x :: x in v.orders ==> ctx.crypto.orderDigest(v.orders[x].order) == x
    ensures var w := PairFill(ctx, v, f, now);
            && w.book == v.book && w.orders == v.orders
            && w.Filled(d) - v.Filled(d) == QueuedFor(ctx.crypto, w.outbox, d) - QueuedFor(ctx.crypto, v.outbox, d)
            && 0 <= w.Filled(d) - v.Filled(d)
                 <= (if f.makerId == Book.Digest(d) || f.takerId == Book.Digest(d) then f.qty else 0)
            && w.filled.Keys <= v.filled.Keys + v.orders.Keys
  {
    hide QueuedFor, ValidatePair;
    if Known(v, f.makerId) && Known(v, f.takerId) {
      var pair := PairOrders(ctx.crypto, v.orders[f.makerId.digest], v.orders[f.takerId.digest], f.qty, now);
      if pair.Some? {
        QueuedPush(ctx.crypto, v.outbox, pair.value, d);
      }
    }
  }

  lemma {:induction false} PairFillsMove(ctx: Ctx, v: Venue, fills: seq<Book.Fill>, now: int, d: Hash)
    requires forall j :: 0 <= j < |fills| ==> fills[j].makerId != fills[j].takerId && fills[j].qty > 0
    requires forall x :: x in v.orders ==> ctx.crypto.orderDigest(v.orders[x].order) == x
    ensures var w := PairFills(ctx, v, fills, now);
            && w.book == v.book && w.orders == v.orders
            && w.Filled(d) - v.Filled(d) == QueuedFor(ctx.crypto, w.outbox, d) - QueuedFor(ctx.crypto, v.outbox, d)
            && 0 <= w.Filled(d) - v.Filled(d) <= PrintedFor(fills, Book.Digest(d))
            && w.filled.Keys <= v.filled.Keys + v.orders.Keys
    decreases |fills|
  {
    if fills != [] {
      PairFillMoves(ctx, v, fills[0], now, d);
      PairFillsMove(ctx, PairFill(ctx, v, fills[0], now), fills[1..], now, d);
    }
  }

  lemma {:induction false} PairFillsHistory(ctx: Ctx, v: Venue, fills: seq<Book.Fill>, now: int, clock: int)
    requires HistoryOk(ctx, v, clock)
    requires forall x :: x in v.orders ==> ctx.crypto.orderDigest(v.orders[x].order) == x
    ensures HistoryOk(ctx, PairFills(ctx, v, fills, now), clock) && PairFills(ctx, v, fills, now).orders == v.orders
    decreases |fills|
  {
    if fills != [] {
      PairFillsHistory(ctx, PairFill(ctx, v, fills[0], now), fills[1..], now, clock);
    }
  }

  // ------------------------------------------------------------------ pruning

  lemma {:induction false} DropKeeps(cfg: Book.Config, book: seq<Book.Order>, side: Side, gone: set<Hash>)
    requires SideInv(cfg, book, side)
    ensures var after := DropIds(book, gone);
            && SideInv(cfg, after, side)
            && forall i :: 0 <= i < |after| ==>
                 after[i] in book && !(after[i].id.Digest? && after[i].id.digest in gone)
  {
    if book != [] {
      DropKeeps(cfg, book[1..], side, gone);
      var rest := DropIds(book[1..], gone);
      forall i | 0 <= i < |rest|
        ensures rest[i] in book && InQueueOrder(book[0], rest[i], side) && rest[i].id != book[0].id
      {
      }
      hide SideInv, InQueueOrder;
    }
  }

  lemma {:induction false} DropResting(book: seq<Book.Order>, gone: set<Hash>, d: Hash)
    requires Positive(book)
    ensures 0 <= RestingOf(DropIds(book, gone), Book.Digest(d)) <= RestingOf(book, Book.Digest(d))
  {
    if book != [] {
      DropResting(book[1..], gone, d);
      RestingNonNegative(book[1..], Book.Digest(d));
      var kept := DropIds(book, gone);
      assert !(book[0].id.Digest? && book[0].id.digest in gone) ==> kept[1..] == DropIds(book[1..], gone);
    }
  }

  lemma DropKeepsBook(cfg: Book.Config, b: Book.BookState, gone: set<Hash>)
    requires BookInv(cfg, b)
    ensures BookInv(cfg, DropFrom(b, gone))
  {
    DropKeeps(cfg, b.bids, Buy, gone);
    DropKeeps(cfg, b.asks, Sell, gone);
    hide DropIds, SideInv;
    var after := DropFrom(b, gone);
    forall i, j | 0 <= i < |after.bids| && 0 <= j < |after.asks|
      ensures after.bids[i].id != after.asks[j].id && after.bids[i].price < after.asks[j].price
    {
    }
  }

  lemma DropLinks(ctx: Ctx, orders: map<Hash, SignedOrder>, book: seq<Book.Order>, side: Side, gone: set<Hash>)
    requires SideInv(ctx.cfg, book, side) && AllLinked(ctx, orders, book)
    ensures AllLinked(ctx, orders - gone, DropIds(book, gone))
  {
    DropKeeps(ctx.cfg, book, side, gone);
    hide DropIds, SideInv;
    var after := DropIds(book, gone);
    forall i | 0 <= i < |after| ensures Linked(ctx, orders - gone, after[i]) {
      var k :| 0 <= k < |book| && book[k] == after[i];
    }
  }

  lemma PruneBookInv(ctx: Ctx, v: Venue, now: int)
    requires VenueInv(ctx, v)
    ensures var w := Prune(v, now);
            && BookInv(ctx.cfg, w.book)
            && AllLinked(ctx, w.orders, w.book.bids) && AllLinked(ctx, w.orders, w.book.asks)
  {
    DropKeepsBook(ctx.cfg, v.book, ExpiredBy(v, now));
    DropLinks(ctx, v.orders, v.book.bids, Buy, ExpiredBy(v, now));
    DropLinks(ctx, v.orders, v.book.asks, Sell, ExpiredBy(v, now));
  }

  lemma PruneRestingLess(ctx: Ctx, v: Venue, now: int, d: Hash)
    requires VenueInv(ctx, v)
    ensures 0 <= RestingFor(Prune(v, now).book, d) <= RestingFor(v.book, d)
  {
    DropResting(v.book.bids, ExpiredBy(v, now), d);
    DropResting(v.book.asks, ExpiredBy(v, now), d);
  }

  /** Pruning, at whatever time, keeps the ledger and leaves only orders alive at that time. */
  lemma PruneKeeps(ctx: Ctx, v: Venue, now: int)
    requires VenueInv(ctx, v)
    ensures VenueInv(ctx, Prune(v, now)) && Alive(Prune(v, now), now)
    ensures Committed(ctx, v) ==> Committed(ctx, Prune(v, now))
  {
    PruneBookInv(ctx, v, now);
    if Committed(ctx, v) {
      var w := Prune(v, now);
      forall d | d in w.orders ensures w.Filled(d) + RestingFor(w.book, d) <= w.orders[d].order.qty {
        PruneRestingLess(ctx, v, now, d);
      }
    }
  }

  // ------------------------------------------------------------------ placing a signed order

  lemma SweptLinks(ctx: Ctx, orders: map<Hash, SignedOrder>, makers: seq<Book.Order>, taker: Book.Order)
    requires AllLinked(ctx, orders, makers) && Positive(makers) && taker.qty >= 0
    ensures AllLinked(ctx, orders, Book.Sweep(makers, taker).makers)
  {
    var k := SweepConsumes(makers, taker);
    var after := Book.Sweep(makers, taker).makers;
    forall i | 0 <= i < |after| ensures Linked(ctx, orders, after[i]) {
      assert Linked(ctx, orders, makers[k + i]);
      assert after[i] == makers[k + i].(qty := after[i].qty) && after[i].qty <= makers[k + i].qty;
    }
  }

  lemma InsertLinks(ctx: Ctx, orders: map<Hash, SignedOrder>, book: seq<Book.Order>, o: Book.Order)
    requires AllLinked(ctx, orders, book) && Linked(ctx, orders, o)
    ensures AllLinked(ctx, orders, Book.InsertOrder(book, o))
  {
    var after := Book.InsertOrder(book, o);
    forall i | 0 <= i < |after| ensures Linked(ctx, orders, after[i]) {
      if after[i] != o {
        var k :| 0 <= k < |book| && book[k] == after[i];
      }
    }
  }

  /** A placement keeps every resting order linked, given that the new one is. */
  lemma PlaceLinks(ctx: Ctx, orders: map<Hash, SignedOrder>, b: Book.BookState, o: Book.Order)
    requires BookInv(ctx.cfg, b) && Book.PlaceIn(ctx.cfg, b, o).1.Success?
    requires AllLinked(ctx, orders, b.bids) && AllLinked(ctx, orders, b.asks) && Linked(ctx, orders, o)
    ensures var after := Book.PlaceIn(ctx.cfg, b, o).0;
            AllLinked(ctx, orders, after.bids) && AllLinked(ctx, orders, after.asks)
  {
    var r := Book.Sweep(b.Opposing(o.side), o);
    SweptLinks(ctx, orders, b.Opposing(o.side), o);
    var k := SweepConsumes(b.Opposing(o.side), o);
    InsertLinks(ctx, orders, b.Opposing(o.side.Opposite()), r.taker);
  }

  lemma {:induction false} QueuedNone(ctx: Ctx, outbox: seq<SignedFill>, d: Hash)
    requires forall j :: 0 <= j < |outbox| ==>
               ctx.crypto.orderDigest(outbox[j].buy.order) != d && ctx.crypto.orderDigest(outbox[j].sell.order) != d
    ensures QueuedFor(ctx.crypto, outbox, d) == 0
  {
    if outbox != [] {
      var n := |outbox| - 1;
      assert forall j :: 0 <= j < n ==> outbox[..n][j] == outbox[j];
      QueuedNone(ctx, outbox[..n], d);
    }
  }

  lemma PlacedCommitted(ctx: Ctx, pruned: Venue, so: SignedOrder, now: int, ts: int, x: Hash)
    requires LedgerInv(ctx, pruned) && Admitted(ctx, pruned, so, now, ts)
    requires Remembered(ctx, pruned, so)
    requires x == ctx.crypto.orderDigest(so.order) || x in pruned.orders
    ensures var d := ctx.crypto.orderDigest(so.order);
            var (after, r) :=
                Book.PlaceIn(ctx.cfg, pruned.book, BookOrderOf(ctx, d, so.order, pruned.Remaining(d, so.order), ts));
            && 0 <= pruned.Filled(x) == QueuedFor(ctx.crypto, pruned.outbox, x)
            && pruned.Filled(x) + PrintedFor(r.value.fills, Book.Digest(x)) + RestingFor(after, x)
               <= (if x == d then so.order.qty else pruned.orders[x].order.qty)
  {
    var d := ctx.crypto.orderDigest(so.order);
    var b := BookOrderOf(ctx, d, so.order, pruned.Remaining(d, so.order), ts);
    PlaceResting(ctx.cfg, pruned.book, b, Book.Digest(x));
    if x == d {
      AbsentNotResting(pruned.book, Book.Digest(d));
    }
  }

  lemma FillsPairable(cfg: Book.Config, b: Book.BookState, o: Book.Order)
    requires BookInv(cfg, b) && Book.PlaceIn(cfg, b, o).1.Success?
    ensures var fills := Book.PlaceIn(cfg, b, o).1.value.fills;
            forall j :: 0 <= j < |fills| ==> fills[j].makerId != fills[j].takerId && fills[j].qty > 0
  {
    var makers := b.Opposing(o.side);
    SweepNames(makers, o);
    forall j | 0 <= j < |Book.Sweep(makers, o).fills| ensures Book.Sweep(makers, o).fills[j].qty > 0 {
      FillsAreSound(makers, o, j);
    }
  }

  /** What intake has established when an order reaches the book. */
  ghost predicate Admitted(ctx: Ctx, pruned: Venue, so: SignedOrder, now: int, ts: int) {
    var o, d := so.order, ctx.crypto.orderDigest(so.order);
    var b := BookOrderOf(ctx, d, o, pruned.Remaining(d, o), ts);
    && o.instrument == ctx.crypto.instrumentHash(ctx.cfg.instrument) && ctx.crypto.Verifies(so)
    && o.expiry >= now && (o.side == SIDE_BUY || o.side == SIDE_SELL)
    && b.price == o.price > 0 && 0 < b.qty == o.qty - pruned.Filled(d) <= o.qty
    && Book.PlaceIn(ctx.cfg, pruned.book, b).1.Success?
  }

  /** The venue between the placement and the pairing of its prints. */
  function Ready(ctx: Ctx, pruned: Venue, so: SignedOrder, ts: int): Venue {
    var d := ctx.crypto.orderDigest(so.order);
    var b := BookOrderOf(ctx, d, so.order, pruned.Remaining(d, so.order), ts);
    pruned.(book := Book.PlaceIn(ctx.cfg, pruned.book, b).0, orders := pruned.orders[d := so])
  }

  lemma ReadyBook(ctx: Ctx, pruned: Venue, so: SignedOrder, now: int, ts: int)
    requires VenueInv(ctx, pruned) && Agrees(ctx, pruned, so)
    requires Admitted(ctx, pruned, so, now, ts)
    ensures var ready := Ready(ctx, pruned, so, ts);
            && BookInv(ctx.cfg, ready.book)
            && AllLinked(ctx, ready.orders, ready.book.bids) && AllLinked(ctx, ready.orders, ready.book.asks)
            && Intake(ctx, ready)
  {
    var d := ctx.crypto.orderDigest(so.order);
    var b := BookOrderOf(ctx, d, so.order, pruned.Remaining(d, so.order), ts);
    PlaceKeepsInvariant(ctx.cfg, pruned.book, b);
    PlaceLinks(ctx, pruned.orders[d := so], pruned.book, b);
  }

  /** The prints of an admitted placement. */
  function AdmittedFills(ctx: Ctx, pruned: Venue, so: SignedOrder, now: int, ts: int): seq<Book.Fill>
    requires Admitted(ctx, pruned, so, now, ts)
  {
    var d := ctx.crypto.orderDigest(so.order);
    Book.PlaceIn(ctx.cfg, pruned.book, BookOrderOf(ctx, d, so.order, pruned.Remaining(d, so.order), ts)).1.value.fills
  }

  lemma PairedVenue(ctx: Ctx, pruned: Venue, so: SignedOrder, now: int, ts: int)
    requires VenueInv(ctx, pruned) && Agrees(ctx, pruned, so)
    requires Admitted(ctx, pruned, so, now, ts)
    ensures var fills := AdmittedFills(ctx, pruned, so, now, ts);
            VenueInv(ctx, PairFills(ctx, Ready(ctx, pruned, so, ts), fills, now))
  {
    var d := ctx.crypto.orderDigest(so.order);
    var ready, fills := Ready(ctx, pruned, so, ts), AdmittedFills(ctx, pruned, so, now, ts);
    ReadyBook(ctx, pruned, so, now, ts);
    FillsPairable(ctx.cfg, pruned.book, BookOrderOf(ctx, d, so.order, pruned.Remaining(d, so.order), ts));
    PairFillsMove(ctx, ready, fills, now, d);
    var w := PairFills(ctx, ready, fills, now);
    forall x | x in w.filled ensures w.filled[x] >= 0 {
      PairFillsMove(ctx, ready, fills, now, x);
      assert ready.Filled(x) >= 0;
    }
  }

  /** The condition under which an admitted order's counter is what was queued for it. */
  ghost predicate Remembered(ctx: Ctx, pruned: Venue, so: SignedOrder) {
    var d := ctx.crypto.orderDigest(so.order);
    d in pruned.orders || QueuedFor(ctx.crypto, pruned.outbox, d) == 0
  }

  lemma PairedCommittedAt(ctx: Ctx, pruned: Venue, so: SignedOrder, now: int, ts: int, x: Hash)
    requires LedgerInv(ctx, pruned) && Agrees(ctx, pruned, so)
    requires Admitted(ctx, pruned, so, now, ts) && Remembered(ctx, pruned, so)
    requires x == ctx.crypto.orderDigest(so.order) || x in pruned.orders
    ensures var w := PairFills(ctx, Ready(ctx, pruned, so, ts), AdmittedFills(ctx, pruned, so, now, ts), now);
            && x in w.orders && w.Filled(x) + RestingFor(w.book, x) <= w.orders[x].order.qty
            && 0 <= w.Filled(x) == QueuedFor(ctx.crypto, w.outbox, x)
  {
    var d := ctx.crypto.orderDigest(so.order);
    var ready, fills := Ready(ctx, pruned, so, ts), AdmittedFills(ctx, pruned, so, now, ts);
    ReadyBook(ctx, pruned, so, now, ts);
    FillsPairable(ctx.cfg, pruned.book, BookOrderOf(ctx, d, so.order, pruned.Remaining(d, so.order), ts));
    PairFillsMove(ctx, ready, fills, now, x);
    PlacedCommitted(ctx, pruned, so, now, ts, x);
    hide PairFills, QueuedFor, LedgerInv;
    assert ready.Filled(x) == pruned.Filled(x);
  }

  lemma PairedCommitted(ctx: Ctx, pruned: Venue, so: SignedOrder, now: int, ts: int)
    requires LedgerInv(ctx, pruned) && Agrees(ctx, pruned, so)
    requires Admitted(ctx, pruned, so, now, ts) && Remembered(ctx, pruned, so)
    ensures Committed(ctx, PairFills(ctx, Ready(ctx, pruned, so, ts), AdmittedFills(ctx, pruned, so, now, ts), now))
  {
    var d := ctx.crypto.orderDigest(so.order);
    PairedCommittedAt(ctx, pruned, so, now, ts, d);
    var w := PairFills(ctx, Ready(ctx, pruned, so, ts), AdmittedFills(ctx, pruned, so, now, ts), now);
    assert w.orders == pruned.orders[d := so] by {
      PairFillsKeepOrders(ctx, Ready(ctx, pruned, so, ts), AdmittedFills(ctx, pruned, so, now, ts), now);
    }
    hide LedgerInv, Admitted, Agrees, Remembered, PairFills, QueuedFor;
    forall x | x in w.orders
      ensures w.Filled(x) + RestingFor(w.book, x) <= w.orders[x].order.qty
      ensures 0 <= w.Filled(x) == QueuedFor(ctx.crypto, w.outbox, x)
    {
      PairedCommittedAt(ctx, pruned, so, now, ts, x);
    }
  }

  lemma {:induction false} PairFillsKeepOrders(ctx: Ctx, v: Venue, fills: seq<Book.Fill>, now: int)
    ensures PairFills(ctx, v, fills, now).book == v.book && PairFills(ctx, v, fills, now).orders == v.orders
    decreases |fills|
  {
    if fills != [] { PairFillsKeepOrders(ctx, PairFill(ctx, v, fills[0], now), fills[1..], now); }
  }

  /** An accepted order has been admitted against the pruned venue, and what follows is its prints. */
  lemma AcceptedIsAdmitted(ctx: Ctx, v: Venue, so: SignedOrder, now: int, ts: int)
    requires VenueInv(ctx, v) && PlaceSigned(ctx, v, so, now, ts).1.Success?
    ensures var pruned, (w, r) := Prune(v, now), PlaceSigned(ctx, v, so, now, ts);
            && VenueInv(ctx, pruned) && Alive(pruned, now) && Admitted(ctx, pruned, so, now, ts)
            && r.value.fills == AdmittedFills(ctx, pruned, so, now, ts)
            && w == PairFills(ctx, Ready(ctx, pruned, so, ts), r.value.fills, now)
            && (Agrees(ctx, v, so) ==> Agrees(ctx, pruned, so))
  {
    PruneKeeps(ctx, v, now);
  }

  /** Placing a signed order, accepted or not, at any time, keeps what every run keeps. */
  lemma PlaceKeepsVenue(ctx: Ctx, v: Venue, so: SignedOrder, now: int, ts: int)
    requires VenueInv(ctx, v) && Agrees(ctx, v, so)
    ensures VenueInv(ctx, PlaceSigned(ctx, v, so, now, ts).0)
  {
    PruneKeeps(ctx, v, now);
    if PlaceSigned(ctx, v, so, now, ts).1.Success? {
      AcceptedIsAdmitted(ctx, v, so, now, ts);
      PairedVenue(ctx, Prune(v, now), so, now, ts);
    }
  }
}
