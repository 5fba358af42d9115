/** What the venue's ledger keeps in every run of placements and cancellations: no signed order is
    over-committed, and the fill counters are exactly the signed fills queued. */
module LedgerProperties {
  import opened Wrappers
  import opened SettlementCore
  import opened BookProperties
  import opened BookConservation
  import opened SignedLedger
  import opened LedgerSteps
  import Book = OrderBook

  // ------------------------------------------------------------------ single operations

  lemma {:induction false} DropsExactly(book: seq<Book.Order>, gone: set<Hash>, x: Book.Order)
    ensures x in DropIds(book, gone) <==> x in book && !(x.id.Digest? && x.id.digest in gone)
  {
    if book != [] { DropsExactly(book[1..], gone, x); }
  }

  /** Pruning forgets exactly the expired: their orders, counters and whatever they have resting. All else,
      unsigned orders included, stays as it was. */
  lemma PruneForgetsExpired(v: Venue, now: int)
    ensures var w := Prune(v, now);
            && (forall d :: d in w.orders <==> d in v.orders && v.orders[d].order.expiry >= now)
            && (forall d :: d in w.orders ==> w.orders[d] == v.orders[d] && w.Filled(d) == v.Filled(d))
            && (forall d :: d in v.orders && d !in w.orders ==> d !in w.filled)
            && (forall x :: x in w.book.bids <==> x in v.book.bids && !Lapsed(v, now, x.id))
            && (forall x :: x in w.book.asks <==> x in v.book.asks && !Lapsed(v, now, x.id))
            && w.outbox == v.outbox && w.book.last == v.book.last
  {
    var w := Prune(v, now);
    forall x ensures x in w.book.bids <==> x in v.book.bids && !Lapsed(v, now, x.id) {
      DropsExactly(v.book.bids, ExpiredBy(v, now), x);
    }
    forall x ensures x in w.book.asks <==> x in v.book.asks && !Lapsed(v, now, x.id) {
      DropsExactly(v.book.asks, ExpiredBy(v, now), x);
    }
  }

  /** The id is the digest of a live signed order that has expired. */
  predicate Lapsed(v: Venue, now: int, id: Book.OrderId) {
    id.Digest? && id.digest in v.orders && v.orders[id.digest].order.expiry < now
  }

  /** When a signed order is accepted, what is left of it being its size less what the venue has counted: it
      is for this instrument, signed by its trader, unexpired, of a side, at a positive price on tick,
      enough of it is left, both fit the book's integers, and its digest is not resting. A refusal
      changes nothing but what pruning does. */
  lemma IntakeIff(ctx: Ctx, v: Venue, so: SignedOrder, now: int, ts: int)
    requires VenueInv(ctx, v)
    ensures var o, d, (w, r) := so.order, ctx.crypto.orderDigest(so.order), PlaceSigned(ctx, v, so, now, ts);
            var left := o.qty - Prune(v, now).Filled(d);
            && (r.Success? <==>
                  && o.instrument == ctx.crypto.instrumentHash(ctx.cfg.instrument) && ctx.crypto.Verifies(so)
                  && now <= o.expiry && (o.side == SIDE_BUY || o.side == SIDE_SELL)
                  && 0 < o.price <= I64_MAX && o.price % ctx.cfg.tickSize == 0
                  && ctx.cfg.minQty <= left <= I64_MAX
                  && (forall x :: x in Prune(v, now).book.bids || x in Prune(v, now).book.asks ==>
                        x.id != Book.Digest(d)))
            && (r.Failure? ==> w == v || w == Prune(v, now))
  {
    var pruned, d := Prune(v, now), ctx.crypto.orderDigest(so.order);
    assert pruned.Filled(d) >= 0;
    hide Prune, PairFills, VenueInv;
    PlaceAcceptsIff(ctx.cfg, pruned.book, BookOrderOf(ctx, d, so.order, pruned.Remaining(d, so.order), ts));
  }

  /** The order is not live at `now`, yet fills of it were queued before: its counter is gone. */
  ghost predicate Refills(ctx: Ctx, v: Venue, so: SignedOrder, now: int) {
    var d := ctx.crypto.orderDigest(so.order);
    d !in Prune(v, now).orders && QueuedFor(ctx.crypto, v.outbox, d) != 0
  }

  /** It keeps the ledger too, with one exception, exactly: the acceptance of an order that is no
      longer live but has fills queued. */
  lemma PlaceSignedKeepsIff(ctx: Ctx, v: Venue, so: SignedOrder, now: int, ts: int)
    requires LedgerInv(ctx, v) && Agrees(ctx, v, so)
    ensures var (w, r) := PlaceSigned(ctx, v, so, now, ts);
            LedgerInv(ctx, w) <==> !(r.Success? && Refills(ctx, v, so, now))
  {
    PruneKeeps(ctx, v, now);
    PlaceKeepsVenue(ctx, v, so, now, ts);
    if PlaceSigned(ctx, v, so, now, ts).1.Success? {
      AcceptedIsAdmitted(ctx, v, so, now, ts);
      if Refills(ctx, v, so, now) {
        RefillBreaks(ctx, v, so, now, ts);
      } else {
        PairedCommitted(ctx, Prune(v, now), so, now, ts);
      }
    }
  }

  lemma RefillBreaks(ctx: Ctx, v: Venue, so: SignedOrder, now: int, ts: int)
    requires VenueInv(ctx, v) && Agrees(ctx, v, so)
    requires PlaceSigned(ctx, v, so, now, ts).1.Success? && Refills(ctx, v, so, now)
    ensures !Committed(ctx, PlaceSigned(ctx, v, so, now, ts).0)
  {
    var d, pruned := ctx.crypto.orderDigest(so.order), Prune(v, now);
    AcceptedIsAdmitted(ctx, v, so, now, ts);
    var ready, fills := Ready(ctx, pruned, so, ts), AdmittedFills(ctx, pruned, so, now, ts);
    ReadyBook(ctx, pruned, so, now, ts);
    FillsPairable(ctx.cfg, pruned.book, BookOrderOf(ctx, d, so.order, pruned.Remaining(d, so.order), ts));
    PairFillsMove(ctx, ready, fills, now, d);
    assert ready.Filled(d) == 0 && d in ready.orders;
  }

  // ------------------------------------------------------------------ when a print settles

  /** The defect the venue logs as impossible, and its exact condition: a print between two signed
      orders is queued for settlement unless the buy names a lot. Intake does not check that, so
      such a buy trades in the book and is never settled. */
  lemma PrintSettlesIff(ctx: Ctx, v: Venue, so: SignedOrder, now: int, ts: int, j: nat)
    requires VenueInv(ctx, v)
    requires PlaceSigned(ctx, v, so, now, ts).1.Success?
    requires j < |PlaceSigned(ctx, v, so, now, ts).1.value.fills|
    requires Known(Prune(v, now), PlaceSigned(ctx, v, so, now, ts).1.value.fills[j].makerId)
    ensures var f := PlaceSigned(ctx, v, so, now, ts).1.value.fills[j];
            var maker := Prune(v, now).orders[f.makerId.digest];
            PairOrders(ctx.crypto, maker, so, f.qty, now).Some?
            <==> (if so.order.side == SIDE_BUY then so.order.lotId else maker.order.lotId) == ZERO_HASH
  {
    AcceptedIsAdmitted(ctx, v, so, now, ts);
    AdmittedPrintSettlesIff(ctx, Prune(v, now), so, now, ts, j);
  }

  lemma AdmittedPrintSettlesIff(ctx: Ctx, pruned: Venue, so: SignedOrder, now: int, ts: int, j: nat)
    requires VenueInv(ctx, pruned) && Alive(pruned, now) && Admitted(ctx, pruned, so, now, ts)
    requires j < |AdmittedFills(ctx, pruned, so, now, ts)|
    requires Known(pruned, AdmittedFills(ctx, pruned, so, now, ts)[j].makerId)
    ensures var f := AdmittedFills(ctx, pruned, so, now, ts)[j];
            var maker := pruned.orders[f.makerId.digest];
            PairOrders(ctx.crypto, maker, so, f.qty, now).Some?
            <==> (if so.order.side == SIDE_BUY then so.order.lotId else maker.order.lotId) == ZERO_HASH
  {
    var d, f := ctx.crypto.orderDigest(so.order), AdmittedFills(ctx, pruned, so, now, ts)[j];
    var b := BookOrderOf(ctx, d, so.order, pruned.Remaining(d, so.order), ts);
    var makers := pruned.book.Opposing(b.side);
    FillsAreSound(makers, b, j);
    var i :| 0 <= i < |makers| && f.makerId == makers[i].id && f.makerOwner == makers[i].owner
             && f.price == makers[i].price && f.qty <= makers[i].qty;
    assert Linked(ctx, pruned.orders, makers[i]);
  }

  /** The venue holding one resting ten-token sell. */
  function Listed(ctx: Ctx, sell: SignedOrder): Venue {
    var d := ctx.crypto.orderDigest(sell.order);
    Venue(Book.BookState([], [BookOrderOf(ctx, d, sell.order, sell.order.qty, 1)], None), map[d := sell], map[], [])
  }

  /** A ten-token sell and a matching buy that names a lot: they trade in full, both sides of the
      book are empty afterwards, and nothing is queued. */
  lemma LotBuyTradesUnsettled(ctx: Ctx, sell: SignedOrder, buy: SignedOrder)
    requires ctx.cfg.tickSize == 1 && ctx.cfg.minQty == 1 && ctx.crypto.Verifies(sell) && ctx.crypto.Verifies(buy)
    requires ctx.crypto.orderDigest(sell.order) != ctx.crypto.orderDigest(buy.order)
    requires sell.order == Order(ctx.crypto.instrumentHash(ctx.cfg.instrument), SIDE_SELL, 100, 10, 0, 1, 1000, 0)
    requires buy.order == Order(ctx.crypto.instrumentHash(ctx.cfg.instrument), SIDE_BUY, 100, 10, 7, 2, 1000, 0)
    ensures var listed := PlaceSigned(ctx, Venue(Book.EMPTY_BOOK, map[], map[], []), sell, 0, 1).0;
            var (w, r) := PlaceSigned(ctx, listed, buy, 0, 2);
            && r.Success? && |r.value.fills| == 1 && r.value.fills[0].qty == 10
            && w.book.bids == [] && w.book.asks == [] && w.outbox == []
  {
    var listed, db := Listed(ctx, sell), ctx.crypto.orderDigest(buy.order);
    var maker, taker := listed.book.asks[0], BookOrderOf(ctx, db, buy.order, 10, 2);
    assert ExpiredBy(listed, 0) == {};
    DropNone(listed.book);
    assert Prune(listed, 0) == listed;
    LotBuySweeps(maker, taker);
    var fill := Book.MakeFill(maker, taker, 10);
    var ready := listed.(book := Book.BookState([], [], Some(100)), orders := listed.orders[db := buy]);
    assert PlaceSigned(ctx, listed, buy, 0, 2).0 == PairFills(ctx, ready, [fill], 0);
    assert [fill][1..] == [];
    assert PairFills(ctx, ready, [fill], 0) == PairFill(ctx, ready, fill, 0);
  }

  lemma LotBuySweeps(maker: Book.Order, taker: Book.Order)
    requires maker.qty == taker.qty == 10 && maker.owner != taker.owner && Book.Crosses(maker, taker)
    ensures Book.Sweep([maker], taker) == Book.Swept([Book.MakeFill(maker, taker, 10)], [], taker.(qty := 0))
  {
    assert [maker][1..] == [];
    assert Book.Sweep([], taker.(qty := 0)) == Book.Swept([], [], taker.(qty := 0));
  }

  // ------------------------------------------------------------------ whole runs

  datatype Step =
    | Signed(so: SignedOrder, now: int, ts: int)
    | Unsigned(order: Book.Order)
    | Cancel(id: Book.OrderId)

  /** Unsigned orders carry ids the venue makes up, never a digest. */
  predicate Allowed(step: Step) {
    step.Unsigned? ==> step.order.id.Local?
  }

  function After(ctx: Ctx, v: Venue, step: Step): Venue {
    match step
    case Signed(so, now, ts) => PlaceSigned(ctx, v, so, now, ts).0
    case Unsigned(order) => v.(book := Book.PlaceIn(ctx.cfg, v.book, order).0)
    case Cancel(id) => v.(book := Book.CancelIn(v.book, id).0)
  }

  lemma UnsignedKeeps(ctx: Ctx, v: Venue, o: Book.Order)
    requires VenueInv(ctx, v) && o.id.Local?
    ensures VenueInv(ctx, After(ctx, v, Unsigned(o)))
    ensures Committed(ctx, v) ==> Committed(ctx, After(ctx, v, Unsigned(o)))
  {
    PlaceKeepsInvariant(ctx.cfg, v.book, o);
    var w := After(ctx, v, Unsigned(o));
    if Book.PlaceIn(ctx.cfg, v.book, o).1.Success? {
      PlaceLinks(ctx, v.orders, v.book, o);
      forall d ensures RestingFor(w.book, d) <= RestingFor(v.book, d) {
        PlaceResting(ctx.cfg, v.book, o, Book.Digest(d));
      }
    }
  }

  lemma RemoveLinks(ctx: Ctx, orders: map<Hash, SignedOrder>, book: seq<Book.Order>, id: Book.OrderId)
    requires AllLinked(ctx, orders, book)
    ensures AllLinked(ctx, orders, Book.RemoveId(book, id))
  {
    var n := RemoveCuts(book, id);
  }

  lemma CancelKeeps(ctx: Ctx, v: Venue, id: Book.OrderId)
    requires VenueInv(ctx, v)
    ensures VenueInv(ctx, After(ctx, v, Cancel(id)))
    ensures Committed(ctx, v) ==> Committed(ctx, After(ctx, v, Cancel(id)))
  {
    CancelKeepsInvariant(ctx.cfg, v.book, id);
    RemoveLinks(ctx, v.orders, v.book.bids, id);
    RemoveLinks(ctx, v.orders, v.book.asks, id);
    var w := After(ctx, v, Cancel(id));
    forall d ensures RestingFor(w.book, d) <= RestingFor(v.book, d) {
      CancelResting(v.book, id, Book.Digest(d));
    }
  }

  /** The step accepts an order that is no longer live but has fills queued. */
  ghost predicate Refilling(ctx: Ctx, v: Venue, step: Step) {
    && step.Signed? && PlaceSigned(ctx, v, step.so, step.now, step.ts).1.Success?
    && Refills(ctx, v, step.so, step.now)
  }

  lemma StepKeepsIff(ctx: Ctx, v: Venue, step: Step)
    requires VenueInv(ctx, v) && Allowed(step) && (step.Signed? ==> Agrees(ctx, v, step.so))
    ensures VenueInv(ctx, After(ctx, v, step))
    ensures Committed(ctx, v) ==> (Committed(ctx, After(ctx, v, step)) <==> !Refilling(ctx, v, step))
  {
    match step {
      case Signed(so, now, ts) =>
        PlaceKeepsVenue(ctx, v, so, now, ts);
        if Committed(ctx, v) { PlaceSignedKeepsIff(ctx, v, so, now, ts); }
      case Unsigned(order) => UnsignedKeeps(ctx, v, order);
      case Cancel(id) => CancelKeeps(ctx, v, id);
    }
  }

  const EMPTY_VENUE := Venue(Book.EMPTY_BOOK, map[], map[], [])

  /** A run of venue operations from the empty venue, with clock readings in any order. */
  ghost predicate Runs(ctx: Ctx, states: seq<Venue>, steps: seq<Step>) {
    && |states| == |steps| + 1 && states[0] == EMPTY_VENUE
    && forall i :: 0 <= i < |steps| ==> Allowed(steps[i]) && states[i+1] == After(ctx, states[i], steps[i])
  }

  /** The signed orders of a run have different digests if they differ. */
  ghost predicate TellApart(c: Crypto, steps: seq<Step>) {
    forall j, k :: 0 <= j < |steps| && 0 <= k < |steps| && steps[j].Signed? && steps[k].Signed?
                   && c.orderDigest(steps[j].so.order) == c.orderDigest(steps[k].so.order) ==>
      steps[j].so.order == steps[k].so.order
  }

  ghost predicate Submitted(steps: seq<Step>, o: Order) {
    exists k :: 0 <= k < |steps| && steps[k].Signed? && steps[k].so.order == o
  }

  /** Every order the venue knows or has filled was submitted. */
  ghost predicate Sourced(v: Venue, steps: seq<Step>) {
    && (forall d :: d in v.orders ==> Submitted(steps, v.orders[d].order))
    && (forall j :: 0 <= j < |v.outbox| ==>
          Submitted(steps, v.outbox[j].buy.order) && Submitted(steps, v.outbox[j].sell.order))
  }

  lemma SourcedAgrees(ctx: Ctx, v: Venue, steps: seq<Step>, i: nat)
    requires VenueInv(ctx, v) && Sourced(v, steps) && TellApart(ctx.crypto, steps)
    requires i < |steps| && steps[i].Signed?
    ensures Agrees(ctx, v, steps[i].so)
  {
    var d := ctx.crypto.orderDigest(steps[i].so.order);
    if d in v.orders {
      var k :| 0 <= k < |steps| && steps[k].Signed? && steps[k].so.order == v.orders[d].order;
    }
  }

  lemma {:induction false} PairFillsSourced(ctx: Ctx, v: Venue, fills: seq<Book.Fill>, now: int, steps: seq<Step>)
    requires Sourced(v, steps)
    ensures Sourced(PairFills(ctx, v, fills, now), steps)
    decreases |fills|
  {
    if fills != [] {
      assert Sourced(PairFill(ctx, v, fills[0], now), steps);
      PairFillsSourced(ctx, PairFill(ctx, v, fills[0], now), fills[1..], now, steps);
    }
  }

  lemma StepSourced(ctx: Ctx, v: Venue, steps: seq<Step>, i: nat)
    requires VenueInv(ctx, v) && Sourced(v, steps) && i < |steps|
    ensures Sourced(After(ctx, v, steps[i]), steps)
  {
    match steps[i] {
      case Signed(so, now, ts) =>
        assert Submitted(steps, so.order);
        if PlaceSigned(ctx, v, so, now, ts).1.Success? {
          AcceptedIsAdmitted(ctx, v, so, now, ts);
          var pruned := Prune(v, now);
          PairFillsSourced(ctx, Ready(ctx, pruned, so, ts), AdmittedFills(ctx, pruned, so, now, ts), now, steps);
        }
      case Unsigned(order) =>
      case Cancel(id) =>
    }
  }

  lemma EmptyVenueFits(ctx: Ctx, steps: seq<Step>)
    ensures LedgerInv(ctx, EMPTY_VENUE) && Sourced(EMPTY_VENUE, steps)
  {
  }

  /** In every run, at every moment: a good book, whose signed orders are live, verified and linked to
      their terms. */
  lemma {:induction false} RunKeepsVenue(ctx: Ctx, states: seq<Venue>, steps: seq<Step>, i: nat)
    requires Runs(ctx, states, steps) && TellApart(ctx.crypto, steps) && i < |states|
    ensures VenueInv(ctx, states[i]) && Sourced(states[i], steps)
    ensures i < |steps| && steps[i].Signed? ==> Agrees(ctx, states[i], steps[i].so)
  {
    if i > 0 {
      RunKeepsVenue(ctx, states, steps, i - 1);
      assert Allowed(steps[i-1]) && states[i] == After(ctx, states[i-1], steps[i-1]);
      hide Runs, After, TellApart;
      StepKeepsIff(ctx, states[i-1], steps[i-1]);
      StepSourced(ctx, states[i-1], steps, i - 1);
      hide VenueInv, Sourced, Agrees;
    } else {
      EmptyVenueFits(ctx, steps);
      hide VenueInv, Sourced, Agrees, TellApart;
    }
    if i < |steps| && steps[i].Signed? {
      SourcedAgrees(ctx, states[i], steps, i);
    }
  }

  lemma LedgerStepIff(ctx: Ctx, states: seq<Venue>, steps: seq<Step>, i: nat)
    requires Runs(ctx, states, steps) && TellApart(ctx.crypto, steps) && i < |steps|
    ensures Committed(ctx, states[i]) ==> (Committed(ctx, states[i+1]) <==> !Refilling(ctx, states[i], steps[i]))
  {
    RunKeepsVenue(ctx, states, steps, i);
    assert Allowed(steps[i]) && states[i+1] == After(ctx, states[i], steps[i]);
    hide Runs, After, TellApart, VenueInv, Sourced, Agrees, Committed, Refilling;
    StepKeepsIff(ctx, states[i], steps[i]);
  }

  lemma StartsCommitted(ctx: Ctx, states: seq<Venue>, steps: seq<Step>)
    requires Runs(ctx, states, steps)
    ensures Committed(ctx, states[0])
  {
  }

  /** The ledger, exactly. Up to any moment of any run, every live signed order has filled plus resting
      quantity at most its signed size and a fill counter equal to the quantity ever queued for it,
      if and only if no step so far accepted an order that was no longer live but had fills queued. */
  lemma {:induction false} LedgerHoldsIff(ctx: Ctx, states: seq<Venue>, steps: seq<Step>, i: nat)
    requires Runs(ctx, states, steps) && TellApart(ctx.crypto, steps) && i < |states|
    ensures (forall k :: 0 <= k <= i ==> Committed(ctx, states[k]))
            <==> (forall k :: 0 <= k < i ==> !Refilling(ctx, states[k], steps[k]))
  {
    hide TellApart, Committed, Refilling, After;
    if i == 0 {
      StartsCommitted(ctx, states, steps);
    } else {
      LedgerHoldsIff(ctx, states, steps, i - 1);
      LedgerStepIff(ctx, states, steps, i - 1);
    }
  }

  // ------------------------------------------------------------------ the clock

  /** The largest clock reading among the first `i` operations. */
  function LatestNow(steps: seq<Step>, i: nat): int
    requires i <= |steps|
  {
    if i == 0 then 0
    else if steps[i-1].Signed? then Max(LatestNow(steps, i - 1), steps[i-1].now)
    else LatestNow(steps, i - 1)
  }

  /** A placement enters in the order of its clock reading, or is of an order that outlives every
      reading so far. */
  predicate Timely(steps: seq<Step>, i: nat)
    requires i < |steps|
  {
    steps[i].Signed? ==> steps[i].now >= LatestNow(steps, i) || steps[i].so.order.expiry >= LatestNow(steps, i)
  }

  lemma ReadyHistory(ctx: Ctx, pruned: Venue, so: SignedOrder, now: int, ts: int, clock: int)
    requires Agrees(ctx, pruned, so) && HistoryOk(ctx, pruned, clock)
    ensures HistoryOk(ctx, Ready(ctx, pruned, so, ts), clock)
  {
    var ready := Ready(ctx, pruned, so, ts);
    forall j | 0 <= j < |ready.outbox|
      ensures Recalled(ctx, ready, ready.outbox[j].buy.order, clock)
      ensures Recalled(ctx, ready, ready.outbox[j].sell.order, clock)
    {
      assert Recalled(ctx, pruned, pruned.outbox[j].buy.order, clock);
      assert Recalled(ctx, pruned, pruned.outbox[j].sell.order, clock);
    }
  }

  lemma PlaceHistory(ctx: Ctx, v: Venue, so: SignedOrder, now: int, ts: int, clock: int)
    requires VenueInv(ctx, v) && HistoryOk(ctx, v, clock) && Agrees(ctx, v, so)
    requires PlaceSigned(ctx, v, so, now, ts).1.Success?
    ensures HistoryOk(ctx, PlaceSigned(ctx, v, so, now, ts).0, Max(clock, now))
  {
    var pruned := Prune(v, now);
    AcceptedIsAdmitted(ctx, v, so, now, ts);
    ReadyBook(ctx, pruned, so, now, ts);
    ReadyHistory(ctx, pruned, so, now, ts, Max(clock, now));
    hide HistoryOk, VenueInv, Prune, PairFills, PlaceSigned;
    PairFillsHistory(ctx, Ready(ctx, pruned, so, ts), AdmittedFills(ctx, pruned, so, now, ts), now, Max(clock, now));
  }

  lemma StepHistory(ctx: Ctx, v: Venue, step: Step, clock: int)
    requires VenueInv(ctx, v) && HistoryOk(ctx, v, clock)
    requires Allowed(step) && (step.Signed? ==> Agrees(ctx, v, step.so))
    ensures HistoryOk(ctx, After(ctx, v, step), if step.Signed? then Max(clock, step.now) else clock)
  {
    if step.Signed? {
      var Signed(so, now, ts) := step;
      if PlaceSigned(ctx, v, so, now, ts).1.Success? {
        PlaceHistory(ctx, v, so, now, ts, clock);
      } else {
        assert HistoryOk(ctx, v, Max(clock, now));
      }
    }
    hide HistoryOk, VenueInv, Agrees, Prune;
  }

  lemma {:induction false} RunHistory(ctx: Ctx, states: seq<Venue>, steps: seq<Step>, i: nat)
    requires Runs(ctx, states, steps) && TellApart(ctx.crypto, steps) && i < |states|
    ensures HistoryOk(ctx, states[i], LatestNow(steps, i))
  {
    if i == 0 {
      assert states[0] == EMPTY_VENUE;
    } else {
      hide After, TellApart, HistoryOk, VenueInv, Sourced, Agrees;
      RunHistory(ctx, states, steps, i - 1);
      RunKeepsVenue(ctx, states, steps, i - 1);
      StepHistory(ctx, states[i-1], steps[i-1], LatestNow(steps, i - 1));
    }
  }

  /** A timely placement never refills. */
  lemma TimelyNeverRefills(ctx: Ctx, states: seq<Venue>, steps: seq<Step>, i: nat)
    requires Runs(ctx, states, steps) && TellApart(ctx.crypto, steps)
    requires i < |steps| && Timely(steps, i)
    ensures !Refilling(ctx, states[i], steps[i])
  {
    var v, step := states[i], steps[i];
    if Refilling(ctx, v, step) {
      var d := ctx.crypto.orderDigest(step.so.order);
      RunKeepsVenue(ctx, states, steps, i);
      RunHistory(ctx, states, steps, i);
      AcceptedIsAdmitted(ctx, v, step.so, step.now, step.ts);
      forall j | 0 <= j < |v.outbox|
        ensures ctx.crypto.orderDigest(v.outbox[j].buy.order) != d
        ensures ctx.crypto.orderDigest(v.outbox[j].sell.order) != d
      {
      }
      QueuedNone(ctx, v.outbox, d);
    }
  }

  /** In every run whose placements are timely, and so in every run whose clock readings enter in
      order, at every moment, every live signed order has filled plus resting quantity at most its
      signed size, and its fill counter is exactly the quantity of the signed fills ever queued. */
  lemma LedgerAlwaysHolds(ctx: Ctx, states: seq<Venue>, steps: seq<Step>, i: nat)
    requires Runs(ctx, states, steps) && TellApart(ctx.crypto, steps) && i < |states|
    requires forall k :: 0 <= k < |steps| ==> Timely(steps, k)
    ensures LedgerInv(ctx, states[i]) && Committed(ctx, states[i])
  {
    forall k | 0 <= k < i ensures !Refilling(ctx, states[k], steps[k]) {
      TimelyNeverRefills(ctx, states, steps, k);
    }
    LedgerHoldsIff(ctx, states, steps, i);
    RunKeepsVenue(ctx, states, steps, i);
  }
}
