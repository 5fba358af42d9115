/** Concrete runs of the venue that break what a reader may expect of its ledger: a signed order that
    trades twice its size because what it printed against an unsigned party is not counted, and one
    put back for its full size by a clock reading that enters late. */
module LedgerExamples {
  import opened Wrappers
  import opened SettlementCore
  import opened BookProperties
  import opened BookConservation
  import opened SignedLedger
  import opened LedgerSteps
  import opened LedgerProperties
  import opened LedgerPrints
  import Book = OrderBook

  /** A ten-token sell at a hundred. */
  predicate TenSell(ctx: Ctx, sell: SignedOrder) {
    && ctx.cfg.tickSize == 1 && ctx.cfg.minQty == 1 && ctx.crypto.Verifies(sell)
    && sell.order == Order(ctx.crypto.instrumentHash(ctx.cfg.instrument), SIDE_SELL, 100, 10, 0, 1, 100, 0)
  }

  /** The venue with only the sell resting. */
  function Offering(ctx: Ctx, sell: SignedOrder, last: Option<int>, ts: int): Venue {
    var d := ctx.crypto.orderDigest(sell.order);
    Venue(Book.BookState([], [BookOrderOf(ctx, d, sell.order, 10, ts)], last), map[d := sell], map[], [])
  }

  function Idle(last: Option<int>, orders: map<Hash, SignedOrder>): Venue {
    Venue(Book.BookState([], [], last), orders, map[], [])
  }

  lemma ListsFirst(ctx: Ctx, sell: SignedOrder)
    requires TenSell(ctx, sell)
    ensures After(ctx, EMPTY_VENUE, Signed(sell, 0, 1)) == Offering(ctx, sell, None, 1)
    ensures PrintsOf(ctx, EMPTY_VENUE, Signed(sell, 0, 1)) == []
  {
  }

  lemma ListsAgain(ctx: Ctx, sell: SignedOrder)
    requires TenSell(ctx, sell)
    ensures var idle := Idle(Some(100), map[ctx.crypto.orderDigest(sell.order) := sell]);
            && After(ctx, idle, Signed(sell, 0, 2)) == Offering(ctx, sell, Some(100), 2)
            && PrintsOf(ctx, idle, Signed(sell, 0, 2)) == []
  {
    var signed := map[ctx.crypto.orderDigest(sell.order) := sell];
    assert signed[ctx.crypto.orderDigest(sell.order) := sell] == signed;
  }

  // ------------------------------------------------------------------ a signed order that trades twice

  function UnsignedBuy(ctx: Ctx, n: nat): Book.Order {
    Book.Order(Book.Local(n), ctx.cfg.instrument, Buy, 100, 10, 2, n)
  }

  lemma UnsignedTakes(ctx: Ctx, sell: SignedOrder, last: Option<int>, ts: int, n: nat) returns (fill: Book.Fill)
    requires TenSell(ctx, sell)
    ensures var d, listed := ctx.crypto.orderDigest(sell.order), Offering(ctx, sell, last, ts);
            && After(ctx, listed, Unsigned(UnsignedBuy(ctx, n))) == Idle(Some(100), map[d := sell])
            && PrintsOf(ctx, listed, Unsigned(UnsignedBuy(ctx, n))) == [fill]
            && fill.makerId == Book.Digest(d) && fill.qty == 10
  {
    var maker := BookOrderOf(ctx, ctx.crypto.orderDigest(sell.order), sell.order, 10, ts);
    LotBuySweeps(maker, UnsignedBuy(ctx, n));
    fill := Book.MakeFill(maker, UnsignedBuy(ctx, n), 10);
  }

  lemma TwoPrints(ctx: Ctx, states: seq<Venue>, steps: seq<Step>, d: Hash, a: Book.Fill, b: Book.Fill)
    requires |states| == 5 && |steps| == 4
    requires PrintsOf(ctx, states[0], steps[0]) == PrintsOf(ctx, states[2], steps[2]) == []
    requires PrintsOf(ctx, states[1], steps[1]) == [a] && PrintsOf(ctx, states[3], steps[3]) == [b]
    requires a.makerId == b.makerId == Book.Digest(d)
    ensures PrintedEver(ctx, states, steps, 4, d) == a.qty + b.qty
  {
    hide PrintsOf;
    assert [a][1..] == [] && [b][1..] == [];
    assert PrintedEver(ctx, states, steps, 1, d) == 0;
    assert PrintedEver(ctx, states, steps, 3, d) == a.qty;
  }

  /** Four operations make a run. */
  lemma FourStepsRun(ctx: Ctx, states: seq<Venue>, steps: seq<Step>)
    requires |states| == 5 && |steps| == 4 && states[0] == EMPTY_VENUE
    requires forall i :: 0 <= i < 4 ==> states[i+1] == After(ctx, states[i], steps[i]) && Allowed(steps[i])
    ensures Runs(ctx, states, steps)
  {
  }

  /** A ten-token sell, taken in full by an unsigned buy, counts as unfilled, so the same signed order
      is accepted again and trades twenty. */
  lemma SignedOrderTradesTwice(ctx: Ctx, sell: SignedOrder) returns (states: seq<Venue>, steps: seq<Step>)
    requires TenSell(ctx, sell)
    ensures Runs(ctx, states, steps) && |steps| == 4
    ensures forall k :: 0 <= k < 4 && steps[k].Signed? ==> steps[k].now == 0
    ensures PrintedEver(ctx, states, steps, 4, ctx.crypto.orderDigest(sell.order)) == 20
    ensures states[4].outbox == [] && states[4].Filled(ctx.crypto.orderDigest(sell.order)) == 0
  {
    var d := ctx.crypto.orderDigest(sell.order);
    var signed := map[d := sell];
    hide PrintsOf, After, PrintedEver, Runs, Offering, Accepts;
    ListsFirst(ctx, sell);
    var f1 := UnsignedTakes(ctx, sell, None, 1, 1);
    ListsAgain(ctx, sell);
    var f2 := UnsignedTakes(ctx, sell, Some(100), 2, 2);
    states := [EMPTY_VENUE, Offering(ctx, sell, None, 1), Idle(Some(100), signed),
               Offering(ctx, sell, Some(100), 2), Idle(Some(100), signed)];
    steps := [Signed(sell, 0, 1), Unsigned(UnsignedBuy(ctx, 1)), Signed(sell, 0, 2), Unsigned(UnsignedBuy(ctx, 2))];
    TwoPrints(ctx, states, steps, d, f1, f2);
    FourStepsRun(ctx, states, steps);
  }

  // ------------------------------------------------------------------ a clock reading that enters late

  predicate TenBuy(ctx: Ctx, buy: SignedOrder) {
    && ctx.crypto.Verifies(buy)
    && buy.order == Order(ctx.crypto.instrumentHash(ctx.cfg.instrument), SIDE_BUY, 100, 10, 0, 2, 1000, 0)
  }

  /** The venue after the sell and the buy have traded in full. */
  function Settled(ctx: Ctx, sell: SignedOrder, buy: SignedOrder): Venue {
    var s, b := ctx.crypto.orderDigest(sell.order), ctx.crypto.orderDigest(buy.order);
    Venue(Book.BookState([], [], Some(100)), map[s := sell, b := buy], map[s := 10, b := 10],
          [SignedFill(buy, sell, 10, 100)])
  }

  lemma BuyTrades(ctx: Ctx, sell: SignedOrder, buy: SignedOrder) returns (fill: Book.Fill)
    requires TenSell(ctx, sell) && TenBuy(ctx, buy)
    requires ctx.crypto.orderDigest(sell.order) != ctx.crypto.orderDigest(buy.order)
    ensures var listed, step := Offering(ctx, sell, None, 1), Signed(buy, 0, 2);
            && After(ctx, listed, step) == Settled(ctx, sell, buy)
            && PrintsOf(ctx, listed, step) == [fill]
            && fill.makerId == Book.Digest(ctx.crypto.orderDigest(sell.order)) && fill.qty == 10
  {
    var listed, b := Offering(ctx, sell, None, 1), ctx.crypto.orderDigest(buy.order);
    var maker, taker := listed.book.asks[0], BookOrderOf(ctx, b, buy.order, 10, 2);
    assert ExpiredBy(listed, 0) == {};
    DropNone(listed.book);
    assert Prune(listed, 0) == listed;
    LotBuySweeps(maker, taker);
    fill := Book.MakeFill(maker, taker, 10);
    var ready := listed.(book := Book.BookState([], [], Some(100)), orders := listed.orders[b := buy]);
    assert PlaceSigned(ctx, listed, buy, 0, 2).0 == PairFills(ctx, ready, [fill], 0);
    assert [fill][1..] == [];
    assert PairFills(ctx, ready, [fill], 0) == PairFill(ctx, ready, fill, 0);
  }

  /** At 101 the sell has expired; the buy, resubmitted, is refused as filled, but not before pruning. */
  function Pruned(ctx: Ctx, sell: SignedOrder, buy: SignedOrder): Venue {
    var b := ctx.crypto.orderDigest(buy.order);
    Settled(ctx, sell, buy).(orders := map[b := buy], filled := map[b := 10])
  }

  lemma ResubmissionPrunes(ctx: Ctx, sell: SignedOrder, buy: SignedOrder)
    requires TenSell(ctx, sell) && TenBuy(ctx, buy)
    requires ctx.crypto.orderDigest(sell.order) != ctx.crypto.orderDigest(buy.order)
    ensures After(ctx, Settled(ctx, sell, buy), Signed(buy, 101, 3)) == Pruned(ctx, sell, buy)
    ensures PrintsOf(ctx, Settled(ctx, sell, buy), Signed(buy, 101, 3)) == []
  {
    var v, s := Settled(ctx, sell, buy), ctx.crypto.orderDigest(sell.order);
    assert ExpiredBy(v, 101) == {s};
    assert Prune(v, 101) == Pruned(ctx, sell, buy);
  }

  /** The venue after the sell has been put back. */
  function PutBack(ctx: Ctx, sell: SignedOrder, buy: SignedOrder): Venue {
    var d, v := ctx.crypto.orderDigest(sell.order), Pruned(ctx, sell, buy);
    v.(book := Book.BookState([], [BookOrderOf(ctx, d, sell.order, 10, 4)], Some(100)), orders := v.orders[d := sell])
  }

  function LateStates(ctx: Ctx, sell: SignedOrder, buy: SignedOrder): seq<Venue> {
    [EMPTY_VENUE, Offering(ctx, sell, None, 1), Settled(ctx, sell, buy), Pruned(ctx, sell, buy),
     PutBack(ctx, sell, buy)]
  }

  /** A placement that read 100 enters after one that read 101. */
  function LateSteps(sell: SignedOrder, buy: SignedOrder): seq<Step> {
    [Signed(sell, 0, 1), Signed(buy, 0, 2), Signed(buy, 101, 3), Signed(sell, 100, 4)]
  }

  lemma LateRuns(ctx: Ctx, sell: SignedOrder, buy: SignedOrder)
    requires TenSell(ctx, sell) && TenBuy(ctx, buy)
    requires ctx.crypto.orderDigest(sell.order) != ctx.crypto.orderDigest(buy.order)
    ensures Runs(ctx, LateStates(ctx, sell, buy), LateSteps(sell, buy))
  {
    hide PrintsOf, After, Runs, Accepts, Offering, Settled, Pruned, PutBack, Refilling;
    ListsFirst(ctx, sell);
    var fill := BuyTrades(ctx, sell, buy);
    ResubmissionPrunes(ctx, sell, buy);
    LateIsRefilling(ctx, sell, buy);
    FourStepsRun(ctx, LateStates(ctx, sell, buy), LateSteps(sell, buy));
  }

  lemma PutBackBreaks(ctx: Ctx, sell: SignedOrder, buy: SignedOrder)
    requires TenSell(ctx, sell) && TenBuy(ctx, buy)
    requires ctx.crypto.orderDigest(sell.order) != ctx.crypto.orderDigest(buy.order)
    ensures var d, v := ctx.crypto.orderDigest(sell.order), PutBack(ctx, sell, buy);
            && v.Filled(d) == 0 && RestingFor(v.book, d) == 10 && QueuedFor(ctx.crypto, v.outbox, d) == 10
            && !Committed(ctx, v)
  {
    var d := ctx.crypto.orderDigest(sell.order);
    var rest, queued := BookOrderOf(ctx, d, sell.order, 10, 4), SignedFill(buy, sell, 10, 100);
    assert [queued][..0] == [] && [rest][1..] == [];
    assert QueuedFor(ctx.crypto, [queued], d) == 10;
    assert RestingOf([rest], Book.Digest(d)) == 10;
  }

  /** The clock matters. The sell has filled, expired and been forgotten when the late placement is
      accepted, and is put back for its full size. */
  lemma LateClockRefills(ctx: Ctx, sell: SignedOrder, buy: SignedOrder) returns (states: seq<Venue>, steps: seq<Step>)
    requires TenSell(ctx, sell) && TenBuy(ctx, buy)
    requires ctx.crypto.orderDigest(sell.order) != ctx.crypto.orderDigest(buy.order)
    ensures Runs(ctx, states, steps) && TellApart(ctx.crypto, steps) && |steps| == 4
    ensures Refilling(ctx, states[3], steps[3]) && !Timely(steps, 3) && !Committed(ctx, states[4])
    ensures var d := ctx.crypto.orderDigest(sell.order);
            && states[4].Filled(d) == 0 && RestingFor(states[4].book, d) == 10
            && QueuedFor(ctx.crypto, states[4].outbox, d) == 10
  {
    states, steps := LateStates(ctx, sell, buy), LateSteps(sell, buy);
    LateRuns(ctx, sell, buy);
    PutBackBreaks(ctx, sell, buy);
    LateIsRefilling(ctx, sell, buy);
    hide Runs, Refilling, Committed, Timely, PutBack, QueuedFor;
  }

  lemma LateIsRefilling(ctx: Ctx, sell: SignedOrder, buy: SignedOrder)
    requires TenSell(ctx, sell) && TenBuy(ctx, buy)
    requires ctx.crypto.orderDigest(sell.order) != ctx.crypto.orderDigest(buy.order)
    ensures Refilling(ctx, Pruned(ctx, sell, buy), Signed(sell, 100, 4))
    ensures After(ctx, Pruned(ctx, sell, buy), Signed(sell, 100, 4)) == PutBack(ctx, sell, buy)
  {
    assert [SignedFill(buy, sell, 10, 100)][..0] == [];
  }
}
