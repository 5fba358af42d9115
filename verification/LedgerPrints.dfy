/** What trades for a signed order, as against what the venue counts for it: the ledger bounds the
    fills it queues, not the prints, and this is exactly by how much the two can differ. */
module LedgerPrints {
  import opened Wrappers
  import opened SettlementCore
  import opened BookProperties
  import opened BookConservation
  import opened SignedLedger
  import opened LedgerSteps
  import opened LedgerProperties
  import Book = OrderBook

  /** The prints of one venue operation. */
  function PrintsOf(ctx: Ctx, v: Venue, step: Step): seq<Book.Fill> {
    match step
    case Signed(so, now, ts) =>
      var r := PlaceSigned(ctx, v, so, now, ts).1;
      if r.Success? then r.value.fills else []
    case Unsigned(order) =>
      var r := Book.PlaceIn(ctx.cfg, v.book, order).1;
      if r.Success? then r.value.fills else []
    case Cancel(id) => []
  }

  /** A print between two signed orders whose buy names no lot. */
  predicate Counts(v: Venue, step: Step, f: Book.Fill) {
    && step.Signed? && Known(v, f.makerId)
    && (if step.so.order.side == SIDE_BUY then step.so.order else v.orders[f.makerId.digest].order).lotId == ZERO_HASH
  }

  predicate Names(f: Book.Fill, d: Hash) {
    f.makerId == Book.Digest(d) || f.takerId == Book.Digest(d)
  }

  /** Quantity of the prints naming a digest that do not count. */
  function UncountedFor(v: Venue, step: Step, fills: seq<Book.Fill>, d: Hash): int {
    if fills == [] then 0
    else
      (if Names(fills[0], d) && !Counts(v, step, fills[0]) then fills[0].qty else 0)
      + UncountedFor(v, step, fills[1..], d)
  }

  lemma {:induction false} UncountedWithin(v: Venue, step: Step, fills: seq<Book.Fill>, d: Hash)
    requires forall j :: 0 <= j < |fills| ==> fills[j].qty > 0
    ensures 0 <= UncountedFor(v, step, fills, d) <= PrintedFor(fills, Book.Digest(d))
    ensures UncountedFor(v, step, fills, d) == 0 <==>
              forall j :: 0 <= j < |fills| && Names(fills[j], d) ==> Counts(v, step, fills[j])
  {
    if fills != [] {
      UncountedWithin(v, step, fills[1..], d);
      assert forall j :: 0 < j < |fills| ==> fills[j] == fills[1..][j-1];
    }
  }

  // ------------------------------------------------------------------ one placement

  /** A print of two different ids that is paired exactly when it counts. */
  ghost predicate PairedAsCounted(ctx: Ctx, v: Venue, orders: map<Hash, SignedOrder>, step: Step, f: Book.Fill,
                                  now: int) {
    && f.makerId != f.takerId && f.qty > 0
    && (Paired(ctx, orders, f, now) <==> Counts(v, step, f))
  }

  predicate Paired(ctx: Ctx, orders: map<Hash, SignedOrder>, f: Book.Fill, now: int) {
    && f.makerId.Digest? && f.makerId.digest in orders && f.takerId.Digest? && f.takerId.digest in orders
    && PairOrders(ctx.crypto, orders[f.makerId.digest], orders[f.takerId.digest], f.qty, now).Some?
  }

  ghost predicate Keyed(c: Crypto, orders: map<Hash, SignedOrder>) {
    forall d :: d in orders ==> c.orderDigest(orders[d].order) == d
  }

  /** Pairing one print queues its quantity for the two orders it names, or nothing. */
  lemma PairFillQueues(ctx: Ctx, v: Venue, f: Book.Fill, now: int, d: Hash)
    requires Keyed(ctx.crypto, v.orders) && f.makerId != f.takerId
    ensures QueuedFor(ctx.crypto, PairFill(ctx, v, f, now).outbox, d) - QueuedFor(ctx.crypto, v.outbox, d)
            == if Paired(ctx, v.orders, f, now) && Names(f, d) then f.qty else 0
    ensures PairFill(ctx, v, f, now).orders == v.orders
  {
    hide QueuedFor;
    if Paired(ctx, v.orders, f, now) {
      var pair := PairOrders(ctx.crypto, v.orders[f.makerId.digest], v.orders[f.takerId.digest], f.qty, now);
      QueuedPush(ctx.crypto, v.outbox, pair.value, d);
    }
  }

  lemma {:induction false} PairFillsQueue(ctx: Ctx, v: Venue, ready: Venue, step: Step, fills: seq<Book.Fill>, now: int,
                                          d: Hash)
    requires forall j :: 0 <= j < |fills| ==> PairedAsCounted(ctx, v, ready.orders, step, fills[j], now)
    requires Keyed(ctx.crypto, ready.orders)
    ensures QueuedFor(ctx.crypto, PairFills(ctx, ready, fills, now).outbox, d) - QueuedFor(ctx.crypto, ready.outbox, d)
            == PrintedFor(fills, Book.Digest(d)) - UncountedFor(v, step, fills, d)
    decreases |fills|
  {
    hide QueuedFor, PairFill, Counts, Keyed, Paired;
    if fills != [] {
      assert PairedAsCounted(ctx, v, ready.orders, step, fills[0], now);
      PairFillQueues(ctx, ready, fills[0], now, d);
      PairFillsQueue(ctx, v, PairFill(ctx, ready, fills[0], now), step, fills[1..], now, d);
    }
  }

  /** A print names the new order as taker and, if its maker is signed at all, a live order of the
      other side. */
  lemma MakerIsLive(ctx: Ctx, pruned: Venue, b: Book.Order, j: nat)
    requires VenueInv(ctx, pruned) && Book.PlaceIn(ctx.cfg, pruned.book, b).1.Success?
    requires j < |Book.PlaceIn(ctx.cfg, pruned.book, b).1.value.fills|
    ensures var f := Book.PlaceIn(ctx.cfg, pruned.book, b).1.value.fills[j];
            && f.takerId == b.id != f.makerId && f.qty > 0
            && (f.makerId.Digest? ==>
                  && f.makerId.digest in pruned.orders
                  && (pruned.orders[f.makerId.digest].order.side == SIDE_BUY <==> b.side == Sell))
            && exists i :: 0 <= i < |pruned.book.Opposing(b.side)| && pruned.book.Opposing(b.side)[i].id == f.makerId
  {
    var makers := pruned.book.Opposing(b.side);
    var f := Book.PlaceIn(ctx.cfg, pruned.book, b).1.value.fills[j];
    FillsPairable(ctx.cfg, pruned.book, b);
    FillsAreSound(makers, b, j);
    hide Book.PlaceIn;
    var i :| 0 <= i < |makers| && f.makerId == makers[i].id && f.makerOwner == makers[i].owner
             && f.price == makers[i].price && f.qty <= makers[i].qty;
    assert Linked(ctx, pruned.orders, makers[i]);
  }

  /** An admitted order's prints are paired exactly when they count. */
  lemma AdmittedPairs(ctx: Ctx, v: Venue, so: SignedOrder, now: int, ts: int, j: nat)
    requires VenueInv(ctx, Prune(v, now)) && Alive(Prune(v, now), now)
    requires Admitted(ctx, Prune(v, now), so, now, ts) && j < |AdmittedFills(ctx, Prune(v, now), so, now, ts)|
    ensures PairedAsCounted(ctx, v, Ready(ctx, Prune(v, now), so, ts).orders, Signed(so, now, ts),
                            AdmittedFills(ctx, Prune(v, now), so, now, ts)[j], now)
  {
    var pruned, d := Prune(v, now), ctx.crypto.orderDigest(so.order);
    var f := AdmittedFills(ctx, pruned, so, now, ts)[j];
    MakerIsLive(ctx, pruned, BookOrderOf(ctx, d, so.order, pruned.Remaining(d, so.order), ts), j);
    if Known(pruned, f.makerId) {
      AdmittedPrintSettlesIff(ctx, pruned, so, now, ts, j);
      hide VenueInv, Admitted, PairOrders, Book.PlaceIn;
      assert v.orders[f.makerId.digest] == pruned.orders[f.makerId.digest];
    } else {
      hide VenueInv, Admitted, PairOrders, Book.PlaceIn;
    }
  }

  lemma SignedQueues(ctx: Ctx, v: Venue, so: SignedOrder, now: int, ts: int, d: Hash)
    requires VenueInv(ctx, v) && Agrees(ctx, v, so)
    requires PlaceSigned(ctx, v, so, now, ts).1.Success?
    ensures var step := Signed(so, now, ts);
            var fills := PrintsOf(ctx, v, step);
            && QueuedFor(ctx.crypto, After(ctx, v, step).outbox, d) - QueuedFor(ctx.crypto, v.outbox, d)
               == PrintedFor(fills, Book.Digest(d)) - UncountedFor(v, step, fills, d)
            && forall j :: 0 <= j < |fills| ==> fills[j].qty > 0
  {
    AcceptedIsAdmitted(ctx, v, so, now, ts);
    var pruned := Prune(v, now);
    var ready, fills := Ready(ctx, pruned, so, ts), AdmittedFills(ctx, pruned, so, now, ts);
    forall j | 0 <= j < |fills| ensures PairedAsCounted(ctx, v, ready.orders, Signed(so, now, ts), fills[j], now) {
      AdmittedPairs(ctx, v, so, now, ts, j);
    }
    ReadyBook(ctx, pruned, so, now, ts);
    PairFillsQueue(ctx, v, ready, Signed(so, now, ts), fills, now, d);
  }

  lemma {:induction false} NoneCount(v: Venue, step: Step, fills: seq<Book.Fill>, d: Hash)
    requires !step.Signed?
    ensures UncountedFor(v, step, fills, d) == PrintedFor(fills, Book.Digest(d))
  {
    if fills != [] { NoneCount(v, step, fills[1..], d); }
  }

  lemma UnsignedQueues(ctx: Ctx, v: Venue, order: Book.Order, d: Hash)
    requires VenueInv(ctx, v)
    ensures var step := Unsigned(order);
            var fills := PrintsOf(ctx, v, step);
            && After(ctx, v, step).outbox == v.outbox
            && PrintedFor(fills, Book.Digest(d)) == UncountedFor(v, step, fills, d)
            && forall j :: 0 <= j < |fills| ==> fills[j].qty > 0
  {
    NoneCount(v, Unsigned(order), PrintsOf(ctx, v, Unsigned(order)), d);
    if Book.PlaceIn(ctx.cfg, v.book, order).1.Success? { FillsPairable(ctx.cfg, v.book, order); }
  }

  /** One operation queues, for any digest, exactly the prints naming it that count. */
  lemma StepQueues(ctx: Ctx, v: Venue, step: Step, d: Hash)
    requires VenueInv(ctx, v) && (step.Signed? ==> Agrees(ctx, v, step.so))
    ensures var fills := PrintsOf(ctx, v, step);
            && QueuedFor(ctx.crypto, After(ctx, v, step).outbox, d) - QueuedFor(ctx.crypto, v.outbox, d)
               == PrintedFor(fills, Book.Digest(d)) - UncountedFor(v, step, fills, d)
            && forall j :: 0 <= j < |fills| ==> fills[j].qty > 0
  {
    hide VenueInv, Agrees;
    match step {
      case Signed(so, now, ts) =>
        if PlaceSigned(ctx, v, so, now, ts).1.Success? { SignedQueues(ctx, v, so, now, ts, d); }
      case Unsigned(order) => UnsignedQueues(ctx, v, order, d);
      case Cancel(id) =>
    }
  }

  // ------------------------------------------------------------------ what exactly is queued

  /** The fill a counting print settles as: the two signed orders it names, each on its own side, at
      the printed quantity and price. */
  function FillOf(v: Venue, step: Step, f: Book.Fill): SignedFill
    requires Counts(v, step, f)
  {
    var maker := v.orders[f.makerId.digest];
    if step.so.order.side == SIDE_BUY then SignedFill(step.so, maker, f.qty, f.price)
    else SignedFill(maker, step.so, f.qty, f.price)
  }

  /** The fills of the counting prints, in order. */
  function FillsOf(v: Venue, step: Step, fills: seq<Book.Fill>): seq<SignedFill> {
    if fills == [] then []
    else (if Counts(v, step, fills[0]) then [FillOf(v, step, fills[0])] else []) + FillsOf(v, step, fills[1..])
  }

  /** Pairing a print queues its fill if it counts, and nothing otherwise. */
  ghost predicate QueuesAsCounted(ctx: Ctx, v: Venue, orders: map<Hash, SignedOrder>, step: Step, f: Book.Fill,
                                  now: int) {
    && (Paired(ctx, orders, f, now) <==> Counts(v, step, f))
    && (Paired(ctx, orders, f, now) ==>
          PairOrders(ctx.crypto, orders[f.makerId.digest], orders[f.takerId.digest], f.qty, now)
          == Some(FillOf(v, step, f)))
  }

  lemma AdmittedFillIs(ctx: Ctx, v: Venue, so: SignedOrder, now: int, ts: int, j: nat)
    requires VenueInv(ctx, Prune(v, now)) && Alive(Prune(v, now), now)
    requires Admitted(ctx, Prune(v, now), so, now, ts) && j < |AdmittedFills(ctx, Prune(v, now), so, now, ts)|
    ensures QueuesAsCounted(ctx, v, Ready(ctx, Prune(v, now), so, ts).orders, Signed(so, now, ts),
                            AdmittedFills(ctx, Prune(v, now), so, now, ts)[j], now)
  {
    var pruned, d := Prune(v, now), ctx.crypto.orderDigest(so.order);
    var f := AdmittedFills(ctx, pruned, so, now, ts)[j];
    var b := BookOrderOf(ctx, d, so.order, pruned.Remaining(d, so.order), ts);
    AdmittedPairs(ctx, v, so, now, ts, j);
    MakerIsLive(ctx, pruned, b, j);
    MakerPrice(ctx, pruned, b, j);
    hide VenueInv, Book.PlaceIn, Alive, ValidatePair;
  }

  /** A print against a signed maker is at that maker's signed price. */
  lemma MakerPrice(ctx: Ctx, pruned: Venue, b: Book.Order, j: nat)
    requires VenueInv(ctx, pruned) && Book.PlaceIn(ctx.cfg, pruned.book, b).1.Success?
    requires j < |Book.PlaceIn(ctx.cfg, pruned.book, b).1.value.fills|
    ensures var f := Book.PlaceIn(ctx.cfg, pruned.book, b).1.value.fills[j];
            Known(pruned, f.makerId) ==> f.price == pruned.orders[f.makerId.digest].order.price
  {
    var makers := pruned.book.Opposing(b.side);
    var f := Book.PlaceIn(ctx.cfg, pruned.book, b).1.value.fills[j];
    FillsAreSound(makers, b, j);
    hide Book.PlaceIn;
    var i :| 0 <= i < |makers| && f.makerId == makers[i].id && f.makerOwner == makers[i].owner
             && f.price == makers[i].price && f.qty <= makers[i].qty;
    assert Linked(ctx, pruned.orders, makers[i]);
  }

  lemma {:induction false} PairFillsQueueThese(ctx: Ctx, v: Venue, ready: Venue, step: Step, fills: seq<Book.Fill>,
                                               now: int)
    requires forall j :: 0 <= j < |fills| ==> QueuesAsCounted(ctx, v, ready.orders, step, fills[j], now)
    ensures PairFills(ctx, ready, fills, now).outbox == ready.outbox + FillsOf(v, step, fills)
    decreases |fills|
  {
    if fills != [] {
      var next := PairFill(ctx, ready, fills[0], now);
      assert QueuesAsCounted(ctx, v, ready.orders, step, fills[0], now);
      var head := if Counts(v, step, fills[0]) then [FillOf(v, step, fills[0])] else [];
      assert next.orders == ready.orders && next.outbox == ready.outbox + head;
      hide QueuesAsCounted, PairFill, Counts, FillOf, Paired, PairOrders;
      PairFillsQueueThese(ctx, v, next, step, fills[1..], now);
      var rest := FillsOf(v, step, fills[1..]);
      assert (ready.outbox + head) + rest == ready.outbox + (head + rest);
    }
  }

  /** One operation appends to the queue exactly the fills of its counting prints, in order: each of the
      two signed orders the print names, at the printed quantity and price. */
  lemma StepQueuesFills(ctx: Ctx, v: Venue, step: Step)
    requires VenueInv(ctx, v) && (step.Signed? ==> Agrees(ctx, v, step.so))
    ensures After(ctx, v, step).outbox == v.outbox + FillsOf(v, step, PrintsOf(ctx, v, step))
  {
    if step.Signed? && PlaceSigned(ctx, v, step.so, step.now, step.ts).1.Success? {
      var Signed(so, now, ts) := step;
      AcceptedIsAdmitted(ctx, v, so, now, ts);
      var pruned := Prune(v, now);
      var ready, fills := Ready(ctx, pruned, so, ts), AdmittedFills(ctx, pruned, so, now, ts);
      forall j | 0 <= j < |fills| ensures QueuesAsCounted(ctx, v, ready.orders, step, fills[j], now) {
        AdmittedFillIs(ctx, v, so, now, ts, j);
      }
      PairFillsQueueThese(ctx, v, ready, step, fills, now);
    } else {
      NoFills(v, step, PrintsOf(ctx, v, step));
    }
  }

  lemma {:induction false} NoFills(v: Venue, step: Step, fills: seq<Book.Fill>)
    requires !step.Signed? || fills == []
    ensures FillsOf(v, step, fills) == []
  {
    if fills != [] { NoFills(v, step, fills[1..]); }
  }

  /** Everything the first `i` operations of a run ought to have queued. */
  function QueuedEver(ctx: Ctx, states: seq<Venue>, steps: seq<Step>, i: nat): seq<SignedFill>
    requires i <= |steps| <= |states|
  {
    if i == 0 then []
    else QueuedEver(ctx, states, steps, i - 1)
         + FillsOf(states[i-1], steps[i-1], PrintsOf(ctx, states[i-1], steps[i-1]))
  }

  lemma RunStepQueuesFills(ctx: Ctx, states: seq<Venue>, steps: seq<Step>, i: nat)
    requires Runs(ctx, states, steps) && TellApart(ctx.crypto, steps) && i < |steps|
    ensures states[i+1].outbox == states[i].outbox + FillsOf(states[i], steps[i], PrintsOf(ctx, states[i], steps[i]))
  {
    RunKeepsVenue(ctx, states, steps, i);
    assert states[i+1] == After(ctx, states[i], steps[i]);
    hide Runs, TellApart, VenueInv, Agrees, After, PrintsOf, FillsOf;
    StepQueuesFills(ctx, states[i], steps[i]);
  }

  lemma StartsUnqueued(ctx: Ctx, states: seq<Venue>, steps: seq<Step>)
    requires Runs(ctx, states, steps)
    ensures states[0].outbox == []
  {
  }

  /** In every run the settlement queue is exactly the counting prints so far, in order. */
  lemma {:induction false} RunQueuesFills(ctx: Ctx, states: seq<Venue>, steps: seq<Step>, i: nat)
    requires Runs(ctx, states, steps) && TellApart(ctx.crypto, steps) && i <= |steps|
    ensures states[i].outbox == QueuedEver(ctx, states, steps, i)
  {
    hide Runs, TellApart, PrintsOf, FillsOf;
    if i == 0 {
      StartsUnqueued(ctx, states, steps);
    } else {
      RunQueuesFills(ctx, states, steps, i - 1);
      RunStepQueuesFills(ctx, states, steps, i - 1);
    }
  }

  // ------------------------------------------------------------------ what an operation adds to an order's account

  /** The operation accepts an order of this digest. */
  predicate Accepts(ctx: Ctx, v: Venue, step: Step, d: Hash) {
    && step.Signed? && ctx.crypto.orderDigest(step.so.order) == d
    && PlaceSigned(ctx, v, step.so, step.now, step.ts).1.Success?
  }

  /** The venue's counter for a digest when it decides on a signed order, pruning done. */
  function Counter(v: Venue, step: Step, d: Hash): int
    requires step.Signed?
  {
    Prune(v, step.now).Filled(d)
  }

  /** An acceptance prints and rests what is signed less what the counter knows. */
  lemma AcceptancePrints(ctx: Ctx, v: Venue, step: Step, d: Hash)
    requires VenueInv(ctx, v) && Accepts(ctx, v, step, d)
    ensures PrintedFor(PrintsOf(ctx, v, step), Book.Digest(d)) + RestingFor(After(ctx, v, step).book, d)
            == step.so.order.qty - Counter(v, step, d)
  {
    var Signed(so, now, ts) := step;
    var pruned := Prune(v, now);
    var ready := Ready(ctx, pruned, so, ts);
    AcceptedIsAdmitted(ctx, v, so, now, ts);
    var b := BookOrderOf(ctx, d, so.order, pruned.Remaining(d, so.order), ts);
    PlaceResting(ctx.cfg, pruned.book, b, Book.Digest(d));
    AbsentNotResting(pruned.book, Book.Digest(d));
    PairFillsKeepOrders(ctx, ready, AdmittedFills(ctx, pruned, so, now, ts), now);
  }

  /** Any other operation only turns rest into prints, or cancels it. */
  lemma OthersNeverRaise(ctx: Ctx, v: Venue, step: Step, d: Hash)
    requires VenueInv(ctx, v) && Allowed(step) && !Accepts(ctx, v, step, d)
    ensures PrintedFor(PrintsOf(ctx, v, step), Book.Digest(d)) + RestingFor(After(ctx, v, step).book, d)
            <= RestingFor(v.book, d)
  {
    match step {
      case Signed(so, now, ts) => OtherSignedNeverRaises(ctx, v, so, now, ts, d);
      case Unsigned(order) =>
        if Book.PlaceIn(ctx.cfg, v.book, order).1.Success? { PlaceResting(ctx.cfg, v.book, order, Book.Digest(d)); }
      case Cancel(id) => CancelResting(v.book, id, Book.Digest(d));
    }
  }

  lemma OtherSignedNeverRaises(ctx: Ctx, v: Venue, so: SignedOrder, now: int, ts: int, d: Hash)
    requires VenueInv(ctx, v) && !Accepts(ctx, v, Signed(so, now, ts), d)
    ensures var step := Signed(so, now, ts);
            PrintedFor(PrintsOf(ctx, v, step), Book.Digest(d)) + RestingFor(After(ctx, v, step).book, d)
            <= RestingFor(v.book, d)
  {
    var pruned := Prune(v, now);
    PruneRestingLess(ctx, v, now, d);
    if PlaceSigned(ctx, v, so, now, ts).1.Success? {
      AcceptedIsAdmitted(ctx, v, so, now, ts);
      var x := ctx.crypto.orderDigest(so.order);
      var b := BookOrderOf(ctx, x, so.order, pruned.Remaining(x, so.order), ts);
      PlaceResting(ctx.cfg, pruned.book, b, Book.Digest(d));
      PairFillsKeepOrders(ctx, Ready(ctx, pruned, so, ts), AdmittedFills(ctx, pruned, so, now, ts), now);
    }
  }

  // ------------------------------------------------------------------ whole runs

  /** Quantity of all prints naming a digest in the first `i` operations of a run. */
  function PrintedEver(ctx: Ctx, states: seq<Venue>, steps: seq<Step>, i: nat, d: Hash): int
    requires i <= |steps| <= |states|
  {
    if i == 0 then 0
    else PrintedEver(ctx, states, steps, i - 1, d)
         + PrintedFor(PrintsOf(ctx, states[i-1], steps[i-1]), Book.Digest(d))
  }

  function UncountedEver(ctx: Ctx, states: seq<Venue>, steps: seq<Step>, i: nat, d: Hash): int
    requires i <= |steps| <= |states|
  {
    if i == 0 then 0
    else UncountedEver(ctx, states, steps, i - 1, d)
         + UncountedFor(states[i-1], steps[i-1], PrintsOf(ctx, states[i-1], steps[i-1]), d)
  }

  /** Every print naming the digest in one operation is between two signed orders whose buy names no
      lot. */
  ghost predicate AllCount(ctx: Ctx, v: Venue, step: Step, d: Hash) {
    var fills := PrintsOf(ctx, v, step);
    forall j :: 0 <= j < |fills| && Names(fills[j], d) ==> Counts(v, step, fills[j])
  }

  lemma AllCountIff(ctx: Ctx, v: Venue, step: Step, d: Hash)
    requires forall j :: 0 <= j < |PrintsOf(ctx, v, step)| ==> PrintsOf(ctx, v, step)[j].qty > 0
    ensures AllCount(ctx, v, step, d) <==> UncountedFor(v, step, PrintsOf(ctx, v, step), d) == 0
    ensures UncountedFor(v, step, PrintsOf(ctx, v, step), d) >= 0
  {
    UncountedWithin(v, step, PrintsOf(ctx, v, step), d);
  }

  lemma RunStepQueues(ctx: Ctx, states: seq<Venue>, steps: seq<Step>, i: nat, d: Hash)
    requires Runs(ctx, states, steps) && TellApart(ctx.crypto, steps) && i < |steps|
    ensures var fills := PrintsOf(ctx, states[i], steps[i]);
            var uncounted := UncountedFor(states[i], steps[i], fills, d);
            && QueuedFor(ctx.crypto, states[i+1].outbox, d) - QueuedFor(ctx.crypto, states[i].outbox, d)
               == PrintedFor(fills, Book.Digest(d)) - uncounted
            && 0 <= uncounted && (uncounted == 0 <==> AllCount(ctx, states[i], steps[i], d))
  {
    RunKeepsVenue(ctx, states, steps, i);
    assert states[i+1] == After(ctx, states[i], steps[i]);
    hide Runs, TellApart, VenueInv, Agrees, After, PrintsOf, QueuedFor, AllCount, PrintedFor, UncountedFor;
    StepQueues(ctx, states[i], steps[i], d);
    AllCountIff(ctx, states[i], steps[i], d);
  }

  lemma {:induction false} RunQueues(ctx: Ctx, states: seq<Venue>, steps: seq<Step>, i: nat, d: Hash)
    requires Runs(ctx, states, steps) && TellApart(ctx.crypto, steps) && i <= |steps|
    ensures QueuedFor(ctx.crypto, states[i].outbox, d)
            == PrintedEver(ctx, states, steps, i, d) - UncountedEver(ctx, states, steps, i, d)
    ensures 0 <= UncountedEver(ctx, states, steps, i, d)
    ensures UncountedEver(ctx, states, steps, i, d) == 0 <==>
              forall k :: 0 <= k < i ==> AllCount(ctx, states[k], steps[k], d)
  {
    hide TellApart, PrintsOf, AllCount, PrintedFor, UncountedFor, After;
    if i > 0 {
      RunQueues(ctx, states, steps, i - 1, d);
      RunStepQueues(ctx, states, steps, i - 1, d);
    }
  }

  // ------------------------------------------------------------------ when the signed size bounds trading

  /** What an order has traded and still offers. */
  function Exposure(ctx: Ctx, states: seq<Venue>, steps: seq<Step>, i: nat, d: Hash): int
    requires i <= |steps| < |states|
  {
    PrintedEver(ctx, states, steps, i, d) + RestingFor(states[i].book, d)
  }

  /** The account of one operation of a run: an acceptance sets an order's exposure to its signed size
      plus whatever it has printed beyond the venue's counter; nothing else raises it. */
  lemma ExposureStep(ctx: Ctx, states: seq<Venue>, steps: seq<Step>, i: nat, d: Hash)
    requires Runs(ctx, states, steps) && TellApart(ctx.crypto, steps) && i < |steps|
    ensures Accepts(ctx, states[i], steps[i], d) ==>
              Exposure(ctx, states, steps, i + 1, d)
              == steps[i].so.order.qty + PrintedEver(ctx, states, steps, i, d) - Counter(states[i], steps[i], d)
    ensures !Accepts(ctx, states[i], steps[i], d) ==>
              Exposure(ctx, states, steps, i + 1, d) <= Exposure(ctx, states, steps, i, d)
  {
    RunKeepsVenue(ctx, states, steps, i);
    assert Allowed(steps[i]) && states[i+1] == After(ctx, states[i], steps[i]);
    hide Runs, TellApart, VenueInv, Agrees, After, PrintsOf, PrintedFor, RestingFor;
    if Accepts(ctx, states[i], steps[i], d) {
      AcceptancePrints(ctx, states[i], steps[i], d);
    } else {
      OthersNeverRaise(ctx, states[i], steps[i], d);
    }
  }

  /** Every placement of the digest in the run is of this very order. */
  ghost predicate OnlyOrder(c: Crypto, steps: seq<Step>, o: Order) {
    forall k :: 0 <= k < |steps| && steps[k].Signed? && c.orderDigest(steps[k].so.order) == c.orderDigest(o) ==>
      steps[k].so.order == o
  }

  lemma StartsUnexposed(ctx: Ctx, states: seq<Venue>, steps: seq<Step>, d: Hash)
    requires Runs(ctx, states, steps)
    ensures Exposure(ctx, states, steps, 0, d) == 0
  {
  }

  /** The signed size bounds trading, exactly when. In every run, up to any moment, what an order has
      traded and still offers stays within its signed size if and only if, whenever the venue
      accepted it, the venue's counter covered everything it had printed by then. */
  lemma {:induction false} TradesWithinSignedIff(ctx: Ctx, states: seq<Venue>, steps: seq<Step>, n: nat, o: Order)
    requires Runs(ctx, states, steps) && TellApart(ctx.crypto, steps) && n <= |steps|
    requires OnlyOrder(ctx.crypto, steps, o)
    ensures var d := ctx.crypto.orderDigest(o);
            (forall i :: 0 <= i <= n ==> Exposure(ctx, states, steps, i, d) <= o.qty)
            <==> (forall k :: 0 <= k < n && Accepts(ctx, states[k], steps[k], d) ==>
                    PrintedEver(ctx, states, steps, k, d) <= Counter(states[k], steps[k], d))
  {
    var d := ctx.crypto.orderDigest(o);
    hide Runs, TellApart, Exposure, PrintedEver, Prune, PlaceSigned;
    if n == 0 {
      StartsUnexposed(ctx, states, steps, d);
    } else {
      TradesWithinSignedIff(ctx, states, steps, n - 1, o);
      ExposureStep(ctx, states, steps, n - 1, d);
    }
  }

  /** While the ledger holds, what the counter misses at an acceptance is exactly what printed without
      counting. */
  lemma CounterMissesUncounted(ctx: Ctx, states: seq<Venue>, steps: seq<Step>, k: nat, d: Hash)
    requires Runs(ctx, states, steps) && TellApart(ctx.crypto, steps) && k < |steps|
    requires Accepts(ctx, states[k], steps[k], d) && forall h :: 0 <= h < |steps| ==> Timely(steps, h)
    ensures PrintedEver(ctx, states, steps, k, d) - Counter(states[k], steps[k], d)
            == UncountedEver(ctx, states, steps, k, d)
    ensures PrintedEver(ctx, states, steps, k, d) <= Counter(states[k], steps[k], d) <==>
              forall h :: 0 <= h < k ==> AllCount(ctx, states[h], steps[h], d)
  {
    LedgerAlwaysHolds(ctx, states, steps, k);
    TimelyNeverRefills(ctx, states, steps, k);
    RunQueues(ctx, states, steps, k, d);
    hide Runs, TellApart, PrintedEver, UncountedEver, PlaceSigned, QueuedFor, AllCount;
  }

  /** With placements entering in clock order the condition is about the prints themselves: the signed
      size bounds trading if and only if, whenever the order was accepted, every print naming it so
      far had been between two signed orders whose buy names no lot. */
  lemma TradesWithinCountedIff(ctx: Ctx, states: seq<Venue>, steps: seq<Step>, n: nat, o: Order)
    requires Runs(ctx, states, steps) && TellApart(ctx.crypto, steps) && n <= |steps|
    requires OnlyOrder(ctx.crypto, steps, o) && forall k :: 0 <= k < |steps| ==> Timely(steps, k)
    ensures var d := ctx.crypto.orderDigest(o);
            (forall i :: 0 <= i <= n ==> Exposure(ctx, states, steps, i, d) <= o.qty)
            <==> (forall k :: 0 <= k < n && Accepts(ctx, states[k], steps[k], d) ==>
                    forall h :: 0 <= h < k ==> AllCount(ctx, states[h], steps[h], d))
  {
    var d := ctx.crypto.orderDigest(o);
    TradesWithinSignedIff(ctx, states, steps, n, o);
    hide Exposure, PrintedEver, UncountedEver, Prune, PlaceSigned, AllCount, Accepts, Counter;
    forall k | 0 <= k < n && Accepts(ctx, states[k], steps[k], d)
      ensures PrintedEver(ctx, states, steps, k, d) <= Counter(states[k], steps[k], d) <==>
                forall h :: 0 <= h < k ==> AllCount(ctx, states[h], steps[h], d)
    {
      CounterMissesUncounted(ctx, states, steps, k, d);
    }
  }

  // ------------------------------------------------------------------ a venue of signed orders only

  /** Nothing unsigned is placed, and no signed buy names a lot. */
  ghost predicate PlainSteps(steps: seq<Step>) {
    forall k :: 0 <= k < |steps| ==>
      && !steps[k].Unsigned?
      && (steps[k].Signed? && steps[k].so.order.side == SIDE_BUY ==> steps[k].so.order.lotId == ZERO_HASH)
  }

  ghost predicate AllDigests(book: seq<Book.Order>) {
    forall i :: 0 <= i < |book| ==> book[i].id.Digest?
  }

  lemma InsertDigests(book: seq<Book.Order>, o: Book.Order)
    requires AllDigests(book) && o.id.Digest?
    ensures AllDigests(Book.InsertOrder(book, o))
  {
  }

  lemma PlaceDigests(cfg: Book.Config, b: Book.BookState, o: Book.Order)
    requires BookInv(cfg, b) && Book.PlaceIn(cfg, b, o).1.Success? && o.id.Digest?
    requires AllDigests(b.bids) && AllDigests(b.asks)
    ensures AllDigests(Book.PlaceIn(cfg, b, o).0.bids) && AllDigests(Book.PlaceIn(cfg, b, o).0.asks)
  {
    var k := SweepConsumes(b.Opposing(o.side), o);
    InsertDigests(b.Opposing(o.side.Opposite()), Book.Sweep(b.Opposing(o.side), o).taker);
    hide AllDigests, BookInv, Book.Sweep, Book.InsertOrder;
  }

  lemma DropDigests(cfg: Book.Config, book: seq<Book.Order>, side: Side, gone: set<Hash>)
    requires SideInv(cfg, book, side) && AllDigests(book)
    ensures AllDigests(DropIds(book, gone))
  {
    DropKeeps(cfg, book, side, gone);
  }

  lemma CancelDigests(b: Book.BookState, id: Book.OrderId)
    requires AllDigests(b.bids) && AllDigests(b.asks)
    ensures AllDigests(Book.CancelIn(b, id).0.bids) && AllDigests(Book.CancelIn(b, id).0.asks)
  {
    var m := RemoveCuts(b.bids, id);
    var n := RemoveCuts(b.asks, id);
  }

  lemma StepDigests(ctx: Ctx, v: Venue, step: Step)
    requires VenueInv(ctx, v) && !step.Unsigned?
    requires AllDigests(v.book.bids) && AllDigests(v.book.asks)
    ensures AllDigests(After(ctx, v, step).book.bids) && AllDigests(After(ctx, v, step).book.asks)
  {
    match step {
      case Signed(so, now, ts) =>
        var pruned := Prune(v, now);
        DropDigests(ctx.cfg, v.book.bids, Buy, ExpiredBy(v, now));
        DropDigests(ctx.cfg, v.book.asks, Sell, ExpiredBy(v, now));
        if PlaceSigned(ctx, v, so, now, ts).1.Success? {
          AcceptedIsAdmitted(ctx, v, so, now, ts);
          var d := ctx.crypto.orderDigest(so.order);
          PlaceDigests(ctx.cfg, pruned.book, BookOrderOf(ctx, d, so.order, pruned.Remaining(d, so.order), ts));
          PairFillsKeepOrders(ctx, Ready(ctx, pruned, so, ts), AdmittedFills(ctx, pruned, so, now, ts), now);
        }
      case Cancel(id) => CancelDigests(v.book, id);
    }
  }

  lemma {:induction false} RunDigests(ctx: Ctx, states: seq<Venue>, steps: seq<Step>, i: nat)
    requires Runs(ctx, states, steps) && TellApart(ctx.crypto, steps) && PlainSteps(steps)
    requires i < |states|
    ensures AllDigests(states[i].book.bids) && AllDigests(states[i].book.asks)
  {
    if i > 0 {
      RunDigests(ctx, states, steps, i - 1);
      RunKeepsVenue(ctx, states, steps, i - 1);
      assert !steps[i-1].Unsigned? && states[i] == After(ctx, states[i-1], steps[i-1]);
      hide Runs, TellApart, VenueInv, After, AllDigests, PlainSteps;
      StepDigests(ctx, states[i-1], steps[i-1]);
    }
  }

  lemma PlainPrintCounts(ctx: Ctx, v: Venue, steps: seq<Step>, k: nat, j: nat)
    requires VenueInv(ctx, v) && Sourced(v, steps) && PlainSteps(steps)
    requires AllDigests(v.book.bids) && AllDigests(v.book.asks)
    requires k < |steps| && j < |PrintsOf(ctx, v, steps[k])|
    ensures Counts(v, steps[k], PrintsOf(ctx, v, steps[k])[j])
  {
    var Signed(so, now, ts) := steps[k];
    var pruned, d := Prune(v, now), ctx.crypto.orderDigest(so.order);
    AcceptedIsAdmitted(ctx, v, so, now, ts);
    DropDigests(ctx.cfg, v.book.bids, Buy, ExpiredBy(v, now));
    DropDigests(ctx.cfg, v.book.asks, Sell, ExpiredBy(v, now));
    MakerIsLive(ctx, pruned, BookOrderOf(ctx, d, so.order, pruned.Remaining(d, so.order), ts), j);
    var m := PrintsOf(ctx, v, steps[k])[j].makerId;
    assert m.Digest? && m.digest in pruned.orders;
    assert Submitted(steps, v.orders[m.digest].order);
  }

  /** A venue that only ever sees signed orders whose buys name no lot, in clock order, never lets an
      order trade more than it signed for. */
  lemma PlainVenueTradesWithin(ctx: Ctx, states: seq<Venue>, steps: seq<Step>, n: nat, o: Order)
    requires Runs(ctx, states, steps) && TellApart(ctx.crypto, steps) && n <= |steps|
    requires OnlyOrder(ctx.crypto, steps, o) && PlainSteps(steps) && forall k :: 0 <= k < |steps| ==> Timely(steps, k)
    ensures Exposure(ctx, states, steps, n, ctx.crypto.orderDigest(o)) <= o.qty
  {
    var d := ctx.crypto.orderDigest(o);
    forall h | 0 <= h < n ensures AllCount(ctx, states[h], steps[h], d) {
      RunKeepsVenue(ctx, states, steps, h);
      RunDigests(ctx, states, steps, h);
      forall j | 0 <= j < |PrintsOf(ctx, states[h], steps[h])|
        ensures Counts(states[h], steps[h], PrintsOf(ctx, states[h], steps[h])[j])
      {
        PlainPrintCounts(ctx, states[h], steps, h, j);
      }
    }
    TradesWithinCountedIff(ctx, states, steps, n, o);
  }
}
