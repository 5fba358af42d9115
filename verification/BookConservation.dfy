/** Conservation of quantity over whole runs of the book: under any id, what printed and what rests
    never exceed what was accepted, and nothing is lost but by cancellation. */
module BookConservation {
  import opened Wrappers
  import opened OrderBook
  import opened BookProperties

  /** Quantity resting in the book under an id. */
  function RestingIn(b: BookState, id: OrderId): int {
    RestingOf(b.bids, id) + RestingOf(b.asks, id)
  }

  /** Quantity of book prints naming an id on either side. */
  function PrintedFor(fills: seq<Fill>, id: OrderId): int {
    if fills == [] then 0
    else (if fills[0].makerId == id || fills[0].takerId == id then fills[0].qty else 0) + PrintedFor(fills[1..], id)
  }

  // ------------------------------------------------------------------ resting quantity moves

  lemma {:induction false} RestingNonNegative(book: seq<Order>, id: OrderId)
    requires Positive(book)
    ensures RestingOf(book, id) >= 0
  {
    if book != [] { RestingNonNegative(book[1..], id); }
  }

  lemma {:induction false} RestingAppend(a: seq<Order>, b: seq<Order>, id: OrderId)
    ensures RestingOf(a + b, id) == RestingOf(a, id) + RestingOf(b, id)
  {
    if a == [] {
      assert a + b == b;
    } else {
      RestingAppend(a[1..], b, id);
      assert (a + b)[1..] == a[1..] + b;
    }
  }

  lemma InsertResting(book: seq<Order>, o: Order, id: OrderId)
    ensures RestingOf(InsertOrder(book, o), id) == RestingOf(book, id) + (if o.id == id then o.qty else 0)
  {
    var i := InsertIndex(book, o);
    assert book == book[..i] + book[i..];
    RestingAppend(book[..i], book[i..], id);
    RestingAppend(book[..i] + [o], book[i..], id);
    RestingAppend(book[..i], [o], id);
    assert [o][1..] == [];
  }

  /** The taker's owner already rests an order under this id among the makers. */
  ghost predicate OwnMaker(makers: seq<Order>, owner: Owner, id: OrderId) {
    exists i :: 0 <= i < |makers| && makers[i].id == id && makers[i].owner == owner
  }

  lemma SweepResting(makers: seq<Order>, taker: Order, id: OrderId)
    requires UniqueIds(makers) && Positive(makers) && taker.qty >= 0 && !HasId(makers, taker.id)
    ensures var r := Sweep(makers, taker);
            && 0 <= FilledOf(r.fills, id) <= RestingOf(makers, id) - RestingOf(r.makers, id)
            && (!OwnMaker(makers, taker.owner, id) ==>
                  FilledOf(r.fills, id) == RestingOf(makers, id) - RestingOf(r.makers, id))
            && (id == taker.id ==> FilledOf(r.fills, id) == 0 && RestingOf(r.makers, id) == 0)
  {
    if i :| 0 <= i < |makers| && makers[i].id == id {
      RestingAt(makers, i);
      MakerConserved(makers, taker, i);
    } else {
      AbsentIdsRest(makers, id);
      AbsentIdsDoNotFill(makers, taker, id);
    }
    FilledNonNegative(makers, taker, id);
  }

  lemma {:induction false} FilledNonNegative(makers: seq<Order>, taker: Order, id: OrderId)
    requires Positive(makers) && taker.qty >= 0
    ensures FilledOf(Sweep(makers, taker).fills, id) >= 0
  {
    if taker.qty == 0 || makers == [] || !Crosses(makers[0], taker) {
    } else if makers[0].owner == taker.owner {
      FilledNonNegative(makers[1..], taker, id);
    } else if taker.qty >= makers[0].qty {
      var taker' := taker.(qty := taker.qty - makers[0].qty);
      FilledNonNegative(makers[1..], taker', id);
      assert Sweep(makers, taker).fills[1..] == Sweep(makers[1..], taker').fills;
    } else {
      assert Sweep(makers, taker).fills[1..] == [];
    }
  }

  lemma {:induction false} PrintedSplits(fills: seq<Fill>, takerId: OrderId, id: OrderId)
    requires forall j :: 0 <= j < |fills| ==> fills[j].takerId == takerId && fills[j].makerId != takerId
    ensures PrintedFor(fills, id) == if id == takerId then TotalQty(fills) else FilledOf(fills, id)
  {
    if fills != [] { PrintedSplits(fills[1..], takerId, id); }
  }

  lemma SweepNames(makers: seq<Order>, taker: Order)
    requires Positive(makers) && taker.qty >= 0 && !HasId(makers, taker.id)
    ensures forall j :: 0 <= j < |Sweep(makers, taker).fills| ==>
              Sweep(makers, taker).fills[j].takerId == taker.id && Sweep(makers, taker).fills[j].makerId != taker.id
  {
    forall j | 0 <= j < |Sweep(makers, taker).fills|
      ensures Sweep(makers, taker).fills[j].takerId == taker.id && Sweep(makers, taker).fills[j].makerId != taker.id
    {
      FillsAreSound(makers, taker, j);
    }
  }

  /** A placement turns resting quantity into prints or cancels it, and the new order's own quantity
      into prints and rest. Only a self-match cancels: otherwise the account is exact. */
  lemma PlaceResting(cfg: Config, b: BookState, o: Order, id: OrderId)
    requires BookInv(cfg, b) && PlaceIn(cfg, b, o).1.Success?
    ensures var (after, r) := PlaceIn(cfg, b, o);
            var printed, before := PrintedFor(r.value.fills, id), RestingIn(b, id) + (if o.id == id then o.qty else 0);
            && 0 <= printed <= before - RestingIn(after, id)
            && (!OwnMaker(b.Opposing(o.side), o.owner, id) ==> printed == before - RestingIn(after, id))
  {
    var makers, own := b.Opposing(o.side), b.Opposing(o.side.Opposite());
    var r := Sweep(makers, o);
    SweepResting(makers, o, id);
    SweepNames(makers, o);
    PrintedSplits(r.fills, o.id, id);
    TakerConserved(makers, o);
    var k := SweepConsumes(makers, o);
    InsertResting(own, r.taker, id);
    AbsentIdsRest(own, o.id);
    AbsentIdsRest(makers, o.id);
  }

  // ------------------------------------------------------------------ cancelling

  lemma RemoveResting(book: seq<Order>, id: OrderId, x: OrderId)
    requires Positive(book)
    ensures RestingOf(RemoveId(book, id), x) <= RestingOf(book, x)
    ensures id != x ==> RestingOf(RemoveId(book, id), x) == RestingOf(book, x)
  {
    var n := RemoveCuts(book, id);
    if n < |book| {
      RestingAppend(book[..n], book[n+1..], x);
      assert book == book[..n] + book[n..] && book[n..][1..] == book[n+1..];
      RestingAppend(book[..n], book[n..], x);
    }
  }

  lemma CancelResting(b: BookState, id: OrderId, x: OrderId)
    requires Positive(b.bids) && Positive(b.asks)
    ensures RestingIn(CancelIn(b, id).0, x) <= RestingIn(b, x)
    ensures id != x ==> RestingIn(CancelIn(b, id).0, x) == RestingIn(b, x)
  {
    RemoveResting(b.bids, id, x);
    RemoveResting(b.asks, id, x);
  }

  lemma AbsentNotResting(b: BookState, id: OrderId)
    requires !HasId(b.bids, id) && !HasId(b.asks, id)
    ensures RestingIn(b, id) == 0
  {
    AbsentIdsRest(b.bids, id);
    AbsentIdsRest(b.asks, id);
  }

  // ------------------------------------------------------------------ whole runs

  function OpPrints(cfg: Config, b: BookState, op: Op): seq<Fill> {
    if op.PlaceOp? && PlaceIn(cfg, b, op.order).1.Success? then PlaceIn(cfg, b, op.order).1.value.fills else []
  }

  /** Quantity an operation gets accepted under an id. */
  function AcceptedBy(cfg: Config, b: BookState, op: Op, id: OrderId): int {
    if op.PlaceOp? && op.order.id == id && PlaceIn(cfg, b, op.order).1.Success? then op.order.qty else 0
  }

  /** Quantity of all prints of a run naming an id, as maker or as taker. */
  function PrintedInRun(cfg: Config, b: BookState, ops: seq<Op>, id: OrderId): int
    decreases |ops|
  {
    if ops == [] then 0
    else PrintedFor(OpPrints(cfg, b, ops[0]), id) + PrintedInRun(cfg, AfterOp(cfg, b, ops[0]), ops[1..], id)
  }

  function AcceptedInRun(cfg: Config, b: BookState, ops: seq<Op>, id: OrderId): int
    decreases |ops|
  {
    if ops == [] then 0
    else AcceptedBy(cfg, b, ops[0], id) + AcceptedInRun(cfg, AfterOp(cfg, b, ops[0]), ops[1..], id)
  }

  /** The operation takes resting quantity under the id out of the book without a print: it cancels the
      order by name, or it is a placement of the order's own owner that reached it. */
  ghost predicate Cancels(cfg: Config, b: BookState, op: Op, id: OrderId) {
    && RestingIn(b, id) > 0
    && match op
       case PlaceOp(o) => OwnMaker(b.Opposing(o.side), o.owner, id) && RestingIn(AfterOp(cfg, b, op), id) == 0
       case CancelOp(x) => x == id
  }

  /** A placement by the owner of a resting opposing order prints nothing under its id, and keeps it
      whole or cancels it. */
  lemma OwnMakerKeptOrCancelled(cfg: Config, b: BookState, o: Order, id: OrderId)
    requires BookInv(cfg, b) && PlaceIn(cfg, b, o).1.Success?
    requires OwnMaker(b.Opposing(o.side), o.owner, id)
    ensures PrintedFor(PlaceIn(cfg, b, o).1.value.fills, id) == 0 < RestingIn(b, id)
    ensures RestingIn(PlaceIn(cfg, b, o).0, id) in {0, RestingIn(b, id)}
  {
    var makers, own := b.Opposing(o.side), b.Opposing(o.side.Opposite());
    var r := Sweep(makers, o);
    var i :| 0 <= i < |makers| && makers[i].id == id && makers[i].owner == o.owner;
    MakerConserved(makers, o, i);
    RestingAt(makers, i);
    AbsentIdsRest(own, id);
    SweepNames(makers, o);
    PrintedSplits(r.fills, o.id, id);
    assert r.taker == o.(qty := r.taker.qty) by { var k := SweepConsumes(makers, o); }
    hide BookInv, Sweep, FilledOf, RestingOf, InsertOrder;
    InsertResting(own, r.taker, id);
  }

  /** The account of one operation is exact unless it cancels. */
  lemma OpConserves(cfg: Config, b: BookState, op: Op, id: OrderId)
    requires BookInv(cfg, b)
    ensures 0 <= PrintedFor(OpPrints(cfg, b, op), id)
              <= RestingIn(b, id) + AcceptedBy(cfg, b, op, id) - RestingIn(AfterOp(cfg, b, op), id)
    ensures PrintedFor(OpPrints(cfg, b, op), id)
            == RestingIn(b, id) + AcceptedBy(cfg, b, op, id) - RestingIn(AfterOp(cfg, b, op), id)
            <==> !Cancels(cfg, b, op, id)
  {
    match op {
      case PlaceOp(o) =>
        if PlaceIn(cfg, b, o).1.Success? {
          PlaceResting(cfg, b, o, id);
          if OwnMaker(b.Opposing(o.side), o.owner, id) { OwnMakerKeptOrCancelled(cfg, b, o, id); }
        }
      case CancelOp(x) =>
        CancelResting(b, x, id);
        if x == id { NamedIsGone(cfg, b, id); }
    }
  }

  lemma NamedIsGone(cfg: Config, b: BookState, id: OrderId)
    requires BookInv(cfg, b)
    ensures RestingIn(CancelIn(b, id).0, id) == 0 && RestingIn(b, id) >= 0
  {
    RestingNonNegative(b.bids, id);
    RestingNonNegative(b.asks, id);
    var after := CancelIn(b, id).0;
    forall k | 0 <= k < |after.bids| ensures after.bids[k].id != id {
      CancelRemovesOnly(cfg, b, id, after.bids[k]);
    }
    forall k | 0 <= k < |after.asks| ensures after.asks[k].id != id {
      CancelRemovesOnly(cfg, b, id, after.asks[k]);
    }
    AbsentNotResting(after, id);
  }

  /** Conservation over every run, from any good book: what printed under an id and what rests under
      it at the end never exceed what rested at the start and what was accepted. */
  lemma {:induction false} RunConserves(cfg: Config, b: BookState, ops: seq<Op>, id: OrderId)
    requires BookInv(cfg, b)
    ensures 0 <= PrintedInRun(cfg, b, ops, id)
              <= RestingIn(b, id) + AcceptedInRun(cfg, b, ops, id) - RestingIn(Run(cfg, b, ops), id)
    decreases |ops|
  {
    if ops != [] {
      OpConserves(cfg, b, ops[0], id);
      OpKeepsInvariant(cfg, b, ops[0]);
      RunConserves(cfg, AfterOp(cfg, b, ops[0]), ops[1..], id);
    }
  }

  /** From the empty book: never more than was accepted under the id. */
  lemma RunNeverOverfills(cfg: Config, ops: seq<Op>, id: OrderId)
    ensures var b := Run(cfg, EMPTY_BOOK, ops);
            PrintedInRun(cfg, EMPTY_BOOK, ops, id) + RestingIn(b, id) <= AcceptedInRun(cfg, EMPTY_BOOK, ops, id)
  {
    RunConserves(cfg, EMPTY_BOOK, ops, id);
  }

  // ------------------------------------------------------------------ nothing is lost without a cancellation

  /** No operation of the run cancels quantity resting under the id. */
  ghost predicate NeverCancels(cfg: Config, b: BookState, ops: seq<Op>, id: OrderId)
    decreases |ops|
  {
    ops == [] || (!Cancels(cfg, b, ops[0], id) && NeverCancels(cfg, AfterOp(cfg, b, ops[0]), ops[1..], id))
  }

  /** Over any run, what was accepted under an id is exactly what printed and what rests, if and only if
      no operation cancelled any of it. */
  lemma {:induction false} RunConservesExactlyIff(cfg: Config, b: BookState, ops: seq<Op>, id: OrderId)
    requires BookInv(cfg, b)
    ensures PrintedInRun(cfg, b, ops, id) + RestingIn(Run(cfg, b, ops), id)
            == RestingIn(b, id) + AcceptedInRun(cfg, b, ops, id)
            <==> NeverCancels(cfg, b, ops, id)
    decreases |ops|
  {
    hide Cancels, AfterOp, OpPrints, AcceptedBy, RestingIn, PrintedFor, BookInv;
    if ops != [] {
      OpConserves(cfg, b, ops[0], id);
      OpKeepsInvariant(cfg, b, ops[0]);
      RunConserves(cfg, AfterOp(cfg, b, ops[0]), ops[1..], id);
      RunConservesExactlyIff(cfg, AfterOp(cfg, b, ops[0]), ops[1..], id);
    }
  }
}
