/** What the book promises: price-time priority, conservation of quantity, an uncrossed sorted
    book after any run, and depth snapshots that tell the truth about it. */
module BookProperties {
  import opened Wrappers
  import opened OrderBook

  // ------------------------------------------------------------------ quantities

  function TotalQty(fills: seq<Fill>): int {
    if fills == [] then 0 else fills[0].qty + TotalQty(fills[1..])
  }

  /** Quantity printed against one maker. */
  function FilledOf(fills: seq<Fill>, id: OrderId): int {
    if fills == [] then 0
    else (if fills[0].makerId == id then fills[0].qty else 0) + FilledOf(fills[1..], id)
  }

  /** Quantity resting under one id. */
  function RestingOf(book: seq<Order>, id: OrderId): int {
    if book == [] then 0
    else (if book[0].id == id then book[0].qty else 0) + RestingOf(book[1..], id)
  }

  ghost predicate UniqueIds(book: seq<Order>) {
    forall i, j :: 0 <= i < j < |book| ==> book[i].id != book[j].id
  }

  ghost predicate Positive(book: seq<Order>) {
    forall i :: 0 <= i < |book| ==> book[i].qty > 0
  }

  lemma UniqueTail(book: seq<Order>)
    requires UniqueIds(book) && book != []
    ensures UniqueIds(book[1..])
    ensures forall i :: 0 <= i < |book[1..]| ==> book[1..][i].id != book[0].id
  {
    assert forall i :: 0 <= i < |book[1..]| ==> book[1..][i] == book[i+1];
  }

  lemma {:induction false} AbsentIdsRest(book: seq<Order>, id: OrderId)
    requires forall k :: 0 <= k < |book| ==> book[k].id != id
    ensures RestingOf(book, id) == 0
  {
    if book != [] { AbsentIdsRest(book[1..], id); }
  }

  lemma {:induction false} RestingAt(book: seq<Order>, i: nat)
    requires i < |book| && UniqueIds(book)
    ensures RestingOf(book, book[i].id) == book[i].qty
  {
    UniqueTail(book);
    if i == 0 {
      AbsentIdsRest(book[1..], book[0].id);
    } else {
      RestingAt(book[1..], i - 1);
    }
  }

  // ------------------------------------------------------------------ the shape of a sweep

  /** A sweep consumes a prefix of crossing makers and at most bites into the next one. */
  ghost predicate Consumes(makers: seq<Order>, taker: Order, r: Swept, k: nat) {
    && k <= |makers|
    && (forall i :: 0 <= i < k ==> Crosses(makers[i], taker))
    && r.taker == taker.(qty := r.taker.qty) && 0 <= r.taker.qty <= taker.qty
    && (r.makers == makers[k..]
        || (&& k < |makers| && Crosses(makers[k], taker) && makers[k].owner != taker.owner
            && r.taker.qty == 0 && r.makers != [] && 0 < r.makers[0].qty < makers[k].qty
            && r.makers == [makers[k].(qty := r.makers[0].qty)] + makers[k+1..]))
    && (r.taker.qty > 0 ==> r.makers == [] || !Crosses(r.makers[0], taker))
  }

  lemma {:induction false} SweepConsumes(makers: seq<Order>, taker: Order) returns (k: nat)
    requires Positive(makers) && taker.qty >= 0
    ensures Consumes(makers, taker, Sweep(makers, taker), k)
  {
    if taker.qty == 0 || makers == [] || !Crosses(makers[0], taker)
        || (makers[0].owner != taker.owner && taker.qty < makers[0].qty) {
      k := 0;
    } else {
      var taker' := if makers[0].owner == taker.owner then taker else taker.(qty := taker.qty - makers[0].qty);
      var k' := SweepConsumes(makers[1..], taker');
      k := k' + 1;
      assert makers[1..][k'..] == makers[k..];
      assert k' < |makers[1..]| ==> makers[1..][k'+1..] == makers[k+1..];
      assert forall i :: 0 < i < k ==> makers[i] == makers[1..][i-1];
    }
  }

  /** Every print: positive, between two different owners, naming this taker, at the price of a
      maker in the book, within the taker's limit. */
  ghost predicate SoundFill(f: Fill, makers: seq<Order>, taker: Order) {
    && 0 < f.qty <= taker.qty && f.makerOwner != f.takerOwner
    && f.takerId == taker.id && f.takerOwner == taker.owner && f.takerSide == taker.side && f.ts == taker.ts
    && (if taker.side.Buy? then f.price <= taker.price else f.price >= taker.price)
    && exists i :: 0 <= i < |makers| && f.makerId == makers[i].id && f.makerOwner == makers[i].owner
                   && f.price == makers[i].price && f.qty <= makers[i].qty
  }

  lemma {:induction false} FillsAreSound(makers: seq<Order>, taker: Order, j: nat)
    requires Positive(makers) && taker.qty >= 0
    requires j < |Sweep(makers, taker).fills|
    ensures SoundFill(Sweep(makers, taker).fills[j], makers, taker)
  {
    if makers[0].owner != taker.owner && j == 0 {
      assert makers[0] == makers[0];
    } else {
      var own := makers[0].owner == taker.owner;
      var taker' := if own then taker else taker.(qty := taker.qty - makers[0].qty);
      var j' := if own then j else j - 1;
      FillsAreSound(makers[1..], taker', j');
      var f := Sweep(makers[1..], taker').fills[j'];
      var i :| 0 <= i < |makers[1..]| && f.makerId == makers[1..][i].id && f.makerOwner == makers[1..][i].owner
                   && f.price == makers[1..][i].price && f.qty <= makers[1..][i].qty;
      assert makers[1..][i] == makers[i+1];
    }
  }

  // ------------------------------------------------------------------ conservation

  /** What the taker wanted is what printed plus what is left of it. */
  lemma {:induction false} TakerConserved(makers: seq<Order>, taker: Order)
    ensures TotalQty(Sweep(makers, taker).fills) + Sweep(makers, taker).taker.qty == taker.qty
  {
    if taker.qty == 0 || makers == [] || !Crosses(makers[0], taker) {
    } else if makers[0].owner == taker.owner {
      TakerConserved(makers[1..], taker);
    } else if taker.qty < makers[0].qty {
      assert Sweep(makers, taker).fills[1..] == [];
    } else {
      var taker' := taker.(qty := taker.qty - makers[0].qty);
      TakerConserved(makers[1..], taker');
      assert Sweep(makers, taker).fills[1..] == Sweep(makers[1..], taker').fills;
    }
  }

  lemma {:induction false} AbsentIdsDoNotFill(makers: seq<Order>, taker: Order, id: OrderId)
    requires forall k :: 0 <= k < |makers| ==> makers[k].id != id
    ensures FilledOf(Sweep(makers, taker).fills, id) == 0
    ensures RestingOf(Sweep(makers, taker).makers, id) == 0
  {
    if taker.qty == 0 || makers == [] || !Crosses(makers[0], taker) {
      AbsentIdsRest(makers, id);
    } else if makers[0].owner == taker.owner {
      AbsentIdsDoNotFill(makers[1..], taker, id);
    } else if taker.qty < makers[0].qty {
      var r := Sweep(makers, taker);
      assert r.fills[1..] == [];
      forall k | 0 <= k < |r.makers| ensures r.makers[k].id != id { assert r.makers[k].id == makers[k].id; }
      AbsentIdsRest(r.makers, id);
    } else {
      var taker' := taker.(qty := taker.qty - makers[0].qty);
      AbsentIdsDoNotFill(makers[1..], taker', id);
      assert Sweep(makers, taker).fills[1..] == Sweep(makers[1..], taker').fills;
    }
  }

  /** Each maker's quantity is accounted for: another owner's maker is split between prints and
      the book, the taker owner's own maker never prints and is either kept whole or cancelled. */
  lemma {:induction false} MakerConserved(makers: seq<Order>, taker: Order, i: nat)
    requires UniqueIds(makers) && i < |makers|
    ensures var r, m := Sweep(makers, taker), makers[i];
            if m.owner != taker.owner then
              FilledOf(r.fills, m.id) + RestingOf(r.makers, m.id) == m.qty
            else
              FilledOf(r.fills, m.id) == 0 && RestingOf(r.makers, m.id) in {0, m.qty}
  {
    var m := makers[i];
    UniqueTail(makers);
    if taker.qty == 0 || makers == [] || !Crosses(makers[0], taker) {
      RestingAt(makers, i);
    } else if makers[0].owner == taker.owner {
      if i == 0 { AbsentIdsDoNotFill(makers[1..], taker, m.id); } else { MakerConserved(makers[1..], taker, i - 1); }
    } else if taker.qty < makers[0].qty {
      var r := Sweep(makers, taker);
      assert r.fills[1..] == [];
      assert r.makers[1..] == makers[1..];
      if i == 0 { AbsentIdsRest(makers[1..], m.id); } else { RestingAt(makers[1..], i - 1); }
    } else {
      var taker' := taker.(qty := taker.qty - makers[0].qty);
      assert Sweep(makers, taker).fills[1..] == Sweep(makers[1..], taker').fills;
      if i == 0 { AbsentIdsDoNotFill(makers[1..], taker', m.id); } else { MakerConserved(makers[1..], taker', i - 1); }
    }
  }

  // ------------------------------------------------------------------ priority

  /** Queue priority: nobody prints while another owner's maker ahead in the queue keeps any
      quantity. */
  lemma {:induction false} AheadFillsFirst(makers: seq<Order>, taker: Order, i: nat, j: nat)
    requires UniqueIds(makers) && Positive(makers) && taker.qty >= 0
    requires i < j < |makers| && makers[i].owner != taker.owner
    requires FilledOf(Sweep(makers, taker).fills, makers[j].id) > 0
    ensures FilledOf(Sweep(makers, taker).fills, makers[i].id) == makers[i].qty
  {
    var r := Sweep(makers, taker);
    UniqueTail(makers);
    var skip := makers[0].owner == taker.owner;
    var taker' := if skip then taker else taker.(qty := taker.qty - makers[0].qty);
    assert !skip ==> r.fills[1..] == Sweep(makers[1..], taker').fills;
    if i > 0 {
      AheadFillsFirst(makers[1..], taker', i - 1, j - 1);
    } else {
      AbsentIdsDoNotFill(makers[1..], taker', makers[0].id);
    }
  }

  /** `a` has price-time priority over `b` for an incoming order on `side`. */
  predicate Outranks(a: Order, b: Order, side: Side) {
    || (if side.Buy? then a.price < b.price else a.price > b.price)
    || (a.price == b.price && a.ts < b.ts)
  }

  /** Execution prices never improve as a sweep goes deeper. */
  lemma {:induction false} PricesWorsen(makers: seq<Order>, taker: Order, i: nat, j: nat)
    requires Sorted(makers, taker.side.Opposite()) && Positive(makers) && taker.qty >= 0
    requires i <= j < |Sweep(makers, taker).fills|
    ensures var fills := Sweep(makers, taker).fills;
            if taker.side.Buy? then fills[i].price <= fills[j].price else fills[i].price >= fills[j].price
  {
    var skip := makers[0].owner == taker.owner;
    var taker' := if skip then taker else taker.(qty := taker.qty - makers[0].qty);
    if skip {
      PricesWorsen(makers[1..], taker', i, j);
    } else if i > 0 {
      PricesWorsen(makers[1..], taker', i - 1, j - 1);
    } else if j > 0 {
      FillsAreSound(makers[1..], taker', j - 1);
    }
  }

  // ------------------------------------------------------------------ the book invariant

  /** One side in queue order: best price first, then arrival. */
  ghost predicate Sorted(book: seq<Order>, side: Side) {
    forall i, j :: 0 <= i < j < |book| ==> InQueueOrder(book[i], book[j], side)
  }

  predicate InQueueOrder(a: Order, b: Order, side: Side) {
    || (if side.Buy? then a.price > b.price else a.price < b.price)
    || (a.price == b.price && a.ts <= b.ts)
  }

  ghost predicate SideInv(cfg: Config, book: seq<Order>, side: Side) {
    && Sorted(book, side) && Positive(book) && UniqueIds(book)
    && forall i :: 0 <= i < |book| ==> book[i].side == side && book[i].instrument == cfg.instrument
  }

  ghost predicate BookInv(cfg: Config, b: BookState) {
    && SideInv(cfg, b.bids, Buy) && SideInv(cfg, b.asks, Sell)
    && (forall i, j :: 0 <= i < |b.bids| && 0 <= j < |b.asks| ==> b.bids[i].id != b.asks[j].id)
    && (b.bids != [] && b.asks != [] ==> b.bids[0].price < b.asks[0].price)
  }

  lemma InsertKeepsSorted(book: seq<Order>, o: Order)
    requires Sorted(book, o.side)
    ensures Sorted(InsertOrder(book, o), o.side)
  {
    var n := InsertIndex(book, o);
    if n < |book| {
      forall k | n <= k < |book| ensures InQueueOrder(o, book[k], o.side) {
        assert k > n ==> InQueueOrder(book[n], book[k], o.side);
      }
    }
  }

  lemma InsertKeepsSide(cfg: Config, book: seq<Order>, o: Order)
    requires SideInv(cfg, book, o.side) && o.qty > 0 && o.instrument == cfg.instrument && !HasId(book, o.id)
    ensures SideInv(cfg, InsertOrder(book, o), o.side)
  {
    InsertKeepsSorted(book, o);
  }

  lemma SuffixKeepsSide(cfg: Config, makers: seq<Order>, after: seq<Order>, side: Side, k: nat)
    requires SideInv(cfg, makers, side) && k + |after| == |makers|
    requires forall i :: 0 <= i < |after| ==> after[i] == makers[k + i].(qty := after[i].qty) && after[i].qty > 0
    ensures SideInv(cfg, after, side)
  {
    forall i, j | 0 <= i < j < |after| ensures InQueueOrder(after[i], after[j], side) && after[i].id != after[j].id {
      assert InQueueOrder(makers[k + i], makers[k + j], side) && makers[k + i].id != makers[k + j].id;
    }
  }

  lemma SweepKeepsSide(cfg: Config, makers: seq<Order>, taker: Order)
    requires SideInv(cfg, makers, taker.side.Opposite()) && taker.qty >= 0
    ensures SideInv(cfg, Sweep(makers, taker).makers, taker.side.Opposite())
    ensures forall id :: HasId(Sweep(makers, taker).makers, id) ==> HasId(makers, id)
    ensures Sweep(makers, taker).makers != [] ==>
              && makers != []
              && var best, before := Sweep(makers, taker).makers[0].price, makers[0].price;
                 if taker.side.Buy? then before <= best else before >= best
  {
    var k := SweepConsumes(makers, taker);
    var after := Sweep(makers, taker).makers;
    assert forall i :: 0 <= i < |after| ==> after[i] == makers[k + i].(qty := after[i].qty);
    SuffixKeepsSide(cfg, makers, after, taker.side.Opposite(), k);
    forall id | HasId(after, id) ensures HasId(makers, id) {
      var i :| 0 <= i < |after| && after[i].id == id;
      assert makers[k + i].id == id;
    }
    if after != [] && k > 0 {
      assert InQueueOrder(makers[0], makers[k], taker.side.Opposite());
    }
  }

  lemma SweptBookGood(cfg: Config, b: BookState, o: Order, last: Option<int>)
    requires BookInv(cfg, b) && o.qty >= 0
    ensures BookInv(cfg, b.WithOpposing(o.side, Sweep(b.Opposing(o.side), o).makers).(last := last))
  {
    SweepKeepsSide(cfg, b.Opposing(o.side), o);
    KeepsApart(b.Opposing(o.side), Sweep(b.Opposing(o.side), o).makers, if o.side.Buy? then b.bids else b.asks);
  }

  lemma RestKeepsInvariant(cfg: Config, b: BookState, o: Order)
    requires BookInv(cfg, b) && o.qty > 0 && o.instrument == cfg.instrument
    requires !HasId(b.bids, o.id) && !HasId(b.asks, o.id)
    requires b.Opposing(o.side) == [] || !Crosses(b.Opposing(o.side)[0], o)
    ensures BookInv(cfg, Rest(b, o))
  {
    var own := if o.side.Buy? then b.bids else b.asks;
    InsertKeepsSide(cfg, own, o);
  }

  /** What a placement reports: the order rests with exactly what did not print, or not at all, and the
      last trade is the last print. */
  lemma PlaceReports(cfg: Config, b: BookState, o: Order)
    requires BookInv(cfg, b) && PlaceIn(cfg, b, o).1.Success?
    ensures var (after, r) := PlaceIn(cfg, b, o);
            var fills, left := r.value.fills, o.qty - TotalQty(r.value.fills);
            && r.value.resting == (if left > 0 then Some(o.(qty := left)) else None)
            && after.last == (if fills == [] then b.last else Some(fills[|fills| - 1].price))
  {
    TakerConserved(b.Opposing(o.side), o);
    var k := SweepConsumes(b.Opposing(o.side), o);
  }

  /** When a placement is accepted: a positive price on tick, at least the minimum, this instrument, and an
      id not in the book. A refused one changes nothing. */
  lemma PlaceAcceptsIff(cfg: Config, b: BookState, o: Order)
    ensures var (after, r) := PlaceIn(cfg, b, o);
            && (r.Success? <==>
                  && o.instrument == cfg.instrument && o.price > 0 && o.price % cfg.tickSize == 0 && o.qty >= cfg.minQty
                  && (forall x :: x in b.bids || x in b.asks ==> x.id != o.id))
            && (r.Failure? ==> after == b)
  {
    if r :| r in b.bids && r.id == o.id { var k :| 0 <= k < |b.bids| && b.bids[k] == r; }
    if r :| r in b.asks && r.id == o.id { var k :| 0 <= k < |b.asks| && b.asks[k] == r; }
    assert HasId(b.bids, o.id) ==> exists x :: x in b.bids && x.id == o.id;
    assert HasId(b.asks, o.id) ==> exists x :: x in b.asks && x.id == o.id;
  }

  /** Placing keeps both sides sorted, positive and duplicate-free, and never leaves them crossed. */
  lemma PlaceKeepsInvariant(cfg: Config, b: BookState, o: Order)
    requires BookInv(cfg, b)
    ensures BookInv(cfg, PlaceIn(cfg, b, o).0)
  {
    var (b', result) := PlaceIn(cfg, b, o);
    if result.Success? {
      var r := Sweep(b.Opposing(o.side), o);
      var k := SweepConsumes(b.Opposing(o.side), o);
      SweepKeepsSide(cfg, b.Opposing(o.side), o);
      SweptBookGood(cfg, b, o, LastPrice(r.fills, b.last));
      if r.taker.qty > 0 {
        RestKeepsInvariant(cfg, b.WithOpposing(o.side, r.makers).(last := LastPrice(r.fills, b.last)), r.taker);
      }
    }
  }

  lemma KeepsApart(makers: seq<Order>, after: seq<Order>, own: seq<Order>)
    requires forall id :: HasId(after, id) ==> HasId(makers, id)
    requires forall i, j :: 0 <= i < |makers| && 0 <= j < |own| ==> makers[i].id != own[j].id
    ensures forall i, j :: 0 <= i < |after| && 0 <= j < |own| ==> after[i].id != own[j].id
  {
    forall i, j | 0 <= i < |after| && 0 <= j < |own| ensures after[i].id != own[j].id {
      assert HasId(after, after[i].id);
      var m :| 0 <= m < |makers| && makers[m].id == after[i].id;
    }
  }

  /** Removal cuts out one index, or changes nothing when the id is absent. */
  lemma {:induction false} RemoveCuts(book: seq<Order>, id: OrderId) returns (n: nat)
    ensures n <= |book| && forall k :: 0 <= k < n ==> book[k].id != id
    ensures if n < |book| then book[n].id == id && RemoveId(book, id) == book[..n] + book[n+1..]
            else RemoveId(book, id) == book
  {
    if book == [] || book[0].id == id {
      n := 0;
    } else {
      var m := RemoveCuts(book[1..], id);
      n := m + 1;
      assert forall k :: 0 < k < n ==> book[k] == book[1..][k-1];
      assert m < |book[1..]| ==> book[1..][m+1..] == book[n+1..];
    }
  }

  lemma RemoveKeepsSide(cfg: Config, book: seq<Order>, side: Side, id: OrderId)
    requires SideInv(cfg, book, side)
    ensures SideInv(cfg, RemoveId(book, id), side)
    ensures RemoveId(book, id) != [] ==> book != [] && RemoveId(book, id)[0] in book
    ensures RemoveId(book, id) != [] ==>
        book[0] == RemoveId(book, id)[0] || InQueueOrder(book[0], RemoveId(book, id)[0], side)
  {
    var n := RemoveCuts(book, id);
    var after := RemoveId(book, id);
    hide RemoveId, InQueueOrder;
    assert n < |book| ==> forall k :: 0 <= k < |after| ==> after[k] == book[if k < n then k else k + 1];
  }

  lemma RemoveDropsOnly(book: seq<Order>, id: OrderId, o: Order)
    requires UniqueIds(book)
    ensures o in RemoveId(book, id) <==> o in book && o.id != id
  {
    var n := RemoveCuts(book, id);
    if o in book && o.id != id {
      var i :| 0 <= i < |book| && book[i] == o;
      assert n < |book| ==> o == if i < n then RemoveId(book, id)[i] else RemoveId(book, id)[i-1];
    }
  }

  lemma RemovedIds(book: seq<Order>, id: OrderId, x: OrderId)
    requires HasId(RemoveId(book, id), x)
    ensures HasId(book, x)
  {
    var n := RemoveCuts(book, id);
    var i :| 0 <= i < |RemoveId(book, id)| && RemoveId(book, id)[i].id == x;
    assert book[if i < n then i else i + 1].id == x;
  }

  /** Cancelling keeps the invariant. */
  lemma CancelKeepsInvariant(cfg: Config, b: BookState, id: OrderId)
    requires BookInv(cfg, b)
    ensures BookInv(cfg, CancelIn(b, id).0)
  {
    RemoveKeepsSide(cfg, b.bids, Buy, id);
    RemoveKeepsSide(cfg, b.asks, Sell, id);
    forall x | HasId(RemoveId(b.bids, id), x) ensures HasId(b.bids, x) { RemovedIds(b.bids, id, x); }
    forall x | HasId(RemoveId(b.asks, id), x) ensures HasId(b.asks, x) { RemovedIds(b.asks, id, x); }
    if HasId(b.bids, id) {
      KeepsApart(b.bids, RemoveId(b.bids, id), b.asks);
    } else if HasId(b.asks, id) {
      KeepsApart(b.asks, RemoveId(b.asks, id), b.bids);
    }
  }

  /** Cancelling takes out exactly the named order, from either side, and reports whether it was
      there. */
  lemma CancelRemovesOnly(cfg: Config, b: BookState, id: OrderId, o: Order)
    requires BookInv(cfg, b)
    ensures var (after, found) := CancelIn(b, id);
            && (o in after.bids <==> o in b.bids && o.id != id)
            && (o in after.asks <==> o in b.asks && o.id != id)
            && (found <==> HasId(b.bids, id) || HasId(b.asks, id))
  {
    RemoveDropsOnly(b.bids, id, o);
    RemoveDropsOnly(b.asks, id, o);
  }

  // ------------------------------------------------------------------ whole runs

  datatype Op = PlaceOp(order: Order) | CancelOp(id: OrderId)

  function AfterOp(cfg: Config, b: BookState, op: Op): BookState {
    match op
    case PlaceOp(o) => PlaceIn(cfg, b, o).0
    case CancelOp(id) => CancelIn(b, id).0
  }

  function Run(cfg: Config, b: BookState, ops: seq<Op>): BookState
    decreases |ops|
  {
    if ops == [] then b else Run(cfg, AfterOp(cfg, b, ops[0]), ops[1..])
  }

  lemma OpKeepsInvariant(cfg: Config, b: BookState, op: Op)
    requires BookInv(cfg, b)
    ensures BookInv(cfg, AfterOp(cfg, b, op))
  {
    match op {
      case PlaceOp(o) => PlaceKeepsInvariant(cfg, b, o);
      case CancelOp(id) => CancelKeepsInvariant(cfg, b, id);
    }
  }

  /** From any good book, and so from the empty one, every run of placements (accepted or
      rejected) and cancellations ends in a good book. */
  lemma {:induction false} RunKeepsInvariant(cfg: Config, b: BookState, ops: seq<Op>)
    requires BookInv(cfg, b)
    ensures BookInv(cfg, Run(cfg, b, ops))
    decreases |ops|
  {
    if ops != [] {
      OpKeepsInvariant(cfg, b, ops[0]);
      RunKeepsInvariant(cfg, AfterOp(cfg, b, ops[0]), ops[1..]);
    }
  }

  // ------------------------------------------------------------------ one placement, stated on the book

  /** Price-time priority on a real book: an accepted order never prints against `worse` while
      another owner's `better` order keeps any quantity. */
  lemma PriceTimePriority(cfg: Config, b: BookState, o: Order, better: Order, worse: Order)
    requires BookInv(cfg, b) && PlaceIn(cfg, b, o).1.Success?
    requires better in b.Opposing(o.side) && worse in b.Opposing(o.side)
    requires better.owner != o.owner && Outranks(better, worse, o.side)
    requires FilledOf(PlaceIn(cfg, b, o).1.value.fills, worse.id) > 0
    ensures FilledOf(PlaceIn(cfg, b, o).1.value.fills, better.id) == better.qty
  {
    var makers := b.Opposing(o.side);
    var i :| 0 <= i < |makers| && makers[i] == better;
    var j :| 0 <= j < |makers| && makers[j] == worse;
    AheadFillsFirst(makers, o, i, j);
  }

  /** What the taker asked for is what printed plus what now rests under its id. */
  lemma PlaceConservesTaker(cfg: Config, b: BookState, o: Order)
    requires BookInv(cfg, b) && PlaceIn(cfg, b, o).1.Success?
    ensures var (after, result) := PlaceIn(cfg, b, o);
            TotalQty(result.value.fills) + RestingOf(after.Opposing(o.side.Opposite()), o.id) == o.qty
  {
    var own := b.Opposing(o.side.Opposite());
    var r := Sweep(b.Opposing(o.side), o);
    TakerConserved(b.Opposing(o.side), o);
    var k := SweepConsumes(b.Opposing(o.side), o);
    if r.taker.qty > 0 {
      InsertKeepsSide(cfg, own, r.taker);
      var n := InsertIndex(own, r.taker);
      assert InsertOrder(own, r.taker)[n] == r.taker;
      RestingAt(InsertOrder(own, r.taker), n);
    } else {
      AbsentIdsRest(own, o.id);
    }
  }

  /** Every opposing order is split between prints and the book, except that the taker owner's own
      orders never print and either stay whole or are cancelled. */
  lemma PlaceConservesMaker(cfg: Config, b: BookState, o: Order, m: Order)
    requires BookInv(cfg, b) && PlaceIn(cfg, b, o).1.Success?
    requires m in b.Opposing(o.side)
    ensures var (after, result) := PlaceIn(cfg, b, o);
            if m.owner != o.owner then
              FilledOf(result.value.fills, m.id) + RestingOf(after.Opposing(o.side), m.id) == m.qty
            else
              FilledOf(result.value.fills, m.id) == 0 && RestingOf(after.Opposing(o.side), m.id) in {0, m.qty}
  {
    var makers := b.Opposing(o.side);
    var i :| 0 <= i < |makers| && makers[i] == m;
    MakerConserved(makers, o, i);
    var k := SweepConsumes(makers, o);
  }

  /** Execution prices of one placement stay inside the order's limit and never improve. */
  lemma PlacePrices(cfg: Config, b: BookState, o: Order, i: nat, j: nat)
    requires BookInv(cfg, b) && PlaceIn(cfg, b, o).1.Success?
    requires i <= j < |PlaceIn(cfg, b, o).1.value.fills|
    ensures var fills := PlaceIn(cfg, b, o).1.value.fills;
            && SoundFill(fills[i], b.Opposing(o.side), o)
            && (if o.side.Buy? then fills[i].price <= fills[j].price <= o.price
                else fills[i].price >= fills[j].price >= o.price)
  {
    FillsAreSound(b.Opposing(o.side), o, i);
    FillsAreSound(b.Opposing(o.side), o, j);
    PricesWorsen(b.Opposing(o.side), o, i, j);
  }

  // ------------------------------------------------------------------ depth snapshots

  function QtyAt(book: seq<Order>, price: int): int {
    if book == [] then 0
    else QtyAt(book[..|book| - 1], price) + (if book[|book| - 1].price == price then book[|book| - 1].qty else 0)
  }

  function CountAt(book: seq<Order>, price: int): nat {
    if book == [] then 0
    else CountAt(book[..|book| - 1], price) + (if book[|book| - 1].price == price then 1 else 0)
  }

  ghost function Prices(book: seq<Order>): set<int> {
    set i | 0 <= i < |book| :: book[i].price
  }

  predicate BetterPrice(a: int, b: int, side: Side) {
    if side.Buy? then a > b else a < b
  }

  /** `levels` lists, best first, every price of `book` with what truly rests there. */
  ghost predicate Describes(levels: seq<BookLevel>, book: seq<Order>, side: Side) {
    && (forall i, j :: 0 <= i < j < |levels| ==> BetterPrice(levels[i].price, levels[j].price, side))
    && (forall i :: 0 <= i < |levels| ==>
          && levels[i].qty == QtyAt(book, levels[i].price)
          && levels[i].orders == CountAt(book, levels[i].price) > 0)
  }

  lemma {:induction false} CountPositive(book: seq<Order>, price: int)
    ensures CountAt(book, price) > 0 <==> price in Prices(book)
  {
    if book != [] {
      var n := |book| - 1;
      CountPositive(book[..n], price);
      if price in Prices(book) {
        var i :| 0 <= i < |book| && book[i].price == price;
        assert i < n ==> book[..n][i] == book[i];
      }
      if price in Prices(book[..n]) {
        var i :| 0 <= i < n && book[..n][i].price == price;
        assert book[i].price == price;
      }
      assert book[n].price in Prices(book);
    }
  }

  lemma {:induction false} NoneAt(book: seq<Order>, price: int)
    requires price !in Prices(book)
    ensures QtyAt(book, price) == 0 && CountAt(book, price) == 0
  {
    if book != [] {
      var n := |book| - 1;
      assert Prices(book[..n]) <= Prices(book) by {
        assert forall i :: 0 <= i < n ==> book[..n][i] == book[i];
      }
      NoneAt(book[..n], price);
      assert book[n].price in Prices(book);
    }
  }

  lemma PricesExtend(book: seq<Order>)
    requires book != []
    ensures Prices(book) == Prices(book[..|book| - 1]) + {book[|book| - 1].price}
  {
    assert forall i :: 0 <= i < |book| - 1 ==> book[..|book| - 1][i] == book[i];
  }

  /** The levels are the distinct prices, best first, the last one being the last order's. */
  ghost predicate ListsPrices(levels: seq<BookLevel>, book: seq<Order>, side: Side) {
    && (forall i, j :: 0 <= i < j < |levels| ==> BetterPrice(levels[i].price, levels[j].price, side))
    && (forall l :: 0 <= l < |levels| ==> levels[l].price in Prices(book))
    && |levels| == |Prices(book)|
    && (book != [] ==> levels != [] && levels[|levels| - 1].price == book[|book| - 1].price)
  }

  lemma SamePriceLists(levels: seq<BookLevel>, more: seq<BookLevel>, book: seq<Order>, side: Side)
    requires |book| > 1 && book[|book| - 2].price == book[|book| - 1].price
    requires ListsPrices(levels, book[..|book| - 1], side)
    requires |more| == |levels| && forall l :: 0 <= l < |levels| ==> more[l].price == levels[l].price
    ensures ListsPrices(more, book, side)
  {
    PricesExtend(book);
    assert Prices(book) == Prices(book[..|book| - 1]);
  }

  lemma LastIsWorst(book: seq<Order>, side: Side, price: int)
    requires Sorted(book, side) && |book| > 1 && book[|book| - 2].price != book[|book| - 1].price
    requires price in Prices(book[..|book| - 1])
    ensures BetterPrice(price, book[|book| - 1].price, side)
  {
    var n := |book| - 1;
    var i :| 0 <= i < n && book[..n][i].price == price;
    assert i < n - 1 ==> InQueueOrder(book[i], book[n-1], side);
    assert InQueueOrder(book[n-1], book[n], side);
  }

  lemma NoPrices(book: seq<Order>)
    requires book == []
    ensures Prices(book) == {}
  {
  }

  lemma NewPriceCounts(book: seq<Order>, side: Side, n: nat)
    requires Sorted(book, side) && n == |book| - 1
    requires n > 0 ==> book[n-1].price != book[n].price
    ensures |Prices(book)| == |Prices(book[..n])| + 1
    ensures forall price :: price in Prices(book[..n]) ==>
        BetterPrice(price, book[n].price, side) && price in Prices(book)
  {
    PricesExtend(book);
    if n == 0 { NoPrices(book[..n]); }
    hide Prices, Sorted;
    forall price | n > 0 && price in Prices(book[..n]) ensures BetterPrice(price, book[n].price, side) {
      LastIsWorst(book, side, price);
    }
    assert book[n].price !in Prices(book[..n]);
  }

  lemma NewPriceLists(levels: seq<BookLevel>, level: BookLevel, book: seq<Order>, side: Side)
    requires Sorted(book, side) && book != [] && level.price == book[|book| - 1].price
    requires |book| > 1 ==> book[|book| - 2].price != book[|book| - 1].price
    requires ListsPrices(levels, book[..|book| - 1], side)
    ensures ListsPrices(levels + [level], book, side)
  {
    NewPriceCounts(book, side, |book| - 1);
    hide Prices, Sorted;
    assert forall l :: 0 <= l < |levels| ==> levels[l].price in Prices(book[..|book| - 1]);
  }

  lemma {:induction false} LevelPrices(book: seq<Order>, side: Side)
    requires Sorted(book, side)
    ensures ListsPrices(AllLevels(book), book, side)
  {
    if book != [] {
      var n := |book| - 1;
      var before := AllLevels(book[..n]);
      LevelPrices(book[..n], side);
      if n > 0 && book[n-1].price == book[n].price {
        SamePriceLists(before, AllLevels(book), book, side);
      } else {
        NewPriceLists(before, BookLevel(book[n].price, book[n].qty, 1), book, side);
      }
    }
  }

  lemma {:induction false} LevelQuantities(book: seq<Order>, side: Side, l: nat)
    requires Sorted(book, side) && l < |AllLevels(book)|
    ensures var level := AllLevels(book)[l];
            level.qty == QtyAt(book, level.price) && level.orders == CountAt(book, level.price)
  {
    var n := |book| - 1;
    var before, price := book[..n], book[n].price;
    var levels := AllLevels(before);
    LevelPrices(before, side);
    if l < |levels| {
      LevelQuantities(before, side, l);
    } else {
      assert price !in Prices(before) by {
        PricesExtend(book);
        LevelPrices(book, side);
        assert |Prices(book)| == |Prices(before)| + 1;
      }
      NoneAt(before, price);
    }
  }

  lemma AllLevelsDescribe(book: seq<Order>, side: Side)
    requires Sorted(book, side)
    ensures Describes(AllLevels(book), book, side) && |AllLevels(book)| == |Prices(book)|
  {
    LevelPrices(book, side);
    forall l | 0 <= l < |AllLevels(book)|
      ensures AllLevels(book)[l].qty == QtyAt(book, AllLevels(book)[l].price)
      ensures AllLevels(book)[l].orders == CountAt(book, AllLevels(book)[l].price) > 0
    {
      LevelQuantities(book, side, l);
      CountPositive(book, AllLevels(book)[l].price);
    }
  }

  /** `levels` are the best min(depth, number of prices) of a side, best first, each with the true
      total quantity and number of orders, and only worse prices are left out. */
  ghost predicate TrueSnapshot(levels: seq<BookLevel>, book: seq<Order>, side: Side, depth: nat) {
    && Describes(levels, book, side)
    && |levels| == Min(depth, |Prices(book)|)
    && forall price :: price in Prices(book) ==>
         || (exists l :: 0 <= l < |levels| && levels[l].price == price)
         || (|levels| == depth && forall l :: 0 <= l < depth ==> BetterPrice(levels[l].price, price, side))
  }

  lemma SnapshotIsTrue(book: seq<Order>, side: Side, depth: nat)
    requires Sorted(book, side)
    ensures TrueSnapshot(Levels(book, depth), book, side, depth)
  {
    AllLevelsDescribe(book, side);
    var all, levels := AllLevels(book), Levels(book, depth);
    forall price | price in Prices(book)
      ensures || (exists l :: 0 <= l < |levels| && levels[l].price == price)
              || (|levels| == depth && forall l :: 0 <= l < depth ==> BetterPrice(levels[l].price, price, side))
    {
      var l := LevelOf(book, side, price);
      if l < |levels| {
        assert levels[l].price == price;
      }
    }
  }

  lemma {:induction false} LevelOf(book: seq<Order>, side: Side, price: int) returns (l: nat)
    requires Sorted(book, side) && price in Prices(book)
    ensures l < |AllLevels(book)| && AllLevels(book)[l].price == price
  {
    var n := |book| - 1;
    LevelPrices(book, side);
    if book[n].price == price {
      l := |AllLevels(book)| - 1;
    } else {
      assert price in Prices(book[..n]) by {
        var i :| 0 <= i < |book| && book[i].price == price;
        assert book[..n][i] == book[i];
      }
      l := LevelOf(book[..n], side, price);
    }
  }

  /** After any run from the empty book, `snapshot` reports the book truthfully on both sides. */
  lemma RunSnapshotIsTrue(cfg: Config, ops: seq<Op>, depth: nat)
    ensures var b := Run(cfg, EMPTY_BOOK, ops);
            && BookInv(cfg, b)
            && TrueSnapshot(Levels(b.bids, depth), b.bids, Buy, depth)
            && TrueSnapshot(Levels(b.asks, depth), b.asks, Sell, depth)
  {
    RunKeepsInvariant(cfg, EMPTY_BOOK, ops);
    var b := Run(cfg, EMPTY_BOOK, ops);
    SnapshotIsTrue(b.bids, Buy, depth);
    SnapshotIsTrue(b.asks, Sell, depth);
  }
}
