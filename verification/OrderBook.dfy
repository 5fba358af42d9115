/** The native price-time-priority book of one instrument: its data, the recursive meaning of
    matching and resting, and the imperative engine proved to compute exactly that. Orders are
    matched against the opposing side best price first, and the earliest first within a price. */
module OrderBook {
  import opened Wrappers

  type Owner = nat

  /** Book ids are either a label the venue makes up or the digest of a signed order. */
  datatype OrderId = Local(number: nat) | Digest(digest: nat)

  datatype Order = Order(
    id: OrderId,
    instrument: string,
    side: Side,
    price: int,
    qty: int,
    owner: Owner,
    ts: int)

  datatype Fill = Fill(
    instrument: string,
    makerId: OrderId,
    takerId: OrderId,
    makerOwner: Owner,
    takerOwner: Owner,
    price: int,
    qty: int,
    takerSide: Side,
    ts: int)

  datatype PlaceOutcome = PlaceOutcome(fills: seq<Fill>, resting: Option<Order>)

  datatype MatchError =
    | WrongInstrument(expected: string, got: string)
    | InvalidPrice(price: int)
    | OffTick(offPrice: int, tick: int)
    | BelowMinQty(qty: int, min: int)
    | DuplicateId(id: OrderId)

  datatype BookLevel = BookLevel(price: int, qty: int, orders: nat)

  datatype BookSnapshot = BookSnapshot(
    instrument: string,
    bids: seq<BookLevel>,
    asks: seq<BookLevel>,
    lastTradePrice: Option<int>)

  /** The fixed parameters of a book. A tick of zero would divide by zero, and a minimum below
      one would let an order of no quantity print. */
  datatype Config = Config(instrument: string, tickSize: posint, minQty: posint)

  datatype BookState = BookState(bids: seq<Order>, asks: seq<Order>, last: Option<int>) {
    function Opposing(side: Side): seq<Order> {
      if side.Buy? then asks else bids
    }

    function WithOpposing(side: Side, makers: seq<Order>): BookState {
      if side.Buy? then this.(asks := makers) else this.(bids := makers)
    }
  }

  const EMPTY_BOOK := BookState([], [], None)

  // ------------------------------------------------------------------ matching

  predicate Crosses(maker: Order, taker: Order) {
    if taker.side.Buy? then maker.price <= taker.price else maker.price >= taker.price
  }

  function MakeFill(maker: Order, taker: Order, qty: int): Fill {
    Fill(maker.instrument, maker.id, taker.id, maker.owner, taker.owner,
         maker.price, qty, taker.side, taker.ts)
  }

  datatype Swept = Swept(fills: seq<Fill>, makers: seq<Order>, taker: Order)

  /** Walk the opposing side from its best order: stop when the taker is done or the best maker
      does not cross, drop the taker owner's own makers, fill against everyone else's. */
  function Sweep(makers: seq<Order>, taker: Order): Swept {
    if taker.qty == 0 || makers == [] || !Crosses(makers[0], taker) then
      Swept([], makers, taker)
    else if makers[0].owner == taker.owner then
      Sweep(makers[1..], taker)
    else if taker.qty < makers[0].qty then
      Swept([MakeFill(makers[0], taker, taker.qty)],
            [makers[0].(qty := makers[0].qty - taker.qty)] + makers[1..],
            taker.(qty := 0))
    else
      var rest := Sweep(makers[1..], taker.(qty := taker.qty - makers[0].qty));
      rest.(fills := [MakeFill(makers[0], taker, makers[0].qty)] + rest.fills)
  }

  /** What is still to come completes `fills` to the `whole` sweep. */
  ghost predicate Completes(whole: Swept, fills: seq<Fill>, makers: seq<Order>, taker: Order) {
    var rest := Sweep(makers, taker);
    whole == rest.(fills := fills + rest.fills)
  }

  lemma CompletesStart(makers: seq<Order>, taker: Order)
    ensures Completes(Sweep(makers, taker), [], makers, taker)
  {
    assert [] + Sweep(makers, taker).fills == Sweep(makers, taker).fills;
  }

  lemma CompletesEnd(whole: Swept, fills: seq<Fill>, makers: seq<Order>, taker: Order)
    requires Completes(whole, fills, makers, taker)
    requires taker.qty == 0 || makers == [] || !Crosses(makers[0], taker)
    ensures whole == Swept(fills, makers, taker)
  {
    assert fills + [] == fills;
  }

  lemma CompletesOwn(whole: Swept, fills: seq<Fill>, makers: seq<Order>, taker: Order)
    requires Completes(whole, fills, makers, taker)
    requires taker.qty != 0 && makers != [] && Crosses(makers[0], taker) && makers[0].owner == taker.owner
    ensures Completes(whole, fills, makers[1..], taker)
  {
  }

  lemma CompletesFill(whole: Swept, fills: seq<Fill>, makers: seq<Order>, taker: Order, qty: int)
    requires Completes(whole, fills, makers, taker)
    requires taker.qty != 0 && makers != [] && Crosses(makers[0], taker) && makers[0].owner != taker.owner
    requires qty == Min(taker.qty, makers[0].qty)
    ensures Completes(whole, fills + [MakeFill(makers[0], taker, qty)], AfterFill(makers, qty),
                      taker.(qty := taker.qty - qty))
  {
    var fill := MakeFill(makers[0], taker, qty);
    var rest := Sweep(AfterFill(makers, qty), taker.(qty := taker.qty - qty));
    assert fills + ([fill] + rest.fills) == (fills + [fill]) + rest.fills;
  }

  /** The head maker less what it filled, gone once nothing is left of it. */
  function AfterFill(makers: seq<Order>, qty: int): (r: seq<Order>)
    requires makers != []
    ensures |r| == if makers[0].qty == qty then |makers| - 1 else |makers|
  {
    if makers[0].qty == qty then makers[1..] else [makers[0].(qty := makers[0].qty - qty)] + makers[1..]
  }

  // ------------------------------------------------------------------ resting

  /** `cur` keeps its place ahead of a newly resting `order`. */
  predicate StaysAhead(cur: Order, order: Order) {
    || (if order.side.Buy? then cur.price > order.price else cur.price < order.price)
    || (cur.price == order.price && cur.ts <= order.ts)
  }

  function InsertIndex(book: seq<Order>, order: Order): (i: nat)
    ensures i <= |book|
    ensures forall k :: 0 <= k < i ==> StaysAhead(book[k], order)
    ensures i < |book| ==> !StaysAhead(book[i], order)
  {
    if book == [] || !StaysAhead(book[0], order) then 0 else 1 + InsertIndex(book[1..], order)
  }

  function InsertOrder(book: seq<Order>, order: Order): seq<Order> {
    var i := InsertIndex(book, order);
    book[..i] + [order] + book[i..]
  }

  function Rest(b: BookState, order: Order): BookState {
    if order.side.Buy? then
      b.(bids := InsertOrder(b.bids, order))
    else
      b.(asks := InsertOrder(b.asks, order))
  }

  // ------------------------------------------------------------------ whole operations

  ghost predicate AllFor(instrument: string, book: seq<Order>) {
    forall k :: 0 <= k < |book| ==> book[k].instrument == instrument
  }

  lemma HeadFor(instrument: string, book: seq<Order>)
    requires AllFor(instrument, book) && book != []
    ensures book[0].instrument == instrument && AllFor(instrument, book[1..])
  {
  }

  lemma HeadFilled(instrument: string, book: seq<Order>, qty: int)
    requires AllFor(instrument, book) && book != []
    ensures AllFor(instrument, AfterFill(book, qty))
  {
  }

  predicate HasId(book: seq<Order>, id: OrderId) {
    exists k :: 0 <= k < |book| && book[k].id == id
  }

  function Validate(cfg: Config, o: Order): Option<MatchError> {
    if o.instrument != cfg.instrument then Some(WrongInstrument(cfg.instrument, o.instrument))
    else if o.price <= 0 then Some(InvalidPrice(o.price))
    else if o.price % cfg.tickSize != 0 then Some(OffTick(o.price, cfg.tickSize))
    else if o.qty < cfg.minQty then Some(BelowMinQty(o.qty, cfg.minQty))
    else None
  }

  function LastPrice(fills: seq<Fill>, before: Option<int>): Option<int> {
    if fills == [] then before else Some(fills[|fills| - 1].price)
  }

  function AfterSweep(b: BookState, side: Side, r: Swept): BookState {
    var swept := b.WithOpposing(side, r.makers).(last := LastPrice(r.fills, b.last));
    if r.taker.qty > 0 then Rest(swept, r.taker) else swept
  }

  function PlaceIn(cfg: Config, b: BookState, incoming: Order): (BookState, Result<PlaceOutcome, MatchError>) {
    var invalid := Validate(cfg, incoming);
    if invalid.Some? then
      (b, Failure(invalid.value))
    else if HasId(b.bids, incoming.id) || HasId(b.asks, incoming.id) then
      (b, Failure(DuplicateId(incoming.id)))
    else
      var r := Sweep(b.Opposing(incoming.side), incoming);
      (AfterSweep(b, incoming.side, r),
       Success(PlaceOutcome(r.fills, if r.taker.qty > 0 then Some(r.taker) else None)))
  }

  function RemoveId(book: seq<Order>, id: OrderId): seq<Order> {
    if book == [] then []
    else if book[0].id == id then book[1..]
    else [book[0]] + RemoveId(book[1..], id)
  }

  lemma RemoveStarts(book: seq<Order>, id: OrderId)
    ensures !HasId(book[..0], id) && RemoveId(book, id) == book[..0] + RemoveId(book[0..], id)
  {
    assert book[0..] == book;
  }

  /** Looking one order further while it is not the one. */
  lemma RemoveSkips(book: seq<Order>, id: OrderId, i: nat)
    requires i < |book| && book[i].id != id && !HasId(book[..i], id)
    requires RemoveId(book, id) == book[..i] + RemoveId(book[i..], id)
    ensures !HasId(book[..i+1], id) && RemoveId(book, id) == book[..i+1] + RemoveId(book[i+1..], id)
  {
    assert book[i..][1..] == book[i+1..];
    assert book[..i] + [book[i]] == book[..i+1];
    var looked := book[..i+1];
    forall k | 0 <= k < |looked| ensures looked[k].id != id {
      assert k < i ==> looked[k] == book[..i][k];
    }
  }

  lemma RemoveStops(book: seq<Order>, id: OrderId, i: nat)
    requires i <= |book| && !HasId(book[..i], id)
    requires RemoveId(book, id) == book[..i] + RemoveId(book[i..], id)
    ensures i == |book| ==> !HasId(book, id) && RemoveId(book, id) == book
    ensures i < |book| && book[i].id == id ==> HasId(book, id) && RemoveId(book, id) == book[..i] + book[i+1..]
  {
    if i == |book| {
      assert book[..i] == book && book[..i] + [] == book;
    } else {
      assert book[i..][1..] == book[i+1..];
    }
  }

  function CancelIn(b: BookState, id: OrderId): (BookState, bool) {
    if HasId(b.bids, id) then (b.(bids := RemoveId(b.bids, id)), true)
    else if HasId(b.asks, id) then (b.(asks := RemoveId(b.asks, id)), true)
    else (b, false)
  }

  /** Group a side into price levels, one order at a time from the front. */
  function AllLevels(book: seq<Order>): seq<BookLevel> {
    if book == [] then
      []
    else
      var before, o := AllLevels(book[..|book| - 1]), book[|book| - 1];
      if before != [] && before[|before| - 1].price == o.price then
        before[|before| - 1 := BookLevel(o.price, before[|before| - 1].qty + o.qty,
                                         before[|before| - 1].orders + 1)]
      else
        before + [BookLevel(o.price, o.qty, 1)]
  }

  function Levels(book: seq<Order>, depth: nat): seq<BookLevel> {
    var all := AllLevels(book);
    if |all| <= depth then all else all[..depth]
  }

  /** Once a level past `depth` has opened, later orders cannot touch the first `depth`. */
  lemma {:induction false} LevelsSettled(book: seq<Order>, n: nat, depth: nat)
    requires n <= |book| && |AllLevels(book[..n])| > depth
    ensures |AllLevels(book)| > depth
    ensures AllLevels(book)[..depth] == AllLevels(book[..n])[..depth]
    decreases |book| - n
  {
    if n == |book| {
      assert book[..n] == book;
    } else {
      assert book[..n+1][..n] == book[..n];
      LevelsSettled(book, n + 1, depth);
    }
  }

  // ------------------------------------------------------------------ the engine

  class NativeBook {
    const instrumentId: string
    const tickSize: posint
    const minQty: posint
    var bids: seq<Order>
    var asks: seq<Order>
    var lastTradePrice: Option<int>

    function State(): BookState
      reads this
    {
      BookState(bids, asks, lastTradePrice)
    }

    function Cfg(): Config {
      Config(instrumentId, tickSize, minQty)
    }

    constructor (instrument: string, tick: posint, min: posint)
      ensures State() == EMPTY_BOOK
      ensures Cfg() == Config(instrument, tick, min)
    {
      instrumentId, tickSize, minQty := instrument, tick, min;
      bids, asks, lastTradePrice := [], [], None;
    }

    method IdExists(id: OrderId) returns (found: bool)
      ensures found == (HasId(bids, id) || HasId(asks, id))
    {
      found := false;
      var i := 0;
      var chained := bids + asks;
      while i < |chained| && !found
        invariant i <= |chained|
        invariant found ==> HasId(bids, id) || HasId(asks, id)
        invariant !found ==> forall k :: 0 <= k < i ==> chained[k].id != id
        decreases |chained| - i, !found
      {
        if chained[i].id == id {
          found := true;
          assert if i < |bids| then bids[i].id == id else asks[i - |bids|].id == id;
        }
        i := i + 1;
      }
      if !found {
        assert forall k :: 0 <= k < |bids| ==> bids[k] == chained[k];
        assert forall k :: 0 <= k < |asks| ==> asks[k] == chained[|bids| + k];
      }
    }

    /** Find the first order the new one may overtake, and rest just before it. */
    method Insert(order: Order)
      modifies this
      ensures State() == Rest(old(State()), order)
    {
      hide StaysAhead;
      var book := if order.side.Buy? then bids else asks;
      var i := 0;
      while i < |book|
        invariant i <= |book|
        invariant InsertIndex(book, order) == i + InsertIndex(book[i..], order)
      {
        if !StaysAhead(book[i], order) {
          break;
        }
        assert book[i..][1..] == book[i+1..];
        i := i + 1;
      }
      if order.side.Buy? {
        bids := book[..i] + [order] + book[i..];
      } else {
        asks := book[..i] + [order] + book[i..];
      }
    }

    /** The matching loop of `Place`. It ends although a self-match leaves the taker as it was:
        every turn either shortens the opposing side or uses up taker quantity. */
    method Match(incoming: Order) returns (fills: seq<Fill>, taker: Order)
      requires incoming.qty >= 0
      requires AllFor(instrumentId, State().Opposing(incoming.side))
      modifies this
      ensures Swept(fills, State().Opposing(incoming.side), taker)
          == Sweep(old(State()).Opposing(incoming.side), incoming)
      ensures State().Opposing(incoming.side.Opposite()) == old(State()).Opposing(incoming.side.Opposite())
      ensures lastTradePrice == LastPrice(fills, old(lastTradePrice))
    {
      taker := incoming;
      fills := [];
      var makers := if taker.side.Buy? then asks else bids;
      ghost var whole := Sweep(makers, incoming);
      CompletesStart(makers, incoming);
      hide Sweep, Completes, AllFor, AfterFill;
      while taker.qty != 0
        invariant 0 <= taker.qty && taker.side == incoming.side
        invariant makers == if incoming.side.Buy? then asks else bids
        invariant if incoming.side.Buy? then bids == old(bids) else asks == old(asks)
        invariant lastTradePrice == LastPrice(fills, old(lastTradePrice))
        invariant AllFor(instrumentId, makers)
        invariant Completes(whole, fills, makers, taker)
        decreases |makers|, taker.qty
      {
        if makers == [] || !Crosses(makers[0], taker) {
          break;
        }
        var maker := makers[0];
        HeadFor(instrumentId, makers);
        if maker.owner == taker.owner {
          // Self-match prevention: cancel the resting maker; the taker keeps its quantity.
          CompletesOwn(whole, fills, makers, taker);
          makers := makers[1..];
        } else {
          var qty := Min(taker.qty, maker.qty);
          CompletesFill(whole, fills, makers, taker, qty);
          var fill := Fill(instrumentId, maker.id, taker.id, maker.owner, taker.owner,
                           maker.price, qty, taker.side, taker.ts);
          fills := fills + [fill];
          lastTradePrice := Some(maker.price);
          taker := taker.(qty := taker.qty - qty);
          HeadFilled(instrumentId, makers, qty);
          makers := AfterFill(makers, qty);
        }
        if taker.side.Buy? { asks := makers; } else { bids := makers; }
      }
      CompletesEnd(whole, fills, makers, taker);
    }

    method Place(incoming: Order) returns (r: Result<PlaceOutcome, MatchError>)
      requires AllFor(instrumentId, bids) && AllFor(instrumentId, asks)
      modifies this
      ensures (State(), r) == PlaceIn(Cfg(), old(State()), incoming)
    {
      var invalid := Validate(Cfg(), incoming);
      if invalid.Some? {
        return Failure(invalid.value);
      }
      var duplicate := IdExists(incoming.id);
      if duplicate {
        return Failure(DuplicateId(incoming.id));
      }
      var fills, taker := Match(incoming);
      if taker.qty > 0 {
        Insert(taker);
        return Success(PlaceOutcome(fills, Some(taker)));
      } else {
        return Success(PlaceOutcome(fills, None));
      }
    }

    static method Remove(book: seq<Order>, id: OrderId) returns (after: seq<Order>, found: bool)
      ensures found == HasId(book, id)
      ensures after == RemoveId(book, id)
      ensures !found ==> after == book
    {
      hide RemoveId, HasId;
      var i := 0;
      RemoveStarts(book, id);
      while i < |book| && book[i].id != id
        invariant i <= |book|
        invariant !HasId(book[..i], id)
        invariant RemoveId(book, id) == book[..i] + RemoveId(book[i..], id)
      {
        RemoveSkips(book, id, i);
        i := i + 1;
      }
      RemoveStops(book, id, i);
      if i < |book| {
        found := true;
        after := book[..i] + book[i+1..];
      } else {
        found := false;
        after := book;
      }
    }

    method Cancel(id: OrderId) returns (found: bool)
      modifies this
      ensures (State(), found) == CancelIn(old(State()), id)
    {
      var after;
      after, found := Remove(bids, id);
      bids := after;
      if !found {
        after, found := Remove(asks, id);
        asks := after;
      }
    }

    static method LevelsOf(book: seq<Order>, depth: nat) returns (out: seq<BookLevel>)
      ensures out == Levels(book, depth)
    {
      out := [];
      var i := 0;
      while i < |book|
        invariant i <= |book|
        invariant out == AllLevels(book[..i]) && |out| <= depth
      {
        assert book[..i+1][..i] == book[..i];
        var o := book[i];
        i := i + 1;
        if out != [] && out[|out| - 1].price == o.price {
          var top := out[|out| - 1];
          out := out[|out| - 1 := BookLevel(top.price, top.qty + o.qty, top.orders + 1)];
          continue;
        }
        if |out| == depth {
          LevelsSettled(book, i, depth);
          return;
        }
        out := out + [BookLevel(o.price, o.qty, 1)];
      }
      assert book[..i] == book;
    }

    method Snapshot(depth: nat) returns (s: BookSnapshot)
      ensures s == BookSnapshot(instrumentId, Levels(bids, depth), Levels(asks, depth), lastTradePrice)
    {
      var b := LevelsOf(bids, depth);
      var a := LevelsOf(asks, depth);
      s := BookSnapshot(instrumentId, b, a, lastTradePrice);
    }
  }
}
