/** The venue's ledger of signed orders: placing them in the book, joining prints back to the two
    signatures that authorised them, and pruning the expired. Each method is proved equal to a
    function on the venue as a value; what those functions keep is proved apart. */
module SignedLedger {
  import opened Wrappers
  import opened SettlementCore
  import opened BookProperties
  import Book = OrderBook

  datatype SignedFill = SignedFill(buy: SignedOrder, sell: SignedOrder, qty: int, execPrice: int)

  datatype Ctx = Ctx(cfg: Book.Config, crypto: Crypto)

  /** One instrument's book, the live signed orders by digest, how much of each has filled, and
      every signed fill ever queued for settlement. */
  datatype Venue = Venue(
    book: Book.BookState,
    orders: map<Hash, SignedOrder>,
    filled: map<Hash, int>,
    outbox: seq<SignedFill>)
  {
    function Filled(d: Hash): int {
      if d in filled then filled[d] else 0
    }

    function Remaining(d: Hash, o: Order): int {
      Max(o.qty - Filled(d), 0)
    }
  }

  datatype Rejection =
    | WrongInstrumentHash
    | BadSignature
    | Expired
    | BadSide
    | FullyFilled
    | BookRejects(error: Book.MatchError)

  // ------------------------------------------------------------------ pairing

  /** Join a maker and a taker into the buy and sell of a settleable fill at the maker's price. */
  function PairOrders(c: Crypto, maker: SignedOrder, taker: SignedOrder, qty: int, now: int): Option<SignedFill> {
    var execPrice := maker.order.price;
    if (taker.order.side == SIDE_BUY && maker.order.side == SIDE_SELL)
        || (taker.order.side == SIDE_SELL && maker.order.side == SIDE_BUY) then
      var (buy, sell) := if taker.order.side == SIDE_BUY then (taker, maker) else (maker, taker);
      if !c.Verifies(buy) || !c.Verifies(sell) then None
      else if ValidatePair(buy.order, sell.order, qty, execPrice, now).Some? then None
      else Some(SignedFill(buy, sell, qty, execPrice))
    else None
  }

  predicate Known(v: Venue, id: Book.OrderId) {
    id.Digest? && id.digest in v.orders
  }

  function Credit(v: Venue, d: Hash, qty: int): Venue {
    v.(filled := v.filled[d := v.Filled(d) + qty])
  }

  /** One book print: counted and queued if both parties are signed and the pair settles. */
  function PairFill(ctx: Ctx, v: Venue, f: Book.Fill, now: int): Venue {
    if !Known(v, f.makerId) || !Known(v, f.takerId) then v
    else
      match PairOrders(ctx.crypto, v.orders[f.makerId.digest], v.orders[f.takerId.digest], f.qty, now)
      case None => v
      case Some(fill) =>
        Credit(Credit(v, f.makerId.digest, f.qty), f.takerId.digest, f.qty).(outbox := v.outbox + [fill])
  }

  function PairFills(ctx: Ctx, v: Venue, fills: seq<Book.Fill>, now: int): Venue
    decreases |fills|
  {
    if fills == [] then v else PairFills(ctx, PairFill(ctx, v, fills[0], now), fills[1..], now)
  }

  lemma PairsNext(ctx: Ctx, v: Venue, fills: seq<Book.Fill>, i: nat, now: int)
    requires i < |fills|
    ensures PairFills(ctx, v, fills[i..], now) == PairFills(ctx, PairFill(ctx, v, fills[i], now), fills[i+1..], now)
  {
    assert fills[i..][0] == fills[i] && fills[i..][1..] == fills[i+1..];
  }

  lemma PairsNone(ctx: Ctx, v: Venue, now: int)
    ensures PairFills(ctx, v, [], now) == v
  {
  }

  // ------------------------------------------------------------------ pruning

  function DropIds(book: seq<Book.Order>, ids: set<Hash>): seq<Book.Order> {
    if book == [] then []
    else if book[0].id.Digest? && book[0].id.digest in ids then DropIds(book[1..], ids)
    else [book[0]] + DropIds(book[1..], ids)
  }

  function ExpiredBy(v: Venue, now: int): set<Hash> {
    set d | d in v.orders && v.orders[d].order.expiry < now
  }

  function Prune(v: Venue, now: int): Venue {
    var gone := ExpiredBy(v, now);
    v.(book := v.book.(bids := DropIds(v.book.bids, gone), asks := DropIds(v.book.asks, gone)),
       orders := v.orders - gone, filled := v.filled - gone)
  }

  // ------------------------------------------------------------------ placing

  /** The two's-complement reading of an unsigned word. */
  function AsI64(x: int): int {
    if x <= I64_MAX then x else x - (U64_MAX + 1)
  }

  function BookOrderOf(ctx: Ctx, d: Hash, o: Order, remaining: int, ts: int): Book.Order {
    Book.Order(Book.Digest(d), ctx.cfg.instrument, if o.side == SIDE_BUY then Buy else Sell,
               AsI64(o.price), AsI64(remaining), o.trader, ts)
  }

  function PlaceSigned(ctx: Ctx, v: Venue, so: SignedOrder, now: int, ts: int)
    : (Venue, Result<Book.PlaceOutcome, Rejection>)
  {
    var o := so.order;
    if o.instrument != ctx.crypto.instrumentHash(ctx.cfg.instrument) then (v, Failure(WrongInstrumentHash))
    else if !ctx.crypto.Verifies(so) then (v, Failure(BadSignature))
    else if o.expiry < now then (v, Failure(Expired))
    else if o.side != SIDE_BUY && o.side != SIDE_SELL then (v, Failure(BadSide))
    else
      var d := ctx.crypto.orderDigest(o);
      var pruned := Prune(v, now);
      var incoming := BookOrderOf(ctx, d, o, pruned.Remaining(d, o), ts);
      if incoming.qty == 0 then (pruned, Failure(FullyFilled))
      else
        var (book, placed) := Book.PlaceIn(ctx.cfg, pruned.book, incoming);
        match placed
        case Failure(e) => (pruned.(book := book), Failure(BookRejects(e)))
        case Success(outcome) =>
          (PairFills(ctx, pruned.(book := book, orders := pruned.orders[d := so]), outcome.fills, now),
           Success(outcome))
  }

  // ------------------------------------------------------------------ pruning cancels one order at a time

  lemma {:induction false} DropAbsent(book: seq<Book.Order>, ids: set<Hash>)
    requires forall i :: 0 <= i < |book| ==> !(book[i].id.Digest? && book[i].id.digest in ids)
    ensures DropIds(book, ids) == book
  {
    if book != [] { DropAbsent(book[1..], ids); }
  }

  lemma {:induction false} RemoveIsDrop(book: seq<Book.Order>, d: Hash)
    requires UniqueIds(book)
    ensures Book.RemoveId(book, Book.Digest(d)) == DropIds(book, {d})
  {
    if book != [] {
      UniqueTail(book);
      if book[0].id == Book.Digest(d) { DropAbsent(book[1..], {d}); } else { RemoveIsDrop(book[1..], d); }
    }
  }

  lemma {:induction false} DropTwice(book: seq<Book.Order>, a: set<Hash>, b: set<Hash>)
    ensures DropIds(DropIds(book, a), b) == DropIds(book, a + b)
  {
    if book != [] {
      DropTwice(book[1..], a, b);
      assert !(book[0].id.Digest? && book[0].id.digest in a) ==> DropIds(book, a)[1..] == DropIds(book[1..], a);
    }
  }

  function DropFrom(b: Book.BookState, ids: set<Hash>): Book.BookState {
    b.(bids := DropIds(b.bids, ids), asks := DropIds(b.asks, ids))
  }

  /** Cancelling one more expired order extends the dropped set by it. */
  lemma CancelDrops(cfg: Book.Config, b: Book.BookState, gone: set<Hash>, d: Hash)
    requires BookInv(cfg, DropFrom(b, gone))
    ensures Book.CancelIn(DropFrom(b, gone), Book.Digest(d)).0 == DropFrom(b, gone + {d})
    ensures BookInv(cfg, DropFrom(b, gone + {d}))
  {
    var now := DropFrom(b, gone);
    CancelKeepsInvariant(cfg, now, Book.Digest(d));
    DropTwice(b.bids, gone, {d});
    DropTwice(b.asks, gone, {d});
    if Book.HasId(now.bids, Book.Digest(d)) {
      RemoveIsDrop(now.bids, d);
      assert !Book.HasId(now.asks, Book.Digest(d));
      DropAbsent(now.asks, {d});
    } else {
      DropAbsent(now.bids, {d});
      if Book.HasId(now.asks, Book.Digest(d)) { RemoveIsDrop(now.asks, d); } else { DropAbsent(now.asks, {d}); }
    }
  }

  lemma BookIsFor(cfg: Book.Config, b: Book.BookState)
    requires BookInv(cfg, b)
    ensures Book.AllFor(cfg.instrument, b.bids) && Book.AllFor(cfg.instrument, b.asks)
  {
  }

  // ------------------------------------------------------------------ the venue object

  class SignedVenue {
    const book: Book.NativeBook
    const crypto: Crypto
    var orders: map<Hash, SignedOrder>
    var filled: map<Hash, int>
    var outbox: seq<SignedFill>

    function State(): Venue
      reads this, book
    {
      Venue(book.State(), orders, filled, outbox)
    }

    function Context(): Ctx {
      Ctx(book.Cfg(), crypto)
    }

    constructor (b: Book.NativeBook, c: Crypto)
      ensures book == b && crypto == c
      ensures orders == map[] && filled == map[] && outbox == []
    {
      book, crypto := b, c;
      orders, filled, outbox := map[], map[], [];
    }

    method PruneExpired(now: int)
      requires BookInv(book.Cfg(), book.State())
      modifies this`orders, this`filled, book
      ensures State() == Prune(old(State()), now)
      ensures BookInv(book.Cfg(), book.State())
    {
      var todo := set d | d in orders && orders[d].order.expiry < now;
      ghost var all, gone, listed := todo, {}, book.State();
      DropNone(listed);
      while todo != {}
        invariant gone + todo == all
        invariant orders == old(orders) - gone && filled == old(filled) - gone
        invariant book.State() == DropFrom(listed, gone) && BookInv(book.Cfg(), DropFrom(listed, gone))
        decreases |todo|
      {
        var d :| d in todo;
        CancelDrops(book.Cfg(), listed, gone, d);
        var found := book.Cancel(Book.Digest(d));
        MinusOneMore(old(orders), gone, d);
        MinusOneMore(old(filled), gone, d);
        OneFewer(gone, todo, all, d);
        orders := orders - {d};
        filled := filled - {d};
        gone, todo := gone + {d}, todo - {d};
      }
      assert gone == all;
      DropExpired(Venue(listed, old(orders), old(filled), outbox), now, all);
    }

    method PairBookFills(fills: seq<Book.Fill>, now: int) returns (paired: nat)
      modifies this`filled, this`outbox
      ensures State() == PairFills(Context(), old(State()), fills, now)
      ensures paired == |outbox| - |old(outbox)|
    {
      hide PairFills, PairOrders;
      paired := 0;
      var i := 0;
      ghost var whole := PairFills(Context(), State(), fills, now);
      assert fills[0..] == fills;
      while i < |fills|
        invariant i <= |fills|
        invariant orders == old(orders) && book.State() == old(book.State())
        invariant PairFills(Context(), State(), fills[i..], now) == whole
        invariant paired == |outbox| - |old(outbox)|
      {
        var f := fills[i];
        PairsNext(Context(), State(), fills, i, now);
        i := i + 1;
        if !(f.makerId.Digest? && f.makerId.digest in orders) || !(f.takerId.Digest? && f.takerId.digest in orders) {
          continue;
        }
        var maker, taker := f.makerId.digest, f.takerId.digest;
        var pair := PairOrders(crypto, orders[maker], orders[taker], f.qty, now);
        if pair.Some? {
          filled := filled[maker := (if maker in filled then filled[maker] else 0) + f.qty];
          filled := filled[taker := (if taker in filled then filled[taker] else 0) + f.qty];
          outbox := outbox + [pair.value];
          paired := paired + 1;
        }
      }
      assert fills[i..] == [];
      PairsNone(Context(), State(), now);
    }

    method Place(so: SignedOrder, now: int, ts: int) returns (r: Result<Book.PlaceOutcome, Rejection>)
      requires BookInv(book.Cfg(), book.State())
      modifies this, book
      ensures (State(), r) == PlaceSigned(Context(), old(State()), so, now, ts)
    {
      hide Prune, PairFills, Book.PlaceIn, BookInv, AsI64;
      var o := so.order;
      if o.instrument != crypto.instrumentHash(book.instrumentId) {
        return Failure(WrongInstrumentHash);
      }
      if !crypto.Verifies(so) {
        return Failure(BadSignature);
      }
      if o.expiry < now {
        return Failure(Expired);
      }
      if o.side != SIDE_BUY && o.side != SIDE_SELL {
        return Failure(BadSide);
      }
      var d := crypto.orderDigest(o);
      PruneExpired(now);
      BookIsFor(book.Cfg(), book.State());
      ghost var pruned := State();
      var remaining := Max(o.qty - (if d in filled then filled[d] else 0), 0);
      var incoming := BookOrderOf(Context(), d, o, remaining, ts);
      if incoming.qty == 0 {
        return Failure(FullyFilled);
      }
      var placed := book.Place(incoming);
      if placed.Failure? {
        return Failure(BookRejects(placed.error));
      }
      orders := orders[d := so];
      assert State() == pruned.(book := book.State(), orders := pruned.orders[d := so]);
      var paired := PairBookFills(placed.value.fills, now);
      return Success(placed.value);
    }
  }

  lemma MinusOneMore<T>(m: map<Hash, T>, gone: set<Hash>, d: Hash)
    ensures (m - gone) - {d} == m - (gone + {d})
  {
  }

  lemma OneFewer(gone: set<Hash>, todo: set<Hash>, all: set<Hash>, d: Hash)
    requires gone + todo == all && d in todo
    ensures (gone + {d}) + (todo - {d}) == all
  {
  }

  lemma DropExpired(v: Venue, now: int, gone: set<Hash>)
    requires gone == ExpiredBy(v, now)
    ensures Prune(v, now) == v.(book := DropFrom(v.book, gone), orders := v.orders - gone, filled := v.filled - gone)
  {
  }

  lemma DropNone(b: Book.BookState)
    ensures DropFrom(b, {}) == b
  {
    DropAbsent(b.bids, {});
    DropAbsent(b.asks, {});
  }
}
