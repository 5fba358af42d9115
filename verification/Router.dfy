/** The smart order router: walk the merged ladder best-first and split one order across venues, and
    why no other split is better. */
module Router {
  import opened Wrappers

  datatype Level = Level(operator: nat, price: int, qty: int)
  datatype Leg = Leg(operator: nat, price: int, qty: int)

  datatype AggBook = AggBook(bids: seq<Level>, asks: seq<Level>)

  datatype Route = Route(
    side: Side,
    requested: int,
    filled: int,
    legs: seq<Leg>,
    avgPrice: int,
    notionalMicro: int,
    partial: bool)

  const HALF: int := 500_000
  const MICRO: int := 1_000_000

  /** Notional of one leg, rounded half up; prices and quantities are never negative here, so the
      truncating division is the flooring one. */
  function LegNotionalMicro(price: int, qty: int): int {
    (price * qty + HALF) / MICRO
  }

  predicate WorseThanLimit(side: Side, price: int, limit: Option<int>) {
    limit.Some? && if side.Buy? then price > limit.value else price < limit.value
  }

  function Requested(qty: real): int {
    Max(0, qty.Floor)
  }

  /** What the walk takes from each level: nothing past the limit, otherwise as much as is wanted
      and offered. */
  function Takes(ladder: seq<Level>, side: Side, limit: Option<int>, wanted: int): (t: seq<int>)
    ensures |t| == |ladder|
    decreases |ladder|
  {
    if ladder == [] then []
    else if wanted <= 0 || WorseThanLimit(side, ladder[0].price, limit) then seq(|ladder|, i => 0)
    else
      var take := Max(0, Min(wanted, ladder[0].qty));
      [take] + Takes(ladder[1..], side, limit, wanted - take)
  }

  // ------------------------------------------------------------------ totals

  function Sum(xs: seq<int>): int {
    if xs == [] then 0 else xs[0] + Sum(xs[1..])
  }

  /** Price times quantity of an allocation over a ladder. */
  function Gross(ladder: seq<Level>, x: seq<int>): int
    requires |x| == |ladder|
  {
    if ladder == [] then 0 else ladder[0].price * x[0] + Gross(ladder[1..], x[1..])
  }

  function LegQty(legs: seq<Leg>): int {
    if legs == [] then 0 else LegQty(legs[..|legs| - 1]) + legs[|legs| - 1].qty
  }

  function LegGross(legs: seq<Leg>): int {
    if legs == [] then 0 else LegGross(legs[..|legs| - 1]) + legs[|legs| - 1].price * legs[|legs| - 1].qty
  }

  function LegNotional(legs: seq<Leg>): int {
    if legs == [] then 0
    else LegNotional(legs[..|legs| - 1]) + LegNotionalMicro(legs[|legs| - 1].price, legs[|legs| - 1].qty)
  }

  // ------------------------------------------------------------------ coalescing

  /** Append a take, merging it into the last leg at the same venue and price. */
  function AddLeg(legs: seq<Leg>, level: Level, take: int): seq<Leg> {
    if legs != [] && legs[|legs| - 1].operator == level.operator && legs[|legs| - 1].price == level.price then
      legs[|legs| - 1 := legs[|legs| - 1].(qty := legs[|legs| - 1].qty + take)]
    else
      legs + [Leg(level.operator, level.price, take)]
  }

  function Legs(ladder: seq<Level>, x: seq<int>, before: seq<Leg>): seq<Leg>
    requires |x| == |ladder|
    decreases |ladder|
  {
    if ladder == [] then before
    else Legs(ladder[1..], x[1..], if x[0] > 0 then AddLeg(before, ladder[0], x[0]) else before)
  }

  lemma AddLegTotals(legs: seq<Leg>, level: Level, take: int)
    ensures LegQty(AddLeg(legs, level, take)) == LegQty(legs) + take
    ensures LegGross(AddLeg(legs, level, take)) == LegGross(legs) + level.price * take
  {
    var more := AddLeg(legs, level, take);
    if legs != [] {
      var n := |legs| - 1;
      assert legs[n].operator == level.operator && legs[n].price == level.price ==> more[..n] == legs[..n];
      assert level.price * (legs[n].qty + take) == level.price * legs[n].qty + level.price * take;
    }
    assert |more| == |legs| + 1 ==> more[..|legs|] == legs;
  }

  /** Coalescing loses nothing: the legs carry the allocation's quantity and gross. */
  lemma {:induction false} LegsTotals(ladder: seq<Level>, x: seq<int>, before: seq<Leg>)
    requires |x| == |ladder| && forall i :: 0 <= i < |x| ==> x[i] >= 0
    ensures LegQty(Legs(ladder, x, before)) == LegQty(before) + Sum(x)
    ensures LegGross(Legs(ladder, x, before)) == LegGross(before) + Gross(ladder, x)
    decreases |ladder|
  {
    if ladder != [] {
      AddLegTotals(before, ladder[0], x[0]);
      LegsTotals(ladder[1..], x[1..], if x[0] > 0 then AddLeg(before, ladder[0], x[0]) else before);
    }
  }

  /** What the legs take from one operator at one price. */
  function LegsAt(legs: seq<Leg>, operator: nat, price: int): int {
    if legs == [] then 0
    else
      var leg := legs[|legs| - 1];
      LegsAt(legs[..|legs| - 1], operator, price)
      + (if leg.operator == operator && leg.price == price then leg.qty else 0)
  }

  /** What an allocation takes from the levels of one operator at one price. */
  function TakenAt(ladder: seq<Level>, x: seq<int>, operator: nat, price: int): int
    requires |x| == |ladder|
  {
    if ladder == [] then 0
    else (if ladder[0].operator == operator && ladder[0].price == price then x[0] else 0)
         + TakenAt(ladder[1..], x[1..], operator, price)
  }

  /** What one operator offers at one price. */
  function OfferedAt(ladder: seq<Level>, operator: nat, price: int): int {
    if ladder == [] then 0
    else (if ladder[0].operator == operator && ladder[0].price == price then Max(0, ladder[0].qty) else 0)
         + OfferedAt(ladder[1..], operator, price)
  }

  lemma AddLegAt(legs: seq<Leg>, level: Level, take: int, operator: nat, price: int)
    ensures LegsAt(AddLeg(legs, level, take), operator, price)
        == LegsAt(legs, operator, price) + (if level.operator == operator && level.price == price then take else 0)
  {
    var more := AddLeg(legs, level, take);
    if legs != [] {
      var n := |legs| - 1;
      assert legs[n].operator == level.operator && legs[n].price == level.price ==> more[..n] == legs[..n];
    }
    assert |more| == |legs| + 1 ==> more[..|legs|] == legs;
  }

  /** Every leg goes where its quantity was taken from: per operator and price the legs carry exactly the
      allocation. */
  lemma {:induction false} LegsByVenue(ladder: seq<Level>, x: seq<int>, before: seq<Leg>, operator: nat, price: int)
    requires |x| == |ladder| && forall i :: 0 <= i < |x| ==> x[i] >= 0
    ensures LegsAt(Legs(ladder, x, before), operator, price)
        == LegsAt(before, operator, price) + TakenAt(ladder, x, operator, price)
    decreases |ladder|
  {
    if ladder != [] {
      AddLegAt(before, ladder[0], x[0], operator, price);
      LegsByVenue(ladder[1..], x[1..], if x[0] > 0 then AddLeg(before, ladder[0], x[0]) else before, operator, price);
    }
  }

  /** No two legs in a row are at the same operator and price. */
  ghost predicate Coalesced(legs: seq<Leg>) {
    forall i :: 0 < i < |legs| ==> legs[i-1].operator != legs[i].operator || legs[i-1].price != legs[i].price
  }

  lemma {:induction false} LegsCoalesced(ladder: seq<Level>, x: seq<int>, before: seq<Leg>)
    requires |x| == |ladder| && Coalesced(before)
    ensures Coalesced(Legs(ladder, x, before))
    decreases |ladder|
  {
    if ladder != [] {
      LegsCoalesced(ladder[1..], x[1..], if x[0] > 0 then AddLeg(before, ladder[0], x[0]) else before);
    }
  }

  /** Rounding per leg moves the total notional by at most half a unit per leg. */
  lemma {:induction false} NotionalRounds(legs: seq<Leg>)
    ensures -HALF * |legs| <= MICRO * LegNotional(legs) - LegGross(legs) <= HALF * |legs|
  {
    if legs != [] {
      NotionalRounds(legs[..|legs| - 1]);
    }
  }

  // ------------------------------------------------------------------ optimality

  predicate Eligible(level: Level, side: Side, limit: Option<int>) {
    && level.qty > 0
    && (limit.Some? ==> if side.Buy? then level.price <= limit.value else level.price >= limit.value)
  }

  ghost predicate SortedLadder(ladder: seq<Level>, side: Side) {
    forall i, j :: 0 <= i < j < |ladder| ==>
        if side.Buy? then ladder[i].price <= ladder[j].price else ladder[i].price >= ladder[j].price
  }

  /** A split of the order over eligible levels, within what each offers. */
  ghost predicate Allocation(ladder: seq<Level>, side: Side, limit: Option<int>, x: seq<int>) {
    && |x| == |ladder|
    && forall i :: 0 <= i < |x| ==>
         0 <= x[i] && (x[i] > 0 ==> Eligible(ladder[i], side, limit) && x[i] <= ladder[i].qty)
  }

  /** Quantity offered within the limit. */
  function Depth(ladder: seq<Level>, side: Side, limit: Option<int>): int {
    if ladder == [] then 0
    else (if Eligible(ladder[0], side, limit) then ladder[0].qty else 0) + Depth(ladder[1..], side, limit)
  }

  lemma SortedTail(ladder: seq<Level>, side: Side)
    requires SortedLadder(ladder, side) && ladder != []
    ensures SortedLadder(ladder[1..], side)
    ensures forall i :: 0 <= i < |ladder[1..]| ==>
        if side.Buy? then ladder[0].price <= ladder[1..][i].price else ladder[0].price >= ladder[1..][i].price
  {
    assert forall i :: 0 <= i < |ladder[1..]| ==> ladder[1..][i] == ladder[i+1];
  }

  lemma {:induction false} NoDepth(ladder: seq<Level>, side: Side, limit: Option<int>)
    requires SortedLadder(ladder, side) && ladder != [] && WorseThanLimit(side, ladder[0].price, limit)
    ensures Depth(ladder, side, limit) == 0
  {
    SortedTail(ladder, side);
    if |ladder| > 1 { NoDepth(ladder[1..], side, limit); }
  }

  lemma {:induction false} ZeroSum(n: nat)
    ensures Sum(seq(n, i => 0)) == 0
  {
    if n > 0 {
      assert seq(n, i => 0)[1..] == seq(n - 1, i => 0);
      ZeroSum(n - 1);
    }
  }

  /** The walk is a split over eligible levels. */
  lemma {:induction false} TakesAllocate(ladder: seq<Level>, side: Side, limit: Option<int>, wanted: int)
    requires wanted >= 0
    ensures Allocation(ladder, side, limit, Takes(ladder, side, limit, wanted))
    decreases |ladder|
  {
    if ladder != [] && wanted > 0 && !WorseThanLimit(side, ladder[0].price, limit) {
      TakesAllocate(ladder[1..], side, limit, wanted - Max(0, Min(wanted, ladder[0].qty)));
    }
  }

  /** The walk fills min(wanted, depth within the limit). */
  lemma {:induction false} TakesFill(ladder: seq<Level>, side: Side, limit: Option<int>, wanted: int)
    requires SortedLadder(ladder, side) && wanted >= 0
    ensures Sum(Takes(ladder, side, limit, wanted)) == Min(wanted, Depth(ladder, side, limit))
    ensures Depth(ladder, side, limit) >= 0
    decreases |ladder|
  {
    if ladder != [] {
      SortedTail(ladder, side);
      if WorseThanLimit(side, ladder[0].price, limit) {
        NoDepth(ladder, side, limit);
        ZeroSum(|ladder|);
      } else {
        var take := Max(0, Min(wanted, ladder[0].qty));
        TakesFill(ladder[1..], side, limit, wanted - take);
        if wanted <= 0 {
          ZeroSum(|ladder|);
        } else {
          var rest := Takes(ladder[1..], side, limit, wanted - take);
          assert Takes(ladder, side, limit, wanted)[1..] == rest;
        }
      }
    }
  }

  /** Gross of an allocation measured from a reference price. */
  function Offset(ladder: seq<Level>, x: seq<int>, price: int): int
    requires |x| == |ladder|
  {
    Gross(ladder, x) - price * Sum(x)
  }

  lemma OffsetStep(ladder: seq<Level>, x: seq<int>, price: int)
    requires |x| == |ladder| > 0
    ensures Offset(ladder, x, price) == (ladder[0].price - price) * x[0] + Offset(ladder[1..], x[1..], price)
  {
    assert price * Sum(x) == price * x[0] + price * Sum(x[1..]);
    assert (ladder[0].price - price) * x[0] == ladder[0].price * x[0] - price * x[0];
  }

  lemma {:induction false} OffsetSign(ladder: seq<Level>, x: seq<int>, side: Side, price: int)
    requires |x| == |ladder| && forall i :: 0 <= i < |x| ==> x[i] >= 0
    requires forall i :: 0 <= i < |ladder| ==> if side.Buy? then ladder[i].price >= price else ladder[i].price <= price
    ensures if side.Buy? then Offset(ladder, x, price) >= 0 else Offset(ladder, x, price) <= 0
  {
    if ladder != [] {
      OffsetStep(ladder, x, price);
      OffsetSign(ladder[1..], x[1..], side, price);
    }
  }

  lemma {:induction false} OffsetZero(ladder: seq<Level>, price: int)
    ensures Offset(ladder, seq(|ladder|, i => 0), price) == 0
  {
    if ladder != [] {
      var zeros := seq(|ladder|, i => 0);
      assert zeros[1..] == seq(|ladder[1..]|, i => 0);
      OffsetStep(ladder, zeros, price);
      OffsetZero(ladder[1..], price);
    }
  }

  predicate NoBetter(side: Side, a: int, b: int) {
    if side.Buy? then a <= b else a >= b
  }

  lemma TermNoBetter(side: Side, price: int, p: int, take: int, x0: int, rest: int, other: int)
    requires NoBetter(side, price, p) && x0 <= take && NoBetter(side, rest, other)
    ensures NoBetter(side, (price - p) * take + rest, (price - p) * x0 + other)
  {
    assert (price - p) * take == (price - p) * x0 + (price - p) * (take - x0);
    assert (price - p) * (take - x0) == -((p - price) * (take - x0));
  }

  lemma {:induction false} TakesNothing(ladder: seq<Level>, side: Side, limit: Option<int>, wanted: int, p: int)
    requires wanted <= 0 || ladder == [] || WorseThanLimit(side, ladder[0].price, limit)
    ensures Offset(ladder, Takes(ladder, side, limit, wanted), p) == 0
  {
    OffsetZero(ladder, p);
    if ladder == [] { assert Takes(ladder, side, limit, wanted) == seq(|ladder|, i => 0); }
  }

  lemma TakesStep(ladder: seq<Level>, side: Side, limit: Option<int>, wanted: int) returns (take: int)
    requires ladder != [] && wanted > 0 && !WorseThanLimit(side, ladder[0].price, limit)
    ensures take == Max(0, Min(wanted, ladder[0].qty))
    ensures Takes(ladder, side, limit, wanted)[0] == take
    ensures Takes(ladder, side, limit, wanted)[1..] == Takes(ladder[1..], side, limit, wanted - take)
  {
    take := Max(0, Min(wanted, ladder[0].qty));
  }

  lemma SortedFromHead(ladder: seq<Level>, side: Side, limit: Option<int>, x: seq<int>)
    requires SortedLadder(ladder, side) && ladder != [] && Allocation(ladder, side, limit, x)
    ensures NoBetter(side, 0, Offset(ladder, x, ladder[0].price))
  {
    OffsetSign(ladder, x, side, ladder[0].price);
  }

  /** The marginal price: measured from it, the walk is at least as good as any allocation. */
  lemma {:induction false} MarginalPrice(ladder: seq<Level>, side: Side, limit: Option<int>, wanted: int, x: seq<int>)
    returns (p: int)
    requires SortedLadder(ladder, side) && wanted >= 0 && Allocation(ladder, side, limit, x)
    ensures ladder != [] ==> NoBetter(side, ladder[0].price, p)
    ensures NoBetter(side, Offset(ladder, Takes(ladder, side, limit, wanted), p), Offset(ladder, x, p))
    decreases |ladder|
  {
    hide Offset, Sum, Gross, SortedLadder;
    if ladder == [] {
      p := 0;
      assert x == Takes(ladder, side, limit, wanted);
    } else {
      p := ladder[0].price;
      SortedFromHead(ladder, side, limit, x);
      if wanted == 0 || WorseThanLimit(side, p, limit) {
        TakesNothing(ladder, side, limit, wanted, p);
      } else {
        var take := TakesStep(ladder, side, limit, wanted);
        var g, tail := Takes(ladder, side, limit, wanted), Takes(ladder[1..], side, limit, wanted - take);
        if wanted < ladder[0].qty {
          TakesNothing(ladder[1..], side, limit, 0, p);
          OffsetStep(ladder, g, p);
        } else {
          SortedTail(ladder, side);
          var q := MarginalPrice(ladder[1..], side, limit, wanted - take, x[1..]);
          if |ladder| > 1 { p := q; }
          OffsetStep(ladder, g, p);
          OffsetStep(ladder, x, p);
          TermNoBetter(side, ladder[0].price, p, take, x[0], Offset(ladder[1..], tail, p),
                       Offset(ladder[1..], x[1..], p));
        }
      }
    }
  }

  /** Greedy is optimal: no split of the same total over eligible levels is cheaper to buy, or
      fetches more to sell, than the walk's. */
  lemma GreedyIsOptimal(ladder: seq<Level>, side: Side, limit: Option<int>, wanted: int, x: seq<int>)
    requires SortedLadder(ladder, side) && wanted >= 0 && Allocation(ladder, side, limit, x)
    requires Sum(x) == Sum(Takes(ladder, side, limit, wanted))
    ensures NoBetter(side, Gross(ladder, Takes(ladder, side, limit, wanted)), Gross(ladder, x))
  {
    var p := MarginalPrice(ladder, side, limit, wanted, x);
  }

  // ------------------------------------------------------------------ the router

  /** The route the program returns, from the legs and what is left of the request. */
  function RouteOf(side: Side, requested: int, remaining: int, legs: seq<Leg>): Route {
    var filled := requested - remaining;
    Route(side, requested, filled, legs, if filled > 0 then LegGross(legs) / filled else 0,
          LegNotional(legs), filled < requested)
  }

  /** One turn of the walk: what it takes from the head, and where that leaves legs and total. */
  lemma WalkStep(ladder: seq<Level>, side: Side, limit: Option<int>, wanted: int, legs: seq<Leg>)
    requires ladder != [] && wanted > 0 && !WorseThanLimit(side, ladder[0].price, limit)
    ensures var take, x := Max(0, Min(wanted, ladder[0].qty)), Takes(ladder, side, limit, wanted);
            && x[1..] == Takes(ladder[1..], side, limit, wanted - take)
            && Legs(ladder, x, legs)
               == Legs(ladder[1..], x[1..], if take > 0 then AddLeg(legs, ladder[0], take) else legs)
            && Sum(x) == take + Sum(x[1..])
  {
    var take := TakesStep(ladder, side, limit, wanted);
  }

  lemma WalkEnds(legs: seq<Leg>, side: Side, limit: Option<int>, wanted: int)
    ensures Takes([], side, limit, wanted) == [] && Legs([], [], legs) == legs && Sum([]) == 0
  {
  }

  method PlanRoute(book: AggBook, side: Side, qty: real, limit: Option<int>) returns (route: Route)
    ensures var ladder := if side.Buy? then book.asks else book.bids;
            var x := Takes(ladder, side, limit, Requested(qty));
            route == RouteOf(side, Requested(qty), Requested(qty) - Sum(x), Legs(ladder, x, []))
  {
    hide Takes, Legs, Sum, RouteOf;
    var ladder := if side.Buy? then book.asks else book.bids;
    var legs: seq<Leg> := [];
    var remaining := Requested(qty);
    ghost var x := Takes(ladder, side, limit, remaining);
    ghost var rest := x;
    var i := 0;
    assert ladder[i..] == ladder;
    while i < |ladder|
      invariant i <= |ladder| && |rest| == |ladder| - i
      invariant rest == Takes(ladder[i..], side, limit, remaining)
      invariant Legs(ladder[i..], rest, legs) == Legs(ladder, x, [])
      invariant remaining - Sum(rest) == Requested(qty) - Sum(x)
    {
      var level := ladder[i];
      assert ladder[i..][0] == level && ladder[i..][1..] == ladder[i+1..];
      if remaining <= 0 || WorseThanLimit(side, level.price, limit) {
        StoppedWalk(ladder[i..], side, limit, remaining, legs);
        route := RouteOf(side, Requested(qty), remaining, legs);
        return;
      }
      WalkStep(ladder[i..], side, limit, remaining, legs);
      var take := Min(remaining, level.qty);
      i := i + 1;
      rest := rest[1..];
      if take <= 0 {
        continue;
      }
      if legs != [] && legs[|legs| - 1].operator == level.operator && legs[|legs| - 1].price == level.price {
        legs := legs[|legs| - 1 := legs[|legs| - 1].(qty := legs[|legs| - 1].qty + take)];
      } else {
        legs := legs + [Leg(level.operator, level.price, take)];
      }
      remaining := remaining - take;
    }
    assert ladder[i..] == [];
    WalkEnds(legs, side, limit, remaining);
    route := RouteOf(side, Requested(qty), remaining, legs);
  }

  lemma StoppedWalk(ladder: seq<Level>, side: Side, limit: Option<int>, wanted: int, legs: seq<Leg>)
    requires ladder != [] && (wanted <= 0 || WorseThanLimit(side, ladder[0].price, limit))
    ensures var x := Takes(ladder, side, limit, wanted); Sum(x) == 0 && Legs(ladder, x, legs) == legs
  {
    NothingTaken(ladder, legs);
  }

  lemma {:induction false} NothingTaken(ladder: seq<Level>, legs: seq<Leg>)
    ensures Sum(seq(|ladder|, i => 0)) == 0
    ensures Legs(ladder, seq(|ladder|, i => 0), legs) == legs
  {
    ZeroSum(|ladder|);
    if ladder != [] {
      assert seq(|ladder|, i => 0)[1..] == seq(|ladder[1..]|, i => 0);
      NothingTaken(ladder[1..], legs);
    }
  }

  lemma {:induction false} TakenWithinOffer(ladder: seq<Level>, side: Side, limit: Option<int>, x: seq<int>,
                                            operator: nat, price: int)
    requires Allocation(ladder, side, limit, x)
    ensures TakenAt(ladder, x, operator, price) <= OfferedAt(ladder, operator, price)
  {
    if ladder != [] {
      assert forall i :: 0 <= i < |x[1..]| ==> x[1..][i] == x[i+1] && ladder[1..][i] == ladder[i+1];
      TakenWithinOffer(ladder[1..], side, limit, x[1..], operator, price);
    }
  }

  /** No leg asks more of an operator than it offers: per operator and price a route takes exactly what the
      walk took there, within what is offered there. And there is one leg per such stretch. */
  lemma PlanStaysOnOffer(ladder: seq<Level>, side: Side, qty: real, limit: Option<int>, operator: nat, price: int)
    ensures var x := Takes(ladder, side, limit, Requested(qty));
            var legs := Legs(ladder, x, []);
            && LegsAt(legs, operator, price) == TakenAt(ladder, x, operator, price)
            && TakenAt(ladder, x, operator, price) <= OfferedAt(ladder, operator, price)
            && Coalesced(legs)
  {
    var x := Takes(ladder, side, limit, Requested(qty));
    TakesAllocate(ladder, side, limit, Requested(qty));
    LegsByVenue(ladder, x, [], operator, price);
    TakenWithinOffer(ladder, side, limit, x, operator, price);
    LegsCoalesced(ladder, x, []);
  }

  /** The stated average is that of the unrounded gross, rounded down. */
  lemma AverageRoundsDown(side: Side, requested: int, remaining: int, legs: seq<Leg>)
    ensures var route := RouteOf(side, requested, remaining, legs);
            && (route.filled > 0 ==>
                  route.avgPrice * route.filled <= LegGross(route.legs) < (route.avgPrice + 1) * route.filled)
            && (route.filled <= 0 ==> route.avgPrice == 0)
  {
  }

  /** A plan on a sorted ladder: fills min(requested, depth within the limit), carries exactly that
      quantity and gross in its legs, cannot be bettered by any split of the same size, and states
      a notional within half a unit per leg. */
  lemma PlanIsBest(ladder: seq<Level>, side: Side, qty: real, limit: Option<int>, x: seq<int>)
    requires SortedLadder(ladder, side) && Allocation(ladder, side, limit, x)
    requires Sum(x) == Sum(Takes(ladder, side, limit, Requested(qty)))
    ensures var g := Takes(ladder, side, limit, Requested(qty));
            var route := RouteOf(side, Requested(qty), Requested(qty) - Sum(g), Legs(ladder, g, []));
            && route.filled == LegQty(route.legs) == Min(Requested(qty), Depth(ladder, side, limit))
            && NoBetter(side, LegGross(route.legs), Gross(ladder, x))
            && -HALF * |route.legs| <= MICRO * route.notionalMicro - LegGross(route.legs) <= HALF * |route.legs|
            && (route.partial <==> Depth(ladder, side, limit) < Requested(qty))
  {
    var g := Takes(ladder, side, limit, Requested(qty));
    TakesFill(ladder, side, limit, Requested(qty));
    TakesAllocate(ladder, side, limit, Requested(qty));
    LegsTotals(ladder, g, []);
    GreedyIsOptimal(ladder, side, limit, Requested(qty), x);
    NotionalRounds(Legs(ladder, g, []));
  }
}
