/** What one more order does to the two queues of the direct crossing: crossing takes entries off the
    front, resting goes behind every price as good, and so an order ahead of another on its side is
    used up before the other prints, as long as nothing that meets it rests on the other side, and
    nothing of its own trader cancels it. */
module EpochQueues {
  import opened SettlementCore
  import opened Matcher
  import opened EpochProperties

  // ------------------------------------------------------------------ queues by side

  predicate IsBuy(o: Order) {
    o.side == SIDE_BUY
  }

  /** The queue an order rests in, and the one it trades against. */
  function Own(pool: Pool, o: Order): seq<Entry> {
    if IsBuy(o) then pool.bids else pool.asks
  }

  function Against(pool: Pool, o: Order): seq<Entry> {
    if IsBuy(o) then pool.asks else pool.bids
  }

  /** `x` is at least as good a price as `y`, to whoever trades against orders of this side. */
  predicate AsGood(buys: bool, x: int, y: int) {
    if buys then x >= y else x <= y
  }

  ghost predicate Ranked(entries: seq<Entry>, buys: bool) {
    forall i, j :: 0 <= i < j < |entries| ==> AsGood(buys, entries[i].order.price, entries[j].order.price)
  }

  /** Every entry of `a` stands ahead of every entry of `b`. */
  ghost predicate Ahead(entries: seq<Entry>, a: Order, b: Order) {
    forall i, j :: 0 <= i < |entries| && 0 <= j < |entries| && entries[i].order == a && entries[j].order == b ==> i < j
  }

  /** The taker does not cancel a resting `a` as its own. */
  predicate Spares(a: Order, taker: Order) {
    IsBuy(a) != IsBuy(taker) && a.trader == taker.trader ==> !Meets(a, taker)
  }

  /** The orders of `rest` are those of `makers` from `k` on. */
  ghost predicate Trails(rest: seq<Entry>, makers: seq<Entry>, k: nat) {
    k + |rest| == |makers| && forall i :: 0 <= i < |rest| ==> rest[i].order == makers[k + i].order
  }

  lemma TrailsFurther(rest: seq<Entry>, makers: seq<Entry>, k: nat)
    requires makers != [] && Trails(rest, makers[1..], k)
    ensures Trails(rest, makers, k + 1)
  {
    forall i | 0 <= i < |rest| ensures rest[i].order == makers[k + 1 + i].order {
      assert makers[1..][k + i] == makers[k + 1 + i];
    }
  }

  /** Crossing takes entries off the front. */
  lemma {:induction false} CrossIsSuffix(makers: seq<Entry>, taker: Order, left: int) returns (k: nat)
    ensures Trails(Cross(makers, taker, left).makers, makers, k)
    decreases |makers|
  {
    if left == 0 || makers == [] || !Meets(makers[0].order, taker) {
      k := 0;
    } else if makers[0].order.trader == taker.trader || left >= makers[0].left {
      var left' := if makers[0].order.trader == taker.trader then left else left - makers[0].left;
      k := CrossIsSuffix(makers[1..], taker, left');
      assert Cross(makers, taker, left).makers == Cross(makers[1..], taker, left').makers;
      hide Cross, Meets, Trails;
      TrailsFurther(Cross(makers[1..], taker, left').makers, makers, k);
      k := k + 1;
    } else {
      k := 0;
    }
  }

  lemma {:induction false} LeftPresent(entries: seq<Entry>, o: Order)
    requires AllLeft(entries)
    ensures LeftOf(entries, o) >= 0
    ensures LeftOf(entries, o) > 0 <==> exists i :: 0 <= i < |entries| && entries[i].order == o
  {
    if entries != [] {
      LeftPresent(entries[1..], o);
      if i :| 0 <= i < |entries| && entries[i].order == o {
        assert i > 0 ==> entries[1..][i-1].order == o;
      }
      if i :| 0 <= i < |entries[1..]| && entries[1..][i].order == o {
        assert entries[i+1].order == o;
      }
    }
  }

  /** Crossing ends with the taker done, nobody left, or a best price that does not meet. */
  lemma {:induction false} CrossStops(makers: seq<Entry>, taker: Order, left: int)
    requires left >= 0 && AllLeft(makers)
    ensures var c := Cross(makers, taker, left);
            c.left > 0 && c.makers != [] ==> !Meets(c.makers[0].order, taker)
    decreases |makers|
  {
    if left == 0 || makers == [] || !Meets(makers[0].order, taker) {
    } else if makers[0].order.trader == taker.trader {
      CrossStops(makers[1..], taker, left);
    } else if left >= makers[0].left {
      CrossStops(makers[1..], taker, left - makers[0].left);
    }
  }

  lemma CrossNothing(makers: seq<Entry>, taker: Order, left: int, o: Order)
    requires left >= 0 && AllLeft(makers) && LeftOf(makers, o) == 0 && o != taker
    ensures Named(Cross(makers, taker, left).fills, o) == 0 && LeftOf(Cross(makers, taker, left).makers, o) == 0
  {
    CrossAccounts(makers, taker, left, o);
    CrossPrintsPositive(makers, taker, left);
    NamedNonNegative(Cross(makers, taker, left).fills, o);
    LeftNonNegative(Cross(makers, taker, left).makers, o);
  }

  /** Nobody behind `a` prints while anything of `a` is left, and nothing of `a` is lost unless the
      taker cancels it. */
  lemma {:induction false} CrossTakesAheadFirst(makers: seq<Entry>, taker: Order, left: int, a: Order, b: Order)
    requires left >= 0 && AllLeft(makers) && Ahead(makers, a, b)
    requires taker != a && taker != b && a != b && (a.trader == taker.trader ==> !Meets(a, taker))
    ensures var c := Cross(makers, taker, left);
            && Named(c.fills, a) + LeftOf(c.makers, a) == LeftOf(makers, a)
            && (Named(c.fills, b) != 0 ==> LeftOf(c.makers, a) == 0)
    decreases |makers|
  {
    var c := Cross(makers, taker, left);
    if left != 0 && makers != [] && Meets(makers[0].order, taker) {
      var tail := makers[1..];
      LeftPresent(tail, a);
      assert makers[0].order == b ==> LeftOf(tail, a) == 0;
      if makers[0].order.trader == taker.trader {
        CrossTakesAheadFirst(tail, taker, left, a, b);
      } else if left >= makers[0].left {
        CrossTakesAheadFirst(tail, taker, left - makers[0].left, a, b);
        assert c.fills[1..] == Cross(tail, taker, left - makers[0].left).fills;
        if makers[0].order == b { CrossNothing(tail, taker, left - makers[0].left, a); }
      } else {
        assert c.fills[1..] == [] && c.makers[1..] == tail;
        assert makers[0].order != b ==> Named(c.fills, b) == 0;
        assert makers[0].order == b ==> LeftOf(c.makers, a) == LeftOf(tail, a);
      }
    }
  }

  // ------------------------------------------------------------------ resting

  /** A newly resting entry goes behind every entry as good and before the rest. */
  lemma {:induction false} AddIndexPlace(entries: seq<Entry>, o: Order)
    requires Ranked(entries, IsBuy(o))
    ensures var n := AddIndex(entries, o);
            && (forall i :: 0 <= i < n ==> AsGood(IsBuy(o), entries[i].order.price, o.price))
            && (forall i :: n <= i < |entries| ==> !AsGood(IsBuy(o), entries[i].order.price, o.price))
  {
    if entries != [] && AsGood(IsBuy(o), entries[0].order.price, o.price) {
      assert forall i :: 0 <= i < |entries[1..]| ==> entries[1..][i] == entries[i+1];
      AddIndexPlace(entries[1..], o);
    }
  }

  lemma AddKeeps(entries: seq<Entry>, e: Entry, a: Order, b: Order)
    requires Ranked(entries, IsBuy(e.order)) && Ahead(entries, a, b) && e.order != a
    requires e.order == b ==> AsGood(IsBuy(b), a.price, b.price)
    ensures Ranked(AddEntry(entries, e), IsBuy(e.order)) && Ahead(AddEntry(entries, e), a, b)
  {
    AddIndexPlace(entries, e.order);
  }

  // ------------------------------------------------------------------ one order at a time

  ghost predicate Good(pool: Pool) {
    PositiveLeft(pool) && Ranked(pool.bids, true) && Ranked(pool.asks, false)
  }

  /** The limits of two orders of opposite sides meet. */
  predicate Facing(a: Order, o: Order) {
    if IsBuy(a) then o.price <= a.price else o.price >= a.price
  }

  ghost predicate FacesNone(a: Order, entries: seq<Entry>) {
    forall i :: 0 <= i < |entries| ==> !Facing(a, entries[i].order)
  }

  /** While anything of `a` rests, nothing that meets it stands on the other side. */
  ghost predicate Standing(pool: Pool, a: Order, b: Order) {
    && Ahead(Own(pool, a), a, b)
    && (LeftOf(Own(pool, a), a) > 0 ==> FacesNone(a, Against(pool, a)))
  }

  /** Neither order is on the other side's queue. */
  ghost predicate Sided(pool: Pool, a: Order, b: Order) {
    LeftOf(Against(pool, a), a) == 0 && LeftOf(Against(pool, a), b) == 0
  }

  lemma CrossRanked(makers: seq<Entry>, taker: Order, left: int, buys: bool)
    requires left >= 0 && AllLeft(makers) && Ranked(makers, buys)
    ensures var c := Cross(makers, taker, left); c.left >= 0 && AllLeft(c.makers) && Ranked(c.makers, buys)
  {
    var k := CrossIsSuffix(makers, taker, left);
    CrossAccounts(makers, taker, left, taker);
  }

  lemma AddRanked(entries: seq<Entry>, e: Entry)
    requires AllLeft(entries) && Ranked(entries, IsBuy(e.order)) && e.left > 0
    ensures AllLeft(AddEntry(entries, e)) && Ranked(AddEntry(entries, e), IsBuy(e.order))
  {
    AddIndexPlace(entries, e.order);
  }

  lemma StepIsOrderly(p: Params, pool: Pool, o: Order)
    requires Good(pool)
    ensures Good(PoolStep(p, pool, o).0)
  {
    if p.Placeable(o) {
      CrossRanked(Against(pool, o), o, o.qty, !IsBuy(o));
      var left := Cross(Against(pool, o), o, o.qty).left;
      if left > 0 { AddRanked(Own(pool, o), Entry(o, left)); }
      hide Cross, AddEntry, Ranked, AllLeft;
    }
  }

  /** `a` is worth at least as much as `b` to those it trades with, and on the same side. */
  predicate NoWorse(a: Order, b: Order) {
    IsBuy(a) == IsBuy(b) && AsGood(IsBuy(a), a.price, b.price)
  }

  /** What one order after `a` does to `a` and to `b` behind it. */
  ghost predicate Respects(pool: Pool, next: Pool, fills: seq<BatchFill>, a: Order, b: Order) {
    && Named(fills, a) + LeftOf(Own(next, a), a) == LeftOf(Own(pool, a), a)
    && (Named(fills, b) != 0 ==> LeftOf(Own(next, a), a) == 0)
  }

  lemma SuffixAhead(makers: seq<Entry>, taker: Order, left: int, a: Order, b: Order)
    requires Ahead(makers, a, b)
    ensures Ahead(Cross(makers, taker, left).makers, a, b)
  {
    var k := CrossIsSuffix(makers, taker, left);
  }

  /** What a taker of the other side leaves resting does not face what is left of `a`. */
  lemma RestFacesNone(makers: seq<Entry>, taker: Order, left: int, a: Order)
    requires left >= 0 && AllLeft(makers) && Ranked(makers, IsBuy(a)) && IsBuy(a) != IsBuy(taker)
    requires Cross(makers, taker, left).left > 0 && LeftOf(Cross(makers, taker, left).makers, a) > 0
    ensures !Facing(a, taker)
  {
    var c := Cross(makers, taker, left);
    CrossRanked(makers, taker, left, IsBuy(a));
    CrossStops(makers, taker, left);
    LeftPresent(c.makers, a);
    var i :| 0 <= i < |c.makers| && c.makers[i].order == a;
    assert i > 0 ==> AsGood(IsBuy(a), c.makers[0].order.price, a.price);
  }

  lemma RestOpposed(entries: seq<Entry>, e: Entry, a: Order, b: Order)
    requires LeftOf(entries, a) == 0 && LeftOf(entries, b) == 0 && e.order != a && e.order != b
    ensures LeftOf(AddEntry(entries, e), a) == 0 && LeftOf(AddEntry(entries, e), b) == 0
    ensures FacesNone(a, entries) && !Facing(a, e.order) ==> FacesNone(a, AddEntry(entries, e))
  {
    AddLeft(entries, e, a);
    AddLeft(entries, e, b);
  }

  lemma OpposedStep(p: Params, pool: Pool, o: Order, a: Order, b: Order)
    requires Good(pool) && Standing(pool, a, b) && Sided(pool, a, b) && NoWorse(a, b) && a != b
    requires p.Placeable(o) && IsBuy(o) != IsBuy(a) && Spares(a, o)
    ensures var (next, fills) := PoolStep(p, pool, o);
            Standing(next, a, b) && Sided(next, a, b) && Respects(pool, next, fills, a, b)
  {
    var makers := Own(pool, a);
    var c := Cross(makers, o, o.qty);
    CrossTakesAheadFirst(makers, o, o.qty, a, b);
    SuffixAhead(makers, o, o.qty, a, b);
    CrossPrintsPositive(makers, o, o.qty);
    NamedNonNegative(c.fills, a);
    RestOpposed(Against(pool, a), Entry(o, c.left), a, b);
    if c.left > 0 && LeftOf(c.makers, a) > 0 { RestFacesNone(makers, o, o.qty, a); }
    hide Cross, LeftOf, Ahead, Named, Ranked, AllLeft, AddEntry, Facing;
  }

  /** An order on `a`'s own side prints nothing of `a`, nor of a `b` that comes while `a` still rests. */
  lemma AlliedCross(makers: seq<Entry>, o: Order, a: Order, b: Order, unmet: bool)
    requires AllLeft(makers) && LeftOf(makers, a) == 0 && LeftOf(makers, b) == 0 && o != a
    requires unmet && o == b ==> makers == [] || !Meets(makers[0].order, o)
    ensures var c := Cross(makers, o, o.qty);
            && Named(c.fills, a) == 0 && LeftOf(c.makers, a) == 0 && LeftOf(c.makers, b) == 0 && c.left >= 0
            && (o != b || unmet ==> Named(c.fills, b) == 0)
  {
    CrossNothing(makers, o, o.qty, a);
    CrossAccounts(makers, o, o.qty, b);
    if o != b { CrossNothing(makers, o, o.qty, b); }
    LeftNonNegative(Cross(makers, o, o.qty).makers, b);
    assert Named([], b) == 0;
  }

  lemma SuffixFacesNone(makers: seq<Entry>, o: Order, left: int, a: Order)
    requires FacesNone(a, makers)
    ensures FacesNone(a, Cross(makers, o, left).makers)
  {
    var k := CrossIsSuffix(makers, o, left);
  }

  lemma AlliedStep(p: Params, pool: Pool, o: Order, a: Order, b: Order)
    requires Good(pool) && Standing(pool, a, b) && Sided(pool, a, b) && NoWorse(a, b) && a != b
    requires p.Placeable(o) && IsBuy(o) == IsBuy(a) && o != a
    ensures var (next, fills) := PoolStep(p, pool, o);
            Standing(next, a, b) && Sided(next, a, b) && Respects(pool, next, fills, a, b)
  {
    var makers := Against(pool, a);
    var c := Cross(makers, o, o.qty);
    var unmet := LeftOf(Own(pool, a), a) > 0;
    assert unmet && o == b && makers != [] ==> !Facing(a, makers[0].order);
    AlliedCross(makers, o, a, b, unmet);
    if unmet { SuffixFacesNone(makers, o, o.qty, a); }
    var e := Entry(o, c.left);
    AddLeft(Own(pool, a), e, a);
    AddKeeps(Own(pool, a), e, a, b);
    LeftNonNegative(Own(pool, a), a);
    hide Cross, LeftOf, Ahead, Named, Ranked, AllLeft, AddEntry, FacesNone;
  }

  lemma StepRespects(p: Params, pool: Pool, o: Order, a: Order, b: Order)
    requires Good(pool) && Standing(pool, a, b) && Sided(pool, a, b) && NoWorse(a, b) && a != b
    requires o != a && (p.Placeable(o) ==> Spares(a, o))
    ensures var (next, fills) := PoolStep(p, pool, o);
            && Good(next) && Standing(next, a, b) && Sided(next, a, b) && Respects(pool, next, fills, a, b)
            && Named(fills, a) >= 0
  {
    StepIsOrderly(p, pool, o);
    StepNamed(p, pool, o, a);
    hide Good, Standing, Sided;
    if p.Placeable(o) {
      if IsBuy(o) == IsBuy(a) { AlliedStep(p, pool, o, a, b); } else { OpposedStep(p, pool, o, a, b); }
    }
  }
}
