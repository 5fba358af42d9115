/** Funding limits on what the operator signs: the budgets left by on-chain funds and outstanding
    commitments, the quantity a budget affords, the quote ladder and the single RFQ quote. */
module Funding {
  import opened Wrappers
  import opened SettlementCore

  const U128_MAX: nat := 0xFFFF_FFFF_FFFF_FFFF_FFFF_FFFF_FFFF_FFFF
  const BPS: nat := 10_000

  datatype ChainCache = ChainCache(freeCollateral: nat, balance: nat, penaltyBps: nat, fetchedAt: nat)

  /** Micro-dollars still committable on each side. */
  datatype Budgets = Budgets(sell: nat, buy: nat) {
    function Of(side: Side): nat {
      if side.Sell? then sell else buy
    }

    function Spend(side: Side, cost: nat): Budgets {
      if side.Sell? then this.(sell := Saturating(sell, cost)) else this.(buy := Saturating(buy, cost))
    }
  }

  function SaturatingMul(a: nat, b: nat): nat {
    Min(a * b, U128_MAX)
  }

  /** Budgets from the cached funds net of outstanding commitments; none before the first fetch.
      The scaling by 10,000 is a wrapping 128-bit product. */
  function QuoteBudgets(cache: ChainCache, outSell: nat, outBuy: nat): Option<Budgets> {
    if cache.fetchedAt == 0 then None
    else
      var sellable := cache.freeCollateral * BPS % (U128_MAX + 1) / (BPS + cache.penaltyBps);
      Some(Budgets(Saturating(sellable, outSell), Saturating(cache.balance, outBuy)))
  }

  /** The budgets are all that the chain backs: with outstanding commitments, one unit more would not be
      covered. */
  lemma BudgetsAreTight(cache: ChainCache, outSell: nat, outBuy: nat)
    requires cache.fetchedAt != 0 && cache.freeCollateral * BPS <= U128_MAX
    ensures var budgets := QuoteBudgets(cache, outSell, outBuy).value;
            && (outSell + budgets.sell + 1) * (BPS + cache.penaltyBps) > cache.freeCollateral * BPS
            && outBuy + budgets.buy + 1 > cache.balance
  {
    var scaled, d := cache.freeCollateral * BPS, BPS + cache.penaltyBps;
    assert scaled % (U128_MAX + 1) == scaled;
    assert scaled < (scaled / d + 1) * d;
    var total := outSell + QuoteBudgets(cache, outSell, outBuy).value.sell;
    assert total >= scaled / d;
    assert (total + 1) * d >= (scaled / d + 1) * d;
  }

  /** The quantity a budget affords at a price. */
  function MaxQty(budget: nat, price: nat): nat {
    Min(Saturating(SaturatingMul(budget, 1_000_000), 500_000) / Max(price, 1), U64_MAX)
  }

  lemma ProductWithin(price: nat, qty: nat, bound: nat)
    requires price >= 1 && qty <= bound / price
    ensures price * qty <= bound
  {
    assert price * (bound / price) <= bound;
    assert price * qty <= price * (bound / price);
  }

  /** What is affordable never costs more than the budget, rounding included. */
  lemma AffordableFits(budget: nat, price: nat, qty: nat)
    requires qty <= MaxQty(budget, price)
    ensures CostMicro(price, qty) <= budget
  {
    var bound := Saturating(SaturatingMul(budget, 1_000_000), 500_000);
    if price == 0 {
      assert price * qty == 0;
    } else {
      ProductWithin(price, qty, bound);
      if bound == 0 {
        assert price * qty == 0;
      } else {
        assert price * qty + 500_000 <= 1_000_000 * budget;
      }
    }
  }

  /** And it is tight: unless a machine limit intervenes, one token more would use the budget up. */
  lemma AffordableIsTight(budget: nat, price: nat)
    requires price >= 1 && 1_000_000 * budget <= U128_MAX && MaxQty(budget, price) < U64_MAX
    ensures CostMicro(price, MaxQty(budget, price) + 1) >= budget
  {
    var bound := Saturating(SaturatingMul(budget, 1_000_000), 500_000);
    var q := bound / price;
    assert bound == price * q + bound % price;
    assert price * (q + 1) == price * q + price;
    assert price * (q + 1) > bound;
    assert price * (q + 1) + 500_000 >= 1_000_000 * budget;
  }

  // ------------------------------------------------------------------ the ladder

  datatype Quote = Quote(price: real, qty: real)

  /** A firm quote the operator signed. */
  datatype Signed = Signed(side: Side, price: nat, qty: nat)

  /** Round half away from zero, then saturate into an unsigned word. */
  function RoundU64(x: real): nat {
    if x <= 0.0 then 0 else Min((x + 0.5).Floor, U64_MAX)
  }

  function LevelQuote(touch: Quote, side: Side, level: nat, step: nat): Quote {
    Quote(if side.Buy? then touch.price - (level * step) as real else touch.price + (level * step) as real,
          touch.qty * (1.0 + level as real * 0.75))
  }

  function CostOf(signed: seq<Signed>, side: Side): nat {
    if signed == [] then 0
    else
      var last := signed[|signed| - 1];
      CostOf(signed[..|signed| - 1], side) + (if last.side == side then CostMicro(last.price, last.qty) else 0)
  }

  ghost predicate SignsOn(signed: seq<Signed>, side: Side) {
    exists k :: 0 <= k < |signed| && signed[k].side == side
  }

  /** What the books accept or refuse, as far as the ladder can tell. */
  type Acceptance = Signed -> bool

  /** The budget account of a ladder: what is left is exactly what was granted less what was signed
      (so no subtraction ever saturated), and nothing is signed on a side without a budget. */
  ghost predicate Accounted(granted: Budgets, left: Budgets, signed: seq<Signed>) {
    && left.sell + CostOf(signed, Sell) == granted.sell
    && left.buy + CostOf(signed, Buy) == granted.buy
    && (SignsOn(signed, Sell) ==> granted.sell > 0)
    && (SignsOn(signed, Buy) ==> granted.buy > 0)
  }

  lemma AccountedSpend(granted: Budgets, left: Budgets, signed: seq<Signed>, q: Signed)
    requires Accounted(granted, left, signed)
    requires 1 <= q.qty <= MaxQty(left.Of(q.side), q.price)
    ensures Accounted(granted, left.Spend(q.side, CostMicro(q.price, q.qty)), signed + [q])
    ensures left.Of(q.side) >= CostMicro(q.price, q.qty)
  {
    AffordableFits(left.Of(q.side), q.price, q.qty);
    var more := signed + [q];
    forall side | SignsOn(more, side) && side != q.side ensures SignsOn(signed, side) {
      var k :| 0 <= k < |more| && more[k].side == side;
      assert signed[k].side == side;
    }
  }

  /** Where a tick stands: the budgets left, everything signed so far, and whether the book has
      refused a quote, which ends the tick. */
  datatype Tick = Tick(left: Option<Budgets>, signed: seq<Signed>, refused: bool)

  /** The quote of one level: cut to what the side's remaining budget affords and skipped below the
      minimum; skipped too when the level has stepped below zero. */
  function LevelSigned(touch: Quote, side: Side, level: nat, step: nat, minQty: nat,
                       left: Option<Budgets>): Option<Signed> {
    var q := LevelQuote(touch, side, level, step);
    if q.price <= 0.0 then None
    else
      var price, wanted := RoundU64(q.price), RoundU64(q.qty);
      var qty := if left.Some? then Min(wanted, MaxQty(left.value.Of(side), price)) else wanted;
      if left.Some? && qty < minQty then None else Some(Signed(side, price, qty))
  }

  /** Spend for a quote, sign it and offer it to the book. */
  function Offer(t: Tick, q: Signed, accepts: Acceptance): Tick {
    Tick(if t.left.Some? then Some(t.left.value.Spend(q.side, CostMicro(q.price, q.qty))) else None,
         t.signed + [q], !accepts(q))
  }

  /** The levels of one side from `level` on, stepping away from the touch. */
  function Ladder(t: Tick, touch: Quote, side: Side, level: nat, levels: nat, step: nat, minQty: nat,
                  accepts: Acceptance): Tick
    requires level <= levels
    decreases levels - level
  {
    if level == levels || t.refused then t
    else
      var q := LevelSigned(touch, side, level, step, minQty, t.left);
      Ladder(if q.None? then t else Offer(t, q.value, accepts), touch, side, level + 1, levels, step, minQty, accepts)
  }

  /** A whole tick: bids, then asks, out of the same budgets. */
  function TickOf(bid: Option<Quote>, ask: Option<Quote>, levels: nat, step: nat, minQty: nat, accepts: Acceptance,
                  budgets: Option<Budgets>): Tick {
    var start := Tick(budgets, [], false);
    var bids := if bid.Some? then Ladder(start, bid.value, Buy, 0, levels, step, minQty, accepts) else start;
    if ask.Some? then Ladder(bids, ask.value, Sell, 0, levels, step, minQty, accepts) else bids
  }

  lemma {:induction false} LadderAccounted(granted: Budgets, t: Tick, touch: Quote, side: Side, level: nat, levels: nat,
                                           step: nat, minQty: nat, accepts: Acceptance)
    requires level <= levels && minQty >= 1
    requires t.left.Some? && Accounted(granted, t.left.value, t.signed)
    ensures var u := Ladder(t, touch, side, level, levels, step, minQty, accepts);
            u.left.Some? && Accounted(granted, u.left.value, u.signed)
    decreases levels - level
  {
    if level < levels && !t.refused {
      var q := LevelSigned(touch, side, level, step, minQty, t.left);
      if q.Some? { AccountedSpend(granted, t.left.value, t.signed, q.value); }
      LadderAccounted(granted, if q.None? then t else Offer(t, q.value, accepts),
                      touch, side, level + 1, levels, step, minQty, accepts);
    }
  }

  // ------------------------------------------------------------------ what the ladder quotes

  /** Rounding goes to the nearest whole number, a half up, inside an unsigned word. */
  lemma RoundIsNearest(x: real)
    ensures 0.0 < x <= U64_MAX as real ==> -0.5 < RoundU64(x) as real - x <= 0.5
    ensures (x <= 0.0 ==> RoundU64(x) == 0) && (x >= U64_MAX as real ==> RoundU64(x) == U64_MAX)
  {
  }

  /** What a side can still spend after these quotes were signed. */
  function Unspent(granted: Budgets, signed: seq<Signed>, side: Side): nat {
    Saturating(granted.Of(side), CostOf(signed, side))
  }

  /** A size and three quarters of it more for every level. */
  function Grown(qty: real, level: nat): real {
    qty * (4 + 3 * level) as real / 4.0
  }

  /** The size of a level, as far as the funds go. */
  function SizeAt(granted: Option<Budgets>, signed: seq<Signed>, touch: Quote, side: Side, level: nat, price: nat): nat
  {
    var wanted := RoundU64(Grown(touch.qty, level));
    if granted.Some? then Min(wanted, MaxQty(Unspent(granted.value, signed, side), price)) else wanted
  }

  /** The unrounded price this far from the touch: a bid steps down from it, an ask up. */
  function PriceAt(touch: Quote, side: Side, distance: nat): real {
    if side.Buy? then touch.price - distance as real else touch.price + distance as real
  }

  /** The `n`th signed quote is that of this level. */
  ghost predicate QuotedAt(granted: Option<Budgets>, touch: Quote, side: Side, step: nat, level: nat,
                           signed: seq<Signed>, n: nat)
  {
    && n < |signed| && PriceAt(touch, side, level * step) > 0.0
    && var price := RoundU64(PriceAt(touch, side, level * step));
       signed[n] == Signed(side, price, SizeAt(granted, signed[..n], touch, side, level, price))
  }

  /** This level has nothing to quote after the first `n`: no positive price, or too small a size. */
  ghost predicate SkippedAt(granted: Option<Budgets>, touch: Quote, side: Side, step: nat, minQty: nat, level: nat,
                            signed: seq<Signed>, n: nat)
  {
    && n <= |signed|
    && (|| PriceAt(touch, side, level * step) <= 0.0
        || (granted.Some? && SizeAt(granted, signed[..n], touch, side, level,
                                    RoundU64(PriceAt(touch, side, level * step))) < minQty))
  }

  /** `level` falls between the first `k` of these levels and the rest. */
  ghost predicate Between(at: seq<nat>, k: nat, level: nat) {
    && k <= |at| && (forall j :: 0 <= j < k ==> at[j] < level) && (forall j :: k <= j < |at| ==> level < at[j])
  }

  /** The `k`th quote from `n` on is that of level `at[k]`; the book took it unless it is a last one. */
  ghost predicate TakenAs(granted: Option<Budgets>, touch: Quote, side: Side, step: nat, accepts: Acceptance, u: Tick,
                          n: nat, at: seq<nat>, k: nat)
  {
    && k < |at| && QuotedAt(granted, touch, side, step, at[k], u.signed, n + k)
    && (accepts(u.signed[n + k]) <==> !(u.refused && k == |at| - 1))
  }

  /** The quotes from `n` on are those of the levels `at`, ascending. */
  ghost predicate Taken(granted: Option<Budgets>, touch: Quote, side: Side, step: nat, level: nat, levels: nat,
                        accepts: Acceptance, u: Tick, n: nat, at: seq<nat>)
  {
    && n + |at| == |u.signed|
    && (forall k :: 0 <= k < |at| ==> level <= at[k] < levels)
    && (forall k :: 0 <= k < |at| ==> TakenAs(granted, touch, side, step, accepts, u, n, at, k))
    && (forall j, k :: 0 <= j < k < |at| ==> at[j] < at[k])
  }

  /** These are the levels quoted, and every other is missing for a reason. */
  ghost predicate Quotes(granted: Option<Budgets>, touch: Quote, side: Side, step: nat, minQty: nat, level: nat,
                         levels: nat, accepts: Acceptance, u: Tick, n: nat, at: seq<nat>)
  {
    && Taken(granted, touch, side, step, level, levels, accepts, u, n, at)
    && (forall l :: level <= l < levels && l !in at ==>
          Excused(granted, touch, side, step, minQty, u, n, at, l))
  }

  /** A level that is missing had nothing to quote when its turn came, or the tick was over. */
  ghost predicate Excused(granted: Option<Budgets>, touch: Quote, side: Side, step: nat, minQty: nat, u: Tick, n: nat,
                          at: seq<nat>, level: nat)
  {
    exists k: nat :: Between(at, k, level)
                && (SkippedAt(granted, touch, side, step, minQty, level, u.signed, n + k)
                    || (u.refused && k == |at|))
  }

  /** The budgets left are what was granted less what was signed. */
  ghost predicate Balanced(granted: Option<Budgets>, t: Tick) {
    && granted.Some? == t.left.Some?
    && (granted.Some? ==> forall side :: t.left.value.Of(side) + CostOf(t.signed, side) == granted.value.Of(side))
  }

  lemma OfferBalanced(granted: Option<Budgets>, t: Tick, q: Signed, accepts: Acceptance)
    requires Balanced(granted, t) && (t.left.Some? ==> q.qty <= MaxQty(t.left.value.Of(q.side), q.price))
    ensures Balanced(granted, Offer(t, q, accepts))
    ensures Offer(t, q, accepts).signed == t.signed + [q] && Offer(t, q, accepts).refused == !accepts(q)
  {
    if t.left.Some? { AffordableFits(t.left.value.Of(q.side), q.price, q.qty); }
    assert (t.signed + [q])[..|t.signed|] == t.signed;
  }

  lemma LevelGrows(touch: Quote, side: Side, level: nat, step: nat)
    ensures LevelQuote(touch, side, level, step).qty == Grown(touch.qty, level)
  {
    var f := 1.0 + level as real * 0.75;
    assert (4 + 3 * level) as real == 4.0 * f;
    assert touch.qty * (4.0 * f) / 4.0 == touch.qty * f;
  }

  lemma SizeIs(granted: Option<Budgets>, t: Tick, touch: Quote, side: Side, level: nat, step: nat, price: nat)
    requires Balanced(granted, t)
    ensures var wanted := RoundU64(LevelQuote(touch, side, level, step).qty);
            SizeAt(granted, t.signed[..|t.signed|], touch, side, level, price)
            == if t.left.Some? then Min(wanted, MaxQty(t.left.value.Of(side), price)) else wanted
  {
    LevelGrows(touch, side, level, step);
    assert t.signed[..|t.signed|] == t.signed;
    hide RoundU64, MaxQty, Grown, LevelQuote, CostOf;
  }

  lemma LevelIs(granted: Option<Budgets>, t: Tick, touch: Quote, side: Side, level: nat, step: nat, minQty: nat)
    requires Balanced(granted, t)
    ensures var q := LevelSigned(touch, side, level, step, minQty, t.left);
            if q.None? then SkippedAt(granted, touch, side, step, minQty, level, t.signed, |t.signed|)
            else
              && QuotedAt(granted, touch, side, step, level, t.signed + [q.value], |t.signed|)
              && (t.left.Some? ==> q.value.qty <= MaxQty(t.left.value.Of(q.value.side), q.value.price))
  {
    var price := LevelQuote(touch, side, level, step).price;
    assert price == PriceAt(touch, side, level * step);
    SizeIs(granted, t, touch, side, level, step, RoundU64(price));
    hide RoundU64, MaxQty, PriceAt, LevelQuote, SizeAt;
    var signed := LevelSigned(touch, side, level, step, minQty, t.left);
    if signed.Some? { assert (t.signed + [signed.value])[..|t.signed|] == t.signed[..|t.signed|]; }
  }

  lemma PrefixAgrees(granted: Option<Budgets>, touch: Quote, side: Side, step: nat, minQty: nat, level: nat,
                     signed: seq<Signed>, more: seq<Signed>, n: nat)
    requires signed <= more
    ensures QuotedAt(granted, touch, side, step, level, signed, n) ==>
              QuotedAt(granted, touch, side, step, level, more, n)
    ensures SkippedAt(granted, touch, side, step, minQty, level, signed, n) ==>
              SkippedAt(granted, touch, side, step, minQty, level, more, n)
  {
    hide PriceAt, SizeAt, RoundU64;
    if n <= |signed| { assert signed[..n] == more[..n]; }
  }

  lemma NoLevels(granted: Option<Budgets>, touch: Quote, side: Side, step: nat, minQty: nat, level: nat, levels: nat,
                 accepts: Acceptance, u: Tick)
    requires level == levels || u.refused
    ensures Quotes(granted, touch, side, step, minQty, level, levels, accepts, u, |u.signed|, [])
  {
    hide QuotedAt, SkippedAt;
    forall l | level <= l < levels ensures Excused(granted, touch, side, step, minQty, u, |u.signed|, [], l) {
      assert Between([], 0, l);
    }
  }

  lemma PassLevel(granted: Option<Budgets>, touch: Quote, side: Side, step: nat, minQty: nat, level: nat, levels: nat,
                  accepts: Acceptance, before: seq<Signed>, u: Tick, at: seq<nat>)
    requires Quotes(granted, touch, side, step, minQty, level + 1, levels, accepts, u, |before|, at)
    requires before <= u.signed && SkippedAt(granted, touch, side, step, minQty, level, before, |before|)
    ensures Quotes(granted, touch, side, step, minQty, level, levels, accepts, u, |before|, at)
  {
    PrefixAgrees(granted, touch, side, step, minQty, level, before, u.signed, |before|);
    hide QuotedAt, SkippedAt;
    hide TakenAs;
    assert Taken(granted, touch, side, step, level, levels, accepts, u, |before|, at);
    var k: nat := 0;
    assert Between(at, k, level) && SkippedAt(granted, touch, side, step, minQty, level, u.signed, |before| + k);
    hide Between, Taken;
    assert Excused(granted, touch, side, step, minQty, u, |before|, at, level);
    hide Excused;
  }

  lemma TakeLevel(granted: Option<Budgets>, touch: Quote, side: Side, step: nat, minQty: nat, level: nat, levels: nat,
                  accepts: Acceptance, before: seq<Signed>, q: Signed, u: Tick, at: seq<nat>)
    requires Taken(granted, touch, side, step, level + 1, levels, accepts, u, |before| + 1, at)
    requires before + [q] <= u.signed && QuotedAt(granted, touch, side, step, level, before + [q], |before|)
    requires level < levels && (if accepts(q) then at == [] ==> !u.refused else at == [] && u.refused)
    ensures Taken(granted, touch, side, step, level, levels, accepts, u, |before|, [level] + at)
  {
    var all := [level] + at;
    PrefixAgrees(granted, touch, side, step, minQty, level, before + [q], u.signed, |before|);
    assert u.signed[|before|] == (before + [q])[|before|] == q;
    hide QuotedAt;
    forall k: nat | k < |all| ensures TakenAs(granted, touch, side, step, accepts, u, |before|, all, k) {
      if k > 0 {
        assert TakenAs(granted, touch, side, step, accepts, u, |before| + 1, at, k - 1);
        assert all[k] == at[k-1] && |before| + k == |before| + 1 + (k - 1);
      }
    }
    hide TakenAs;
    assert forall k :: 0 < k < |all| ==> all[k] == at[k-1];
  }

  lemma ExcuseFurther(granted: Option<Budgets>, touch: Quote, side: Side, step: nat, minQty: nat, level: nat, u: Tick,
                      n: nat, at: seq<nat>, l: nat)
    requires Excused(granted, touch, side, step, minQty, u, n + 1, at, l) && level < l
    ensures Excused(granted, touch, side, step, minQty, u, n, [level] + at, l)
  {
    hide SkippedAt;
    var k: nat :| Between(at, k, l) && (SkippedAt(granted, touch, side, step, minQty, l, u.signed, n + 1 + k)
                                        || (u.refused && k == |at|));
    assert n + 1 + k == n + (k + 1);
    assert Between([level] + at, k + 1, l);
  }

  lemma AddLevel(granted: Option<Budgets>, touch: Quote, side: Side, step: nat, minQty: nat, level: nat, levels: nat,
                 accepts: Acceptance, before: seq<Signed>, q: Signed, u: Tick, at: seq<nat>)
    requires Quotes(granted, touch, side, step, minQty, level + 1, levels, accepts, u, |before| + 1, at)
    requires before + [q] <= u.signed && QuotedAt(granted, touch, side, step, level, before + [q], |before|)
    requires level < levels && (if accepts(q) then at == [] ==> !u.refused else at == [] && u.refused)
    ensures Quotes(granted, touch, side, step, minQty, level, levels, accepts, u, |before|, [level] + at)
  {
    TakeLevel(granted, touch, side, step, minQty, level, levels, accepts, before, q, u, at);
    hide Taken, Excused, QuotedAt, SkippedAt;
    var all := [level] + at;
    forall l | level <= l < levels && l !in all
      ensures Excused(granted, touch, side, step, minQty, u, |before|, all, l)
    {
      assert l != all[0] && l !in at;
      ExcuseFurther(granted, touch, side, step, minQty, level, u, |before|, at, l);
    }
  }

  /** A ladder only adds quotes; only a refused one ends it, and nothing follows that. */
  lemma {:induction false} LadderExtends(t: Tick, touch: Quote, side: Side, level: nat, levels: nat, step: nat,
                                         minQty: nat, accepts: Acceptance)
    requires level <= levels
    ensures var u := Ladder(t, touch, side, level, levels, step, minQty, accepts);
            && t.signed <= u.signed && (t.refused ==> u == t)
            && (|u.signed| == |t.signed| ==> u.refused == t.refused)
    decreases levels - level
  {
    if level < levels && !t.refused {
      var q := LevelSigned(touch, side, level, step, minQty, t.left);
      LadderExtends(if q.None? then t else Offer(t, q.value, accepts), touch, side, level + 1, levels, step, minQty,
                    accepts);
    }
  }

  /** Every quote of a ladder is that of a level: at the touch less (bids) or plus (asks) the level's
      distance, as large as the level asks and the funds then left afford. Levels are taken in
      order from the touch outwards, and none is missing without a reason. */
  lemma {:induction false} LadderQuotes(granted: Option<Budgets>, t: Tick, touch: Quote, side: Side, level: nat,
                                        levels: nat, step: nat, minQty: nat, accepts: Acceptance)
    returns (at: seq<nat>)
    requires level <= levels && Balanced(granted, t)
    ensures var u := Ladder(t, touch, side, level, levels, step, minQty, accepts);
            && Balanced(granted, u) && |u.signed| == |t.signed| + |at|
            && Quotes(granted, touch, side, step, minQty, level, levels, accepts, u, |t.signed|, at)
    decreases levels - level
  {
    hide Quotes, Balanced, QuotedAt, SkippedAt, LevelSigned, Offer, MaxQty, CostOf;
    var u := Ladder(t, touch, side, level, levels, step, minQty, accepts);
    if level == levels || t.refused {
      at := [];
      NoLevels(granted, touch, side, step, minQty, level, levels, accepts, u);
    } else {
      var q := LevelSigned(touch, side, level, step, minQty, t.left);
      LevelIs(granted, t, touch, side, level, step, minQty);
      var t' := if q.None? then t else Offer(t, q.value, accepts);
      assert u == Ladder(t', touch, side, level + 1, levels, step, minQty, accepts);
      LadderExtends(t', touch, side, level + 1, levels, step, minQty, accepts);
      if q.Some? { OfferBalanced(granted, t, q.value, accepts); }
      at := LadderQuotes(granted, t', touch, side, level + 1, levels, step, minQty, accepts);
      if q.None? {
        PassLevel(granted, touch, side, step, minQty, level, levels, accepts, t.signed, u, at);
      } else {
        AddLevel(granted, touch, side, step, minQty, level, levels, accepts, t.signed, q.value, u, at);
        at := [level] + at;
      }
    }
  }

  /** A whole tick signs the bids' levels and then the asks', each as its ladder does; a refusal among the
      bids leaves no asks. */
  lemma TickQuotes(bid: Option<Quote>, ask: Option<Quote>, levels: nat, step: nat, minQty: nat, accepts: Acceptance,
                   budgets: Option<Budgets>) returns (mid: Tick, bids: seq<nat>, asks: seq<nat>)
    ensures var t := TickOf(bid, ask, levels, step, minQty, accepts, budgets);
            && |t.signed| == |bids| + |asks| && mid.signed == t.signed[..|bids|]
            && (if bid.None? then bids == [] && !mid.refused
                else Quotes(budgets, bid.value, Buy, step, minQty, 0, levels, accepts, mid, 0, bids))
            && (if ask.None? then asks == [] && t == mid
                else Quotes(budgets, ask.value, Sell, step, minQty, 0, levels, accepts, t, |bids|, asks))
            && (mid.refused ==> t == mid)
  {
    var start := Tick(budgets, [], false);
    mid, bids, asks := start, [], [];
    assert Balanced(budgets, start);
    hide Quotes, Balanced;
    if bid.Some? {
      mid := Ladder(start, bid.value, Buy, 0, levels, step, minQty, accepts);
      bids := LadderQuotes(budgets, start, bid.value, Buy, 0, levels, step, minQty, accepts);
    }
    if ask.Some? {
      LadderExtends(mid, ask.value, Sell, 0, levels, step, minQty, accepts);
      asks := LadderQuotes(budgets, mid, ask.value, Sell, 0, levels, step, minQty, accepts);
    }
  }

  lemma RoundShifts(x: real, d: nat)
    requires 0.0 < x <= U64_MAX as real
    ensures x > d as real ==> RoundU64(x - d as real) == RoundU64(x) - d
    ensures RoundU64(x + d as real) == Min(RoundU64(x) + d, U64_MAX)
  {
    assert (x + 0.5 - d as real).Floor == (x + 0.5).Floor - d;
    assert (x + 0.5 + d as real).Floor == (x + 0.5).Floor + d;
  }

  /** So no quote is better for the taker than the rounded touch, each is a whole number of steps away
      from it, and later ones are further away. */
  lemma QuotesStepAway(granted: Option<Budgets>, touch: Quote, side: Side, step: nat, minQty: nat, level: nat,
                       levels: nat, accepts: Acceptance, u: Tick, n: nat, at: seq<nat>, j: nat, k: nat)
    requires Quotes(granted, touch, side, step, minQty, level, levels, accepts, u, n, at)
    requires j <= k < |at| && 0.0 < touch.price <= U64_MAX as real
    ensures var top, near, far := RoundU64(touch.price), u.signed[n + j], u.signed[n + k];
            && near.side == far.side == side
            && (side.Buy? ==> far.price == top - at[k] * step && far.price <= near.price <= top)
            && (side.Sell? ==> far.price == Min(top + at[k] * step, U64_MAX) && top <= near.price <= far.price)
  {
    assert TakenAs(granted, touch, side, step, accepts, u, n, at, j);
    assert TakenAs(granted, touch, side, step, accepts, u, n, at, k);
    assert at[j] <= at[k];
    FurtherOut(at[j], at[k], step);
    RoundShifts(touch.price, at[j] * step);
    RoundShifts(touch.price, at[k] * step);
    hide RoundU64, SizeAt, Quotes, MaxQty;
  }

  lemma FurtherOut(near: nat, far: nat, step: nat)
    requires near <= far
    ensures near * step <= far * step
  {
  }

  /** `mm_tick`'s ladder: nested loops over the sides and their levels, spending mutable budgets. */
  method QuoteTick(bid: Option<Quote>, ask: Option<Quote>, levels: nat, step: nat, minQty: nat, accepts: Acceptance,
                   budgets: Option<Budgets>) returns (left: Option<Budgets>, signed: seq<Signed>, refused: bool)
    ensures Tick(left, signed, refused) == TickOf(bid, ask, levels, step, minQty, accepts, budgets)
  {
    left, signed, refused := budgets, [], false;
    var sides := [(Buy, bid), (Sell, ask)];
    var s := 0;
    while s < |sides| && !refused
      invariant s <= |sides|
      invariant TickOf(bid, ask, levels, step, minQty, accepts, budgets)
                == var now := Tick(left, signed, refused);
                   if s == 0 then TickOf(bid, ask, levels, step, minQty, accepts, left)
                   else if s == 1 && ask.Some? then Ladder(now, ask.value, Sell, 0, levels, step, minQty, accepts)
                   else now
      invariant s == 0 ==> left == budgets && signed == [] && !refused
      decreases |sides| - s
    {
      var (side, touch) := sides[s];
      s := s + 1;
      if touch.None? {
        continue;
      }
      var level := 0;
      ghost var whole := Ladder(Tick(left, signed, refused), touch.value, side, 0, levels, step, minQty, accepts);
      while level < levels && !refused
        invariant level <= levels
        invariant Ladder(Tick(left, signed, refused), touch.value, side, level, levels, step, minQty, accepts) == whole
      {
        var q := LevelQuote(touch.value, side, level, step);
        level := level + 1;
        if q.price <= 0.0 {
          continue;
        }
        var price, qty := RoundU64(q.price), RoundU64(q.qty);
        if left.Some? {
          qty := Min(qty, MaxQty(left.value.Of(side), price));
          if qty < minQty {
            continue;
          }
          left := Some(left.value.Spend(side, CostMicro(price, qty)));
        }
        signed := signed + [Signed(side, price, qty)];
        refused := !accepts(Signed(side, price, qty));
      }
    }
  }

  /** What signing under budgets guarantees against the chain: on each side either nothing was
      signed or everything outstanding and new is covered, penalty included for sells. */
  ghost predicate Funded(cache: ChainCache, outSell: nat, outBuy: nat, signed: seq<Signed>) {
    && (SignsOn(signed, Sell) ==>
        (outSell + CostOf(signed, Sell)) * (BPS + cache.penaltyBps) <= cache.freeCollateral * BPS)
    && (SignsOn(signed, Buy) ==> outBuy + CostOf(signed, Buy) <= cache.balance)
  }

  lemma WithinSellable(total: nat, collateral: nat, penalty: nat)
    requires total <= collateral * BPS % (U128_MAX + 1) / (BPS + penalty)
    ensures total * (BPS + penalty) <= collateral * BPS
  {
    var scaled := collateral * BPS % (U128_MAX + 1);
    assert scaled <= collateral * BPS;
    ProductWithin(BPS + penalty, total, scaled);
  }

  lemma AccountedIsFunded(cache: ChainCache, outSell: nat, outBuy: nat, left: Budgets, signed: seq<Signed>)
    requires cache.fetchedAt != 0
    requires Accounted(QuoteBudgets(cache, outSell, outBuy).value, left, signed)
    ensures Funded(cache, outSell, outBuy, signed)
  {
    if SignsOn(signed, Sell) {
      WithinSellable(outSell + CostOf(signed, Sell), cache.freeCollateral, cache.penaltyBps);
    }
  }

  /** The funding bound of a tick: budgets are spent to the unit, with no subtraction saturating,
      and every side that signed anything is covered by the chain, outstanding commitments, rounding
      and penalty included. */
  lemma TickIsFunded(cache: ChainCache, outSell: nat, outBuy: nat, bid: Option<Quote>, ask: Option<Quote>,
                     levels: nat, step: nat, minQty: nat, accepts: Acceptance)
    requires minQty >= 1 && cache.fetchedAt != 0
    ensures var budgets := QuoteBudgets(cache, outSell, outBuy);
            var t := TickOf(bid, ask, levels, step, minQty, accepts, budgets);
            && t.left.Some? && Accounted(budgets.value, t.left.value, t.signed)
            && Funded(cache, outSell, outBuy, t.signed)
  {
    var budgets := QuoteBudgets(cache, outSell, outBuy);
    var start := Tick(budgets, [], false);
    if bid.Some? { LadderAccounted(budgets.value, start, bid.value, Buy, 0, levels, step, minQty, accepts); }
    var bids := if bid.Some? then Ladder(start, bid.value, Buy, 0, levels, step, minQty, accepts) else start;
    if ask.Some? { LadderAccounted(budgets.value, bids, ask.value, Sell, 0, levels, step, minQty, accepts); }
    var t := TickOf(bid, ask, levels, step, minQty, accepts, budgets);
    AccountedIsFunded(cache, outSell, outBuy, t.left.value, t.signed);
  }

  // ------------------------------------------------------------------ the single quote

  datatype QuoteError = OutOfRange | ZeroPrice | BelowMin | Unfunded

  /** The tick at or beyond the raw price, in the operator's favour. */
  function AlignedPrice(maker: Side, raw: nat, tick: nat): (price: nat)
    requires tick >= 1
  {
    if maker.Sell? then (raw + tick - 1) / tick * tick else raw / tick * tick
  }

  /** A firm RFQ quote: the price aligned to the tick against the taker, the size cut to the
      request, the offer and the funds. */
  function RfqQuote(maker: Side, raw: nat, tick: nat, requested: nat, offered: nat, minQty: nat,
                    budgets: Option<Budgets>): Result<Signed, QuoteError>
    requires tick >= 1
  {
    var price := AlignedPrice(maker, raw, tick);
    var qty := Min(requested, offered);
    if maker.Sell? && price > U64_MAX then Failure(OutOfRange)
    else if price == 0 then Failure(ZeroPrice)
    else if qty < minQty then Failure(BelowMin)
    else
      var funded := if budgets.Some? then Min(qty, MaxQty(budgets.value.Of(maker), price)) else qty;
      if funded < minQty then Failure(Unfunded) else Success(Signed(maker, price, funded))
  }

  /** A quote is on tick, within one tick of the risk-gated price on the operator's side of it, no
      larger than asked, and covered by the funds it was budgeted from. */
  lemma RfqQuoteIsFunded(cache: ChainCache, outSell: nat, outBuy: nat, maker: Side, raw: nat, tick: nat,
                         requested: nat, offered: nat, minQty: nat)
    requires tick >= 1 && minQty >= 1 && cache.fetchedAt != 0
    ensures var quote := RfqQuote(maker, raw, tick, requested, offered, minQty, QuoteBudgets(cache, outSell, outBuy));
            quote.Success? ==>
            && var q := quote.value;
            && OnTick(q.price, tick) && minQty <= q.qty <= Min(requested, offered)
            && (if maker.Sell? then raw <= q.price < raw + tick else raw - tick < q.price <= raw)
            && Funded(cache, outSell, outBuy, [q])
  {
    var budgets := QuoteBudgets(cache, outSell, outBuy).value;
    var quote := RfqQuote(maker, raw, tick, requested, offered, minQty, Some(budgets));
    AlignedToTick(maker, raw, tick);
    if quote.Success? {
      OneQuoteIsFunded(cache, outSell, outBuy, quote.value);
    }
  }

  /** When a single quote is given, and what it is: as much as was asked, is offered and the funds
      afford, if that is enough and the price on tick is one. */
  lemma RfqQuoteIff(maker: Side, raw: nat, tick: nat, requested: nat, offered: nat, minQty: nat,
                    budgets: Option<Budgets>)
    requires tick >= 1
    ensures var price, size := AlignedPrice(maker, raw, tick), Min(requested, offered);
            var affordable := if budgets.Some? then MaxQty(budgets.value.Of(maker), price) else size;
            var quote := RfqQuote(maker, raw, tick, requested, offered, minQty, budgets);
            && (quote.Success? <==>
                  0 < price && (maker.Sell? ==> price <= U64_MAX) && minQty <= size && minQty <= affordable)
            && (quote.Success? ==> quote.value == Signed(maker, price, Min(size, affordable)))
  {
  }

  lemma OneQuoteIsFunded(cache: ChainCache, outSell: nat, outBuy: nat, q: Signed)
    requires cache.fetchedAt != 0
    requires 1 <= q.qty <= MaxQty(QuoteBudgets(cache, outSell, outBuy).value.Of(q.side), q.price)
    ensures Funded(cache, outSell, outBuy, [q])
  {
    var budgets := QuoteBudgets(cache, outSell, outBuy).value;
    assert CostOf([], Sell) == 0 && CostOf([], Buy) == 0;
    AccountedSpend(budgets, budgets, [], q);
    assert [] + [q] == [q];
    AccountedIsFunded(cache, outSell, outBuy, budgets.Spend(q.side, CostMicro(q.price, q.qty)), [q]);
  }

  ghost predicate OnTick(price: nat, tick: nat) {
    exists k: nat :: price == k * tick
  }

  lemma AlignedToTick(maker: Side, raw: nat, tick: nat)
    requires tick >= 1
    ensures OnTick(AlignedPrice(maker, raw, tick), tick)
    ensures var price := AlignedPrice(maker, raw, tick);
            if maker.Sell? then raw <= price < raw + tick else raw - tick < price <= raw
  {
  }
}
