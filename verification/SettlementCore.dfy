/** Signed orders, the stateless rules a settleable fill obeys, and the hashing and signature
    primitives, taken as given functions. */
module SettlementCore {
  import opened Wrappers

  const I64_MAX := 0x7FFF_FFFF_FFFF_FFFF

  type Address = nat
  type Hash = nat
  type Signature = seq<nat>

  const ZERO_ADDRESS: Address := 0
  const ZERO_HASH: Hash := 0
  const SIDE_BUY: nat := 0
  const SIDE_SELL: nat := 1

  datatype Order = Order(
    instrument: Hash,
    side: nat,
    price: u64,
    qty: u64,
    lotId: Hash,
    trader: Address,
    expiry: u64,
    salt: Hash)

  datatype SignedOrder = SignedOrder(order: Order, signature: Signature)

  datatype BatchFill = BatchFill(buy: Order, sell: Order, qty: int, execPrice: int)

  /** Keccak, EIP-712 digests and signer recovery of one deployment. */
  datatype Crypto = Crypto(
    orderDigest: Order -> Hash,
    instrumentHash: string -> Hash,
    fillsHash: seq<BatchFill> -> Hash,
    batchDigest: (Hash, nat, Hash) -> Hash,
    recover: (Hash, Signature) -> Option<Address>)
  {
    predicate Verifies(so: SignedOrder) {
      recover(orderDigest(so.order), so.signature) == Some(so.order.trader)
    }

    /** No two of these orders share a digest. */
    ghost predicate DigestsDiffer(orders: seq<Order>) {
      forall a, b :: a in orders && b in orders && orderDigest(a) == orderDigest(b) ==> a == b
    }
  }

  datatype PairError =
    | InvalidOrderPair
    | SelfFill
    | ZeroAmount
    | OrderExpired
    | PriceOutsideLimits
    | QtyExceedsOrder

  /** Why a buy and a sell cannot fill, if they cannot. */
  function ValidatePair(buy: Order, sell: Order, qty: int, execPrice: int, now: int): Option<PairError> {
    if buy.side != SIDE_BUY || sell.side != SIDE_SELL || buy.instrument != sell.instrument
        || buy.lotId != ZERO_HASH then
      Some(InvalidOrderPair)
    else if buy.trader == sell.trader then Some(SelfFill)
    else if qty == 0 || execPrice == 0 then Some(ZeroAmount)
    else if now > buy.expiry || now > sell.expiry then Some(OrderExpired)
    else if execPrice > buy.price || execPrice < sell.price then Some(PriceOutsideLimits)
    else if qty > buy.qty || qty > sell.qty then Some(QtyExceedsOrder)
    else None
  }

  /** A pair settles exactly when every rule is met. */
  lemma PairSettlesIff(buy: Order, sell: Order, qty: int, execPrice: int, now: int)
    ensures ValidatePair(buy, sell, qty, execPrice, now).None? <==>
              && buy.side == SIDE_BUY && sell.side == SIDE_SELL && buy.instrument == sell.instrument
              && buy.lotId == ZERO_HASH && buy.trader != sell.trader && qty != 0 && execPrice != 0
              && now <= buy.expiry && now <= sell.expiry
              && sell.price <= execPrice <= buy.price && qty <= buy.qty && qty <= sell.qty
  {
  }

  /** Notional of a fill in micro-dollars, rounded half up. */
  function CostMicro(price: nat, qty: nat): nat {
    (price * qty + 500_000) / 1_000_000
  }

  /** Rounding moves a notional by at most half a unit. */
  lemma CostRounds(price: nat, qty: nat)
    ensures -500_000 < 1_000_000 * CostMicro(price, qty) - price * qty <= 500_000
  {
  }
}
