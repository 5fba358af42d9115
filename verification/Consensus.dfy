/** Peer verification of a proposed batch, and what a quorum of such peers guarantees. */
module Consensus {
  import opened Wrappers
  import opened SettlementCore
  import opened Sorting
  import opened Matcher
  import opened EpochProperties
  import opened Quorum

  datatype BatchProposal = BatchProposal(
    epoch: nat,
    bookId: Hash,
    batchNonce: nat,
    instrumentId: string,
    proposer: Address,
    orders: seq<SignedOrder>,
    fillsHash: Hash)

  datatype Verdict =
    | Sign(digest: Hash, batch: EpochBatch)
    | Forged(forged: seq<Hash>)
    | FillsHashMismatch
    | Censored(censored: seq<Hash>)

  function Plain(orders: seq<SignedOrder>): (r: seq<Order>)
    ensures |r| == |orders| && forall i :: 0 <= i < |r| ==> r[i] == orders[i].order
  {
    seq(|orders|, i requires 0 <= i < |orders| => orders[i].order)
  }

  function Digests(c: Crypto, orders: seq<SignedOrder>): (r: seq<Hash>)
    ensures |r| == |orders| && forall i :: 0 <= i < |r| ==> r[i] == c.orderDigest(orders[i].order)
  {
    seq<Hash>(|orders|, i requires 0 <= i < |orders| => c.orderDigest(orders[i].order))
  }

  function IsForged(c: Crypto): SignedOrder -> bool {
    (so: SignedOrder) => !c.Verifies(so)
  }

  function IsFor(c: Crypto, instrumentId: string): SignedOrder -> bool {
    (so: SignedOrder) => so.order.instrument == c.instrumentHash(instrumentId)
  }

  function NotAmong(included: seq<Hash>): Hash -> bool {
    (d: Hash) => d !in included
  }

  /** `verify_proposal`: refuse forgeries, then a match that does not reproduce, then omissions of
      orders this peer holds; only then sign the batch digest. */
  function VerifyProposal(c: Crypto, tickSize: posint, minQty: posint, proposal: BatchProposal,
                          held: seq<SignedOrder>): Verdict
  {
    var forged := Digests(c, Filter(proposal.orders, IsForged(c)));
    if forged != [] then Forged(forged)
    else
      var fills := EpochFills(Params(proposal.instrumentId, tickSize, minQty, c), Plain(proposal.orders));
      if c.fillsHash(fills) != proposal.fillsHash then FillsHashMismatch
      else
        var censored := CensoredOf(c, proposal, held);
        if censored != [] then Censored(censored)
        else Sign(c.batchDigest(proposal.bookId, proposal.batchNonce, proposal.fillsHash),
                  EpochBatch(fills, c.fillsHash(fills)))
  }

  /** An honest, complete and correctly matched proposal. */
  ghost predicate Sound(c: Crypto, tickSize: posint, minQty: posint, proposal: BatchProposal, held: seq<SignedOrder>) {
    && (forall so :: so in proposal.orders ==> c.Verifies(so))
    && proposal.fillsHash
         == c.fillsHash(EpochFills(Params(proposal.instrumentId, tickSize, minQty, c), Plain(proposal.orders)))
    && (forall so :: so in held && so.order.instrument == c.instrumentHash(proposal.instrumentId) ==>
          Includes(c, proposal.orders, c.orderDigest(so.order)))
  }

  /** The peer holds an order of the proposal's instrument with this digest. */
  ghost predicate Holds(c: Crypto, proposal: BatchProposal, held: seq<SignedOrder>, d: Hash) {
    exists so :: so in held && so.order.instrument == c.instrumentHash(proposal.instrumentId)
                 && c.orderDigest(so.order) == d
  }

  /** A peer signs exactly the sound proposals. Otherwise a forgery is reported before anything
      else, as the digests of exactly the forged orders; a wrong match as such; and what is left is
      reported as the digests of exactly the held orders of the instrument that are missing. What it
      signs is the proposal's batch, and what it keeps is the epoch's own fills. */
  lemma SignsExactlySound(c: Crypto, tickSize: posint, minQty: posint, proposal: BatchProposal, held: seq<SignedOrder>)
    ensures var v := VerifyProposal(c, tickSize, minQty, proposal, held);
            && (v.Sign? <==> Sound(c, tickSize, minQty, proposal, held))
            && (v.Forged? <==> exists so :: so in proposal.orders && !c.Verifies(so))
            && (v.FillsHashMismatch? <==>
                  (forall so :: so in proposal.orders ==> c.Verifies(so))
                  && proposal.fillsHash != c.fillsHash(
                       EpochFills(Params(proposal.instrumentId, tickSize, minQty, c), Plain(proposal.orders))))
            && (v.Sign? ==>
                  && v.digest == c.batchDigest(proposal.bookId, proposal.batchNonce, proposal.fillsHash)
                  && v.batch.fills
                     == EpochFills(Params(proposal.instrumentId, tickSize, minQty, c), Plain(proposal.orders))
                  && v.batch.fillsHash == proposal.fillsHash)
            && (v.Forged? ==> forall d :: d in v.forged <==>
                  exists so :: so in proposal.orders && !c.Verifies(so) && c.orderDigest(so.order) == d)
            && (v.Censored? ==> forall d :: d in v.censored <==>
                  && !Includes(c, proposal.orders, d)
                  && Holds(c, proposal, held, d))
  {
    hide EpochFills, Filter, CensoredOf, Includes;
    ForgedMeans(c, proposal.orders);
    CensoredEmptyIff(c, proposal, held);
    var v := VerifyProposal(c, tickSize, minQty, proposal, held);
    if v.Censored? {
      forall d ensures d in v.censored <==>
        && !Includes(c, proposal.orders, d)
        && Holds(c, proposal, held, d)
      {
        CensoredIff(c, proposal, held, d);
      }
    }
  }

  lemma ForgedMeans(c: Crypto, orders: seq<SignedOrder>)
    ensures var forged := Digests(c, Filter(orders, IsForged(c)));
            && (forged == [] <==> forall so :: so in orders ==> c.Verifies(so))
            && forall d :: d in forged <==> exists so :: so in orders && !c.Verifies(so) && c.orderDigest(so.order) == d
  {
    var bad := Filter(orders, IsForged(c));
    var forged := Digests(c, bad);
    if forged == [] {
      forall so | so in orders ensures c.Verifies(so) {
        assert so !in bad;
      }
    } else {
      assert bad[0] in bad;
    }
    forall d ensures d in forged <==> exists so :: so in orders && !c.Verifies(so) && c.orderDigest(so.order) == d {
      if d in forged {
        var i :| 0 <= i < |forged| && forged[i] == d;
        assert bad[i] in bad;
      }
      if so :| so in orders && !c.Verifies(so) && c.orderDigest(so.order) == d {
        assert so in bad;
        var i :| 0 <= i < |bad| && bad[i] == so;
        assert Includes(c, bad, d);
      }
    }
  }

  /** The held orders of the proposal's instrument that its digests leave out. */
  function CensoredOf(c: Crypto, proposal: BatchProposal, held: seq<SignedOrder>): seq<Hash> {
    Filter(Digests(c, Filter(held, IsFor(c, proposal.instrumentId))), NotAmong(Digests(c, proposal.orders)))
  }

  ghost predicate Includes(c: Crypto, orders: seq<SignedOrder>, d: Hash) {
    exists k :: 0 <= k < |orders| && c.orderDigest(orders[k].order) == d
  }

  lemma CensoredIff(c: Crypto, proposal: BatchProposal, held: seq<SignedOrder>, d: Hash)
    ensures d in CensoredOf(c, proposal, held)
            <==> !Includes(c, proposal.orders, d)
                 && Holds(c, proposal, held, d)
  {
    var mine := Filter(held, IsFor(c, proposal.instrumentId));
    if Includes(c, mine, d) {
      var k :| 0 <= k < |mine| && c.orderDigest(mine[k].order) == d;
      assert mine[k] in mine;
    }
    if Holds(c, proposal, held, d) {
      var so :| so in held && so.order.instrument == c.instrumentHash(proposal.instrumentId)
                && c.orderDigest(so.order) == d;
      assert so in mine;
      var k :| 0 <= k < |mine| && mine[k] == so;
      assert Includes(c, mine, d);
    }
  }

  lemma CensoredEmptyIff(c: Crypto, proposal: BatchProposal, held: seq<SignedOrder>)
    ensures CensoredOf(c, proposal, held) == []
            <==> forall so :: so in held && so.order.instrument == c.instrumentHash(proposal.instrumentId) ==>
                   Includes(c, proposal.orders, c.orderDigest(so.order))
  {
    var censored := CensoredOf(c, proposal, held);
    forall so | so in held && so.order.instrument == c.instrumentHash(proposal.instrumentId)
      ensures Includes(c, proposal.orders, c.orderDigest(so.order)) || c.orderDigest(so.order) in censored
    {
      CensoredIff(c, proposal, held, c.orderDigest(so.order));
    }
    if censored != [] {
      CensoredIff(c, proposal, held, censored[0]);
      assert censored[0] in censored;
    }
  }

  // ------------------------------------------------------------------ quorum authenticity

  /** One honest review: the proposal, what the reviewer held, and its book parameters. */
  datatype Review = Review(proposal: BatchProposal, held: seq<SignedOrder>, tickSize: posint, minQty: posint)

  /** Honest attesters sign a batch digest only after a review that ended in `Sign` with it, and
      nobody else can sign for them: asked of the digest and the signatures at hand. */
  ghost predicate HonestSigning(c: Crypto, digest: Hash, sigs: seq<Signature>, honest: set<Address>,
                                reviews: map<Address, set<Review>>) {
    forall i :: 0 <= i < |sigs| ==>
      var signer := c.recover(digest, sigs[i]);
      signer.Some? && signer.value in honest ==> Reviewed(c, reviews, signer.value, digest)
  }

  ghost predicate Reviewed(c: Crypto, reviews: map<Address, set<Review>>, a: Address, digest: Hash) {
    a in reviews && exists r :: r in reviews[a] && Approves(c, r, digest)
  }

  predicate Approves(c: Crypto, r: Review, digest: Hash) {
    var v := VerifyProposal(c, r.tickSize, r.minQty, r.proposal, r.held);
    v.Sign? && v.digest == digest
  }

  lemma {:induction false} AscendingDistinct(who: seq<Address>, s: set<Address>)
    requires forall i, j :: 0 <= i < j < |who| ==> who[i] < who[j]
    requires forall i :: 0 <= i < |who| ==> who[i] in s
    ensures |who| <= |s|
  {
    if who != [] {
      var n := |who| - 1;
      AscendingDistinct(who[..n], s - {who[n]});
    }
  }

  /** An accepted quorum larger than the dishonest attesters contains an honest one. */
  lemma QuorumHasHonest(c: Crypto, digest: Hash, sigs: seq<Signature>, attesters: seq<Address>, threshold: nat,
                        honest: set<Address>)
    returns (i: nat)
    requires QuorumHolds(c, digest, sigs, attesters, threshold)
    requires |Elements(attesters) - honest| < threshold
    ensures i < |sigs| && c.recover(digest, sigs[i]).Some? && c.recover(digest, sigs[i]).value in honest
  {
    if forall k :: 0 <= k < |sigs| ==> c.recover(digest, sigs[k]).value !in honest {
      var who := seq(|sigs|, k requires 0 <= k < |sigs| => c.recover(digest, sigs[k]).value);
      AscendingDistinct(who, Elements(attesters) - honest);
      assert false;
    }
    i :| 0 <= i < |sigs| && c.recover(digest, sigs[i]).value in honest;
  }

  /** What an honest review behind the fills of a batch establishes about them. */
  ghost predicate Vouches(c: Crypto, r: Review, fills: seq<BatchFill>) {
    && fills == EpochFills(Params(r.proposal.instrumentId, r.tickSize, r.minQty, c), Plain(r.proposal.orders))
    && (forall j :: 0 <= j < |fills| ==>
          && (exists so :: so in r.proposal.orders && so.order == fills[j].buy && c.Verifies(so))
          && (exists so :: so in r.proposal.orders && so.order == fills[j].sell && c.Verifies(so)))
    && (forall so :: so in r.held && so.order.instrument == c.instrumentHash(r.proposal.instrumentId) ==>
          so.order in Plain(r.proposal.orders))
  }

  lemma FillsAreSigned(c: Crypto, p: Params, orders: seq<SignedOrder>, j: nat)
    requires (forall so :: so in orders ==> c.Verifies(so))
    requires j < |EpochFills(p, Plain(orders))|
    ensures var f := EpochFills(p, Plain(orders))[j];
            && (exists so :: so in orders && so.order == f.buy && c.Verifies(so))
            && (exists so :: so in orders && so.order == f.sell && c.Verifies(so))
  {
    EpochFillsAreGood(p, Plain(orders), j);
    var f := EpochFills(p, Plain(orders))[j];
    var b :| 0 <= b < |orders| && Plain(orders)[b] == f.buy;
    var s :| 0 <= s < |orders| && Plain(orders)[s] == f.sell;
    assert orders[b] in orders && orders[s] in orders;
  }

  /** The hashes tell a review apart from the batch in question: no two of its orders share a digest,
      and its own batch digest and fills hash are those of the batch only if it is the batch. */
  ghost predicate TellsApart(c: Crypto, r: Review, bookId: Hash, nonce: nat, fills: seq<BatchFill>) {
    var p := r.proposal;
    var orders := Plain(p.orders) + Plain(r.held);
    var own := EpochFills(Params(p.instrumentId, r.tickSize, r.minQty, c), Plain(p.orders));
    && c.DigestsDiffer(orders)
    && (c.batchDigest(p.bookId, p.batchNonce, p.fillsHash) == c.batchDigest(bookId, nonce, c.fillsHash(fills)) ==>
          p.bookId == bookId && p.batchNonce == nonce && p.fillsHash == c.fillsHash(fills))
    && (c.fillsHash(own) == c.fillsHash(fills) ==> own == fills)
  }

  /** An approved digest fixes the book, the nonce and the fills, and the review found the proposal
      sound. */
  lemma ApprovalFixes(c: Crypto, r: Review, bookId: Hash, nonce: nat, fills: seq<BatchFill>)
    requires TellsApart(c, r, bookId, nonce, fills)
    requires Approves(c, r, c.batchDigest(bookId, nonce, c.fillsHash(fills)))
    ensures r.proposal.bookId == bookId && r.proposal.batchNonce == nonce && r.proposal.fillsHash == c.fillsHash(fills)
    ensures Sound(c, r.tickSize, r.minQty, r.proposal, r.held)
  {
    SignsExactlySound(c, r.tickSize, r.minQty, r.proposal, r.held);
  }

  lemma SoundVouches(c: Crypto, r: Review, bookId: Hash, nonce: nat, fills: seq<BatchFill>)
    requires TellsApart(c, r, bookId, nonce, fills)
    requires Sound(c, r.tickSize, r.minQty, r.proposal, r.held) && r.proposal.fillsHash == c.fillsHash(fills)
    ensures Vouches(c, r, fills)
  {
    var p := Params(r.proposal.instrumentId, r.tickSize, r.minQty, c);
    assert fills == EpochFills(p, Plain(r.proposal.orders));
    forall j | 0 <= j < |fills|
      ensures exists so :: so in r.proposal.orders && so.order == fills[j].buy && c.Verifies(so)
      ensures exists so :: so in r.proposal.orders && so.order == fills[j].sell && c.Verifies(so)
    {
      FillsAreSigned(c, p, r.proposal.orders, j);
    }
    forall so | so in r.held && so.order.instrument == c.instrumentHash(r.proposal.instrumentId)
      ensures so.order in Plain(r.proposal.orders)
    {
    }
  }

  /** Quorum authenticity. With fewer dishonest attesters than the threshold, signatures that pass
      the verifier for a batch mean some honest attester reviewed these very fills at this book and
      nonce: each order in them carries its trader's signature, the fills are the canonical match
      of the reviewed set, and that set omits no order of the instrument the attester held. */
  lemma QuorumAuthenticity(c: Crypto, bookId: Hash, nonce: nat, fills: seq<BatchFill>, sigs: seq<Signature>,
                           attesters: seq<Address>, threshold: nat, honest: set<Address>,
                           reviews: map<Address, set<Review>>)
    returns (a: Address, r: Review)
    requires HonestSigning(c, c.batchDigest(bookId, nonce, c.fillsHash(fills)), sigs, honest, reviews)
    requires forall a, r :: a in honest && a in reviews && r in reviews[a] ==>
               TellsApart(c, r, bookId, nonce, fills)
    requires |Elements(attesters) - honest| < threshold
    requires QuorumHolds(c, c.batchDigest(bookId, nonce, c.fillsHash(fills)), sigs, attesters, threshold)
    ensures a in honest && a in attesters && a in reviews && r in reviews[a]
    ensures r.proposal.bookId == bookId && r.proposal.batchNonce == nonce && Vouches(c, r, fills)
  {
    var digest := c.batchDigest(bookId, nonce, c.fillsHash(fills));
    var i := QuorumHasHonest(c, digest, sigs, attesters, threshold, honest);
    a := c.recover(digest, sigs[i]).value;
    r :| r in reviews[a] && Approves(c, r, digest);
    ApprovalFixes(c, r, bookId, nonce, fills);
    SoundVouches(c, r, bookId, nonce, fills);
  }
}
