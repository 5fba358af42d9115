# Inference bazaar: a verified model of the market's core

A Dafny 4.11 project that models the parts of the inference bazaar where money, order or
agreement are at stake, and proves what they promise.

The market trades prepaid inference credit. Traders sign limit orders; operators match them in a
price-time-priority book or, for a shared book, in deterministic epoch batches that a quorum of
bonded operators co-signs; holders spend credit through a one-way payment channel of signed
cumulative vouchers, or redeem it against one-shot authorisations.

| file | what it models |
|---|---|
| `OrderBook.dfy`, `BookProperties.dfy`, `BookConservation.dfy` | the native book: matching, resting, cancelling, depth snapshots, and conservation of quantity over runs |
| `SettlementCore.dfy` | signed orders, the stateless fill rules, notional rounding, hashing and recovery as given functions |
| `Matcher.dfy`, `EpochProperties.dfy`, `EpochQueues.dfy`, `EpochPriority.dfy`, `Clearing.dfy` | the epoch matcher, its set-determinism, the validity of its fills, who trades first, its clearing volume |
| `Quorum.dfy`, `Consensus.dfy` | attestation aggregation, the quorum verifier, peer review of proposals, quorum authenticity |
| `Commitment.dfy` | the input-set commitment of the proven path |
| `SpendRail.dfy`, `Gateway.dfy`, `SpendProtocol.dfy` | the operator's spend journal, the consumer's gateway, and the two together over a faulty network |
| `SignedLedger.dfy`, `LedgerSteps.dfy`, `LedgerProperties.dfy`, `LedgerPrints.dfy`, `LedgerExamples.dfy` | the venue's ledger joining book prints to signed orders, what prints outside it, and the runs that break it |
| `Funding.dfy` | quote budgets, the market-making ladder, the single RFQ quote |
| `Router.dfy` | the smart order router |
| `RateLimit.dfy` | the token-bucket limiter |
| `Redeem.dfy` | redemption serving under interleaving |
| `Sorting.dfy`, `Wrappers.dfy` | shared helpers |

`dafny verify dfyconfig.toml` checks everything.

## How it is built

Code that works by changing things in place is modelled by classes and loops (`NativeBook`,
`SpendSvc`, `GatewaySvc`, `SignedVenue`, `RateLimiter`, `RedeemSvc`, the matcher's, router's,
quorum's and ladder's loops). Each such method is proved equal to a recursive specification
function, and the promises are proved about those functions: over every input, every run or every
interleaving.

- Identifiers, addresses, hashes and digests are natural numbers; text labels of the original (`o3`,
  `ord-7`, a hex digest) become the constructors `Local` and `Digest`. The zero address is 0.
- Keccak, EIP-712 digests and signer recovery are functions in the record `Crypto`. Where a theorem
  needs collision freedom or unforgeability it says so in its `requires`.
- A book has a tick and a minimum quantity of at least one (type `posint`).
  A tick of zero divides by zero in the original; a minimum below one admits orders of no or negative
  quantity.
- Time is a parameter, and readings may enter in any order; where a result needs an order, it says so in
  its `requires`. The limiter's clock and token counts are exact reals.

## What the proofs found

Each of these is a lemma, with the exact condition and a concrete run or input.

- **A lost reply bricks a spend channel.** The operator serves the next request only if everything
  metered so far is acknowledged, and the gateway learns what was metered only from the reply. In any
  run, once the gateway no longer waits and has received no reply since a completion, the channel is
  wedged if and only if that completion metered anything, whether the gateway gave up before it, after
  it, or never asked: no later request is ever served, and the difference is never settled
  (`UnreceivedReplyWedgesIff`, `UnawaitedFinishWedgesIff`, `LostReplyWedges`, `WedgeIsForever`, with the
  run `WedgeIsReachable`). A lost trailing acknowledgement, by contrast, costs nothing
  (`AdmittedIffAcknowledged`).
- **Metering past max_tokens bricks it too.** The gateway caps what it signs at the request's own
  max_tokens but the operator meters whatever usage is reported, up to the quota, and for a lot that
  bills input tokens that is the prompt; a channel survives a delivered completion exactly when the
  metered amount is within the cap (`CompletionSettlesOrWedges`, with the run `OverMeteringWedges`).
- **A buy naming a lot trades but never settles.** Intake does not check the lot of a buy, the pair
  rules refuse it, and the venue logs the print as impossible. A print between two signed orders is
  queued exactly when the buy's lot is zero (`PrintSettlesIff`, `LotBuyTradesUnsettled`).
- **A signed order can trade more than it signed for.** The venue counts only what it queues. A print
  against an unsigned party, or against a buy that names a lot, is not counted, so the same signed
  order may be accepted again. In every run what an order has traded and still offers stays within its
  signed size if and only if, whenever it was accepted, the venue's counter covered all it had printed
  (`TradesWithinSignedIff`); with placements in clock order, if and only if every print naming it
  before an acceptance was between two signed orders whose buy names no lot (`TradesWithinCountedIff`).
  A venue that sees only such orders is safe (`PlainVenueTradesWithin`); one run is not
  (`SignedOrderTradesTwice`).
- **A late clock reading puts a filled order back.** Placements read the clock before they take the
  lock. One that read an earlier time than another already inside can be accepted although its order
  has filled, expired and been forgotten. The ledger holds in every run up to exactly such an
  acceptance (`LedgerHoldsIff`); placements that enter in clock order, or whose orders outlive every
  reading so far, never cause one (`TimelyNeverRefills`, `LedgerAlwaysHolds`), and `LateClockRefills` is
  a run that does.
- **The limiter's window depends on clock order too.** In any order of readings a client is admitted at
  most the capacity plus what refills over their forward movement (`AnyOrderBound`); only in order is
  that the time elapsed (`WindowBound`). A late reading refills the same seconds again
  (`LateReadingRefillsAgain`) and can make an eviction show (`LateReadingShowsEviction`).
- **Not every epoch fill settles.** The matcher does not look at side codes, lots or expiries; an epoch
  fill settles exactly when its sell has side 1, its buy no lot, and neither has expired
  (`EpochFillSettlesIff`). An input of unexpired plain sells and zero-lot buys is enough
  (`PlainInputSettles`), for two crossing orders it is also necessary (`PairSettlesIffPlain`), and two
  inputs fail (`LotBuyFillsUnsettled`, `OddSideFillsUnsettled`). Everything else the pair rules ask,
  the matcher guarantees.
- **Overlapping redemption serves lose tokens.** Under one spelling of its id, a completion writes the total it computed from its own
  reservation. The recorded total is the reported one exactly when no other serve recorded a different
  total in between (`RecordedIsDeliveredIff`, `OverlapDeliversTwice`); with one serve at a time it is.
  The total even moves back, exactly when a completion metered less than others recorded since its
  reservation, and the quota reopens (`CompletionRegressesIff`, `RegressReopensQuota`).
- **One redemption has as many entries as it has spellings.** An authorisation names the redemption an
  id parses to, but progress is kept under the id as the client wrote it. The same request under
  another spelling passes the same gate and is refused as used exactly when the entry of that spelling
  holds its digest (`RespelledRequest`). Under a set of spellings every authorisation backs at most one
  completed serve in every run if and only if they are all the same spelling
  (`ServedOnceIffOneSpelling`, with the run `TwoSpellingsServeTwice`).
- **Aggregation and verification differ at the edges.** What the proposer aggregates passes the
  verifier unless the threshold is zero or a bonded address is zero (`AggregateMeetsVerifier`, with the
  inputs `ZeroThresholdRefused` and `ZeroEndorserRefused`).

## Model

| member | source | states |
|---|---|---|
| `OrderBook.NativeBook.Place` | crates/orderbook/src/native.rs:138-205 | the in-place placement computes exactly `PlaceIn`: same rejections in the same order, otherwise the recursive sweep of the opposing side and the remainder rested |
| `OrderBook.NativeBook.Match` | crates/orderbook/src/native.rs:143-190 | the matching loop terminates and equals the recursive walk that drops own makers and fills heads, although a self-match leaves the taker unchanged |
| `OrderBook.NativeBook.Insert` | crates/orderbook/src/native.rs:76-99 | a resting order goes just before the first order it may overtake |
| `OrderBook.NativeBook.Cancel` | crates/orderbook/src/native.rs:207-209 | removes the first order with the id, bids before asks, and reports whether there was one |
| `OrderBook.NativeBook.LevelsOf` | crates/orderbook/src/native.rs:110-130 | the early-exit loop gives the first `depth` of all price levels |
| `BookProperties.SweepConsumes` | crates/orderbook/src/native.rs:146-190 | a sweep uses up a prefix of crossing makers and at most bites into the next; it stops only when done, empty or not crossing |
| `BookProperties.FillsAreSound` | crates/orderbook/src/native.rs:166-182 | every print is positive, within the taker's limit, at a maker's own price and size, between two owners |
| `BookProperties.TakerConserved` | crates/orderbook/src/native.rs:146-204 | printed plus remaining quantity is what the taker asked for |
| `BookProperties.MakerConserved` | crates/orderbook/src/native.rs:165-189 | each maker is split between prints and the book; the taker owner's own makers never print and are kept whole or cancelled |
| `BookProperties.AheadFillsFirst` | crates/orderbook/src/native.rs:155-189 | nobody prints while another owner's maker ahead in the queue keeps any quantity |
| `BookProperties.PricesWorsen` | crates/orderbook/src/native.rs:146-190 | execution prices never improve within a sweep |
| `BookProperties.PriceTimePriority` | crates/orderbook/src/native.rs:9-13 | on a real book, an order with better price, or equal price and earlier time, is filled completely before a worse one prints |
| `BookProperties.PlaceConservesTaker` | crates/orderbook/src/native.rs:192-204 | what printed plus what rests under the order's id is its quantity |
| `BookProperties.PlaceConservesMaker` | crates/orderbook/src/native.rs:165-189 | the same split per opposing order, read off the book after the placement |
| `BookProperties.PlacePrices` | crates/orderbook/src/native.rs:158-189 | prints of one placement stay inside the limit and worsen monotonically |
| `BookProperties.PlaceReports` | crates/orderbook/src/native.rs:178-204 | what rests is the order with exactly what did not print, and the last trade price is the final print's |
| `BookProperties.PlaceAcceptsIff` | crates/orderbook/src/native.rs:138-142 | exactly which orders a book accepts; a refusal changes nothing |
| `BookProperties.PlaceKeepsInvariant` | crates/orderbook/src/native.rs:138-205 | placing keeps both sides sorted by price then time, quantities positive, ids unique across sides, and the book uncrossed |
| `BookProperties.CancelKeepsInvariant` | crates/orderbook/src/native.rs:207-209 | cancelling keeps the same invariant |
| `BookProperties.CancelRemovesOnly` | crates/orderbook/src/native.rs:101-108 | cancelling removes exactly the named order |
| `BookProperties.RunKeepsInvariant` | crates/orderbook/src/native.rs:133-209 | every run of placements and cancellations keeps the book invariant |
| `BookConservation.PlaceResting` | crates/orderbook/src/native.rs:138-205 | per id, a placement turns resting and placed quantity into prints and rest; only a self-match cancels any |
| `BookConservation.RunConserves` | crates/orderbook/src/native.rs:138-209 | over every run, what printed under an id and what rests never exceed what rested and was accepted |
| `BookConservation.RunNeverOverfills` | crates/orderbook/src/native.rs:138-209 | from the empty book: never more than was accepted under the id |
| `BookConservation.RunConservesExactlyIff` | crates/orderbook/src/native.rs:138-209 | what was accepted under an id is exactly what printed and rests, if and only if no operation cancelled any of it, by name or by self-match |
| `BookProperties.SnapshotIsTrue` | crates/orderbook/src/native.rs:110-130 | a snapshot lists the best min(depth, prices) levels, strictly ordered, each with the true total and count, omitting only worse prices |
| `BookProperties.RunSnapshotIsTrue` | crates/orderbook/src/native.rs:219-226 | so it does on both sides after any run from the empty book, omitted prices included |
| `SettlementCore.CostRounds` | crates/settlement-core/src/lib.rs:284-288 | half-up rounding moves a notional by at most half a unit |
| `SettlementCore.PairSettlesIff` | crates/settlement-core/src/lib.rs:252-282 | a pair settles exactly when it is a plain buy and sell of one instrument by two traders, unexpired, inside both limits and both sizes |
| `Sorting.SortAscends` | crates/matcher/src/lib.rs:116-119 | sorting by key leaves no later element with a smaller key |
| `Sorting.SortPermutes` | crates/matcher/src/lib.rs:116-119 | and keeps every element as often as it occurred |
| `Sorting.StrictSortUnique` | crates/matcher/src/lib.rs:113-119 | a strictly sorted sequence is determined by its set of elements |
| `Matcher.Canonicalise` | crates/matcher/src/lib.rs:89-111 | the loop keeps the matchable orders, each digest once |
| `Matcher.MatchEpoch` | crates/matcher/src/lib.rs:80-169 | the replay through a labelled book with an id map yields exactly the direct crossing of the canonical feed, with its hash |
| `Matcher.Pair` | crates/matcher/src/lib.rs:147-164 | the inner loop names both orders of every print; the skipping branch is never taken |
| `Matcher.SweepStandsForCross` | crates/matcher/src/lib.rs:121-165 | a sweep of labelled book orders stands for the crossing of the signed orders they name |
| `Matcher.PlaceStandsForStep` | crates/matcher/src/lib.rs:127-146 | one labelled placement is one crossing step, rejected exactly when the order is off tick, unpriced or below minimum |
| `EpochProperties.SetDeterminism` | crates/matcher/src/lib.rs:7-15 | inputs with the same set of valid orders give the same fills and hash, whatever their order, duplicates or invalid extras |
| `EpochProperties.EpochFillsAreGood` | crates/matcher/src/lib.rs:147-164 | every fill names two valid input orders of different traders, within both limits and both sizes |
| `EpochProperties.EpochFillSettlesIff` | crates/settlement-core/src/lib.rs:252-282 | an epoch fill passes the pair rules exactly when its sell has side 1, its buy no lot, and neither has expired |
| `EpochProperties.PlainInputSettles` | crates/settlement-core/src/lib.rs:252-282 | if every valid input order is an unexpired sell or zero-lot buy, every fill of the epoch settles |
| `EpochProperties.PairSettlesIffPlain` | crates/settlement-core/src/lib.rs:252-282 | for two crossing orders that condition is also necessary |
| `EpochProperties.LotBuyFillsUnsettled` | crates/matcher/src/lib.rs:89-111 | an epoch of a plain sell and a buy naming a lot, whose fill never settles |
| `EpochProperties.OddSideFillsUnsettled` | crates/matcher/src/lib.rs:117-134 | an epoch of a buy and an order of side 2, placed as a sell, whose fill never settles |
| `EpochProperties.NeverOverfilled` | crates/matcher/src/lib.rs:124-166 | the fills naming an order sum to at most its signed quantity |
| `Clearing.EpochIsLifting` | crates/matcher/src/lib.rs:121-165 | with plain sides an epoch rests every sell and then lifts with every buy |
| `Clearing.ClearingNeverExceeds` | crates/matcher/src/lib.rs:113-166 | some single price could clear everything an epoch prints, self-matches or not |
| `Clearing.ClearingIsMost` | crates/matcher/src/lib.rs:113-166 | without self-crossing traders no single price could clear more |
| `Clearing.ClearingVolume` | crates/matcher/src/lib.rs:113-166 | the printed volume is the maximum over prices of min(demand, supply) |
| `Clearing.EpochPaysSellPrice` | crates/matcher/src/lib.rs:17-19 | with plain sides every fill executes at the sell's own limit |
| `EpochPriority.CheaperSellFirst` | crates/matcher/src/lib.rs:113-119 | on any input, of two valid sells the cheaper, at equal prices the lower digest, trades in full before the other trades at all, unless a buy of its own trader reaches it |
| `EpochPriority.DearerBuyFirst` | crates/matcher/src/lib.rs:113-119 | of two valid buys the dearer, at equal prices the lower digest, likewise, unless an odd-sided order of its own trader reaches it |
| `EpochPriority.OwnBuyForfeitsPriority` | crates/orderbook/src/native.rs:165-169 | that exception is real: a concrete epoch in which a trader's own buy cancels its sell and the later sell is filled |
| `EpochPriority.FeedFillsFirst` | crates/matcher/src/lib.rs:121-165 | in any replay, an order fed earlier at no worse a price trades in full before a later one of its side, resting or taking, if nothing of its own trader cancels it |
| `Quorum.VerifyQuorum` | crates/settlement/src/lib.rs:224-244 | accepts exactly: threshold at least one and met, all recovered signers attesters, non-zero and strictly ascending |
| `Quorum.AggregateAttestation` | crates/matcher/src/consensus.rs:164-186 | returns a list exactly when enough distinct bonded operators validly attest, one signature each, ascending |
| `Quorum.AggregateMeetsVerifier` | crates/matcher/src/consensus.rs:155-163 | an aggregate passes the verifier unless the threshold or an endorser is zero |
| `Quorum.ZeroThresholdRefused` | crates/settlement/src/lib.rs:224-230 | at a zero threshold the empty aggregate is refused |
| `Quorum.ZeroEndorserRefused` | crates/settlement/src/lib.rs:231-244 | the attestation of a bonded zero address aggregates and is refused |
| `Quorum.SubmitReadyPassesIff` | crates/settlement/src/lib.rs:222-244 | exactly when an ascending one-each list passes the verifier |
| `Quorum.SortQuorumSigsReady` | crates/settlement/src/lib.rs:246-253 | sorting and deduplicating any collection gives exactly its signers, one each, ascending |
| `Quorum.SortedSigsPassIff` | crates/settlement/src/lib.rs:246-253 | the sorted collection passes the verifier exactly when it holds enough distinct signers, all attesters, none zero |
| `Consensus.SignsExactlySound` | crates/matcher/src/consensus.rs:92-153 | a peer signs exactly the authentic, reproducible and complete proposals, reports exactly the forged or exactly the omitted digests, and a mismatch exactly when nothing is forged and the hash differs; what it signs is the proposal's digest, with the epoch's own fills |
| `Consensus.QuorumHasHonest` | crates/settlement/src/lib.rs:222-244 | an accepted quorum with fewer dishonest attesters than the threshold contains an honest signer |
| `Consensus.QuorumAuthenticity` | crates/matcher/src/consensus.rs:16-20 | then every order in the fills carries its trader's signature and the fills are the match of a set holding every order of the instrument that honest signer held |
| `Commitment.OrdersCommitment` | crates/settlement-core/src/lib.rs:189-198 | the loop hashes the concatenated canonical digests |
| `Commitment.CanonicalDigestsMeaning` | crates/settlement-core/src/lib.rs:189-192 | these are the digests of exactly the orders present, each once, numerically ascending |
| `Commitment.BigEndianDigit` | crates/settlement-core/src/lib.rs:193-196 | byte i of a digest is its digit of weight 256 to the power 31 - i |
| `Commitment.ConcatInjective` | crates/settlement-core/src/lib.rs:193-196 | fixed-width digests laid end to end decode uniquely |
| `Commitment.CommitmentIsCanonical` | crates/settlement-core/src/lib.rs:171-180 | two inputs whose digests are 32 bytes and tell their orders apart, and whose buffers keccak tells apart, commit to the same value exactly when they hold the same set of orders |
| `Commitment.TwoOrdersCommitApart` | crates/settlement-core/src/lib.rs:171-180 | these hypotheses can be met for any two different orders, with different commitments |
| `Gateway.RouteListsEligible` | operator/src/bin/gateway.rs:99-111 | a route lists each eligible channel once and nothing else, most urgent expiry first |
| `Gateway.RouteByExpiry` | operator/src/bin/gateway.rs:73-111 | stated outright: model, quota and expiry margin decide who is routed to, soonest expiry first, no expiry last, equals in configured order |
| `Gateway.FailoverAnswers` | operator/src/bin/gateway.rs:282-348 | the client gets the answer of the first channel that completes or calls the request bad, otherwise that of the last one |
| `Gateway.CompletionAdvances` | operator/src/bin/gateway.rs:127-151 | a completion moves the acknowledged total to its claim, never back and never past the request's cap, and sends the trailing voucher |
| `Gateway.PaymentRequiredDrains` | operator/src/bin/gateway.rs:307-316 | a 402 takes a channel with a known cap out of every later route; other failures change no channel |
| `Gateway.GatewaySvc.Chat` | operator/src/bin/gateway.rs:263-348 | the failover loop tries the route in order, signs the current total on each, and ends at the first completion or client error |
| `Gateway.GatewaySvc.Ask` | operator/src/bin/gateway.rs:287-335 | one turn of that loop, including the local drain on a 402 |
| `Gateway.GatewaySvc.Advance` | operator/src/bin/gateway.rs:132-151 | the acknowledged total advances to the capped claim only if that is newer, and the trailing voucher is signed |
| `Gateway.ChatIsBounded` | operator/src/bin/gateway.rs:438-443 | one request keeps every voucher within the start plus granted max_tokens and never signs on a drained channel |
| `Gateway.BillingIsBounded` | operator/src/bin/gateway.rs:13-15 | so does any sequence of requests against any operators |
| `SpendRail.SpendSvc.Authorize` | operator/src/spend.rs:341-450 | the gate decides as `Admit` and on success records the voucher unless a later one is held |
| `SpendRail.AdmitsIff` | operator/src/spend.rs:341-450 | exactly which requests are served, and under which cap |
| `SpendRail.AcksIff` | operator/src/spend.rs:603-667 | exactly which trailing acknowledgements are kept |
| `SpendRail.SpendSvc.Complete` | operator/src/spend.rs:461-500 | bills exactly the tokens used, or what is left of the permit if that is less, and reports the new total |
| `SpendRail.SpendSvc.Ack` | operator/src/spend.rs:603-667 | accepts exactly vouchers signed by the key, within the cap and not ahead of service, keeping the newest |
| `SpendRail.SpendSvc.Settle` | operator/src/spend.rs:763-770 | a landed settlement sets the settled total and reports the 64-bit difference |
| `SpendProtocol.FlushNeverUnderflows` | operator/src/spend.rs:735-770 | in every run a settlement in flight is for more than is settled, so that difference is the true one |
| `SpendProtocol.FlushCatchesUp` | operator/src/spend.rs:735-770 | a flush can start exactly when a signed voucher is ahead of what is settled, and once landed has settled it |
| `SpendProtocol.FinishBillsUsage` | operator/src/spend.rs:481-500 | a completion raises the served total by exactly what was used, or to exactly the permit's maximum, and the gateway is told that total |
| `SpendRail.SpendSvc.ReconcileRevocations` | operator/src/spend.rs:829-844 | the removal loop leaves nothing of any dropped session in the four maps and every other session exactly as it was |
| `SpendRail.DroppedIsRefused` | operator/src/spend.rs:783-791 | a dropped channel is admitted no request and no acknowledgement and settles nothing; every other channel is decided as before |
| `SpendProtocol.StepKeeps` | operator/src/spend.rs:341-458 | every step of either party keeps the channel invariant |
| `SpendProtocol.ChannelAlwaysSafe` | operator/src/spend.rs:1-16 | in every run: settled <= voucher <= acked <= served <= cap, and unacknowledged service is at most the last request's usage |
| `SpendProtocol.TotalsNeverRegress` | operator/src/spend.rs:430-442 | none of the four totals ever moves back |
| `SpendProtocol.AdmittedIffAcknowledged` | operator/src/spend.rs:396-419 | the next request is served exactly when everything served is acknowledged and quota is left, and serving it makes everything settleable |
| `SpendProtocol.WedgedStep` | operator/src/spend.rs:396-404 | no step moves a wedged channel's served or acknowledged total |
| `SpendProtocol.WedgeIsForever` | operator/src/spend.rs:396-404 | a wedged channel stays wedged in every continuation, and its unacknowledged tokens are never settled |
| `SpendProtocol.UnreceivedReplyWedgesIff` | operator/src/bin/gateway.rs:282-337 | in any run, once the gateway no longer waits and has received no reply since a completion, the channel is wedged exactly when that completion metered anything |
| `SpendProtocol.UnawaitedFinishWedgesIff` | operator/src/bin/gateway.rs:327-335 | a completion nobody waits for, given up on before or answering a repetition, wedges the channel exactly when it metered anything |
| `SpendProtocol.LostReplyWedges` | operator/src/bin/gateway.rs:327-335 | a completion that was awaited and is then given up on wedges it exactly when it metered anything |
| `SpendProtocol.TimeoutThenFinishWedges` | operator/src/bin/gateway.rs:327-335 | and so does one given up on first and completed later |
| `SpendProtocol.CompletionSettlesOrWedges` | operator/src/bin/gateway.rs:127-151 | a delivered completion is fully acknowledged exactly when it metered within the request's max_tokens, and wedges the channel otherwise |
| `SpendProtocol.WedgeIsReachable` | operator/src/bin/gateway.rs:282-337 | a run from registration that ends wedged |
| `SpendProtocol.OverMeteringWedges` | operator/src/spend.rs:481-488 | a run without a lost message that ends wedged: two tokens metered for a request capped at one |
| `SignedLedger.SignedVenue.Place` | operator/src/market.rs:234-295 | intake checks in order, pruning, the remaining quantity with its word-size wrap, placement and pairing |
| `SignedLedger.SignedVenue.PruneExpired` | operator/src/market.rs:814-834 | cancels and forgets exactly the expired orders, in any iteration order |
| `LedgerProperties.PruneForgetsExpired` | operator/src/market.rs:814-834 | of the live orders, counters and resting quantity exactly the expired orders' are gone; unsigned orders stay |
| `LedgerProperties.IntakeIff` | operator/src/market.rs:234-275 | exactly which signed orders are accepted, word-size wraps included; a refusal changes nothing but what pruning does |
| `SignedLedger.SignedVenue.PairBookFills` | operator/src/market.rs:111-145 | joins each print of two signed orders into a queued fill or skips it |
| `LedgerSteps.PairFillsMove` | operator/src/market.rs:129-135 | an order's counter and the fills queued for it move together, by at most what printed |
| `LedgerSteps.PruneKeeps` | operator/src/market.rs:814-834 | pruning at any time keeps the ledger and leaves only orders alive at that time |
| `LedgerProperties.PlaceSignedKeepsIff` | operator/src/market.rs:234-295 | a placement at any clock reading keeps the ledger exactly unless it accepts an order no longer live that has fills queued |
| `LedgerProperties.RunKeepsVenue` | operator/src/market.rs:101-145 | in every run, clock readings in any order: a good book whose signed orders are verified and linked to their terms |
| `LedgerProperties.LedgerHoldsIff` | operator/src/market.rs:101-151 | in every run, filled plus resting within the signed size and counters equal to what was queued, up to any moment, exactly if no such acceptance came before |
| `LedgerProperties.TimelyNeverRefills` | operator/src/market.rs:237-253 | a placement in clock order, or of an order outliving every reading so far, is never such an acceptance |
| `LedgerProperties.LedgerAlwaysHolds` | operator/src/market.rs:101-109 | in every run of such placements each live order has filled plus resting at most its signed size, and its counter is the quantity queued for it |
| `LedgerExamples.LateClockRefills` | operator/src/market.rs:237-253 | a run in which a reading that enters late puts a filled, expired and forgotten order back for its full size |
| `LedgerProperties.PrintSettlesIff` | operator/src/market.rs:137-141 | a print of two signed orders is queued exactly when the buy names no lot |
| `LedgerProperties.LotBuyTradesUnsettled` | operator/src/market.rs:137-141 | a concrete pair of orders that trade in full with nothing queued |
| `LedgerPrints.StepQueues` | operator/src/market.rs:111-145 | one operation queues, for any digest, exactly the prints naming it that are between two signed orders whose buy names no lot |
| `LedgerPrints.StepQueuesFills` | crates/settlement/src/lib.rs:60-90 | an operation appends to the queue exactly one fill per counting print, in order: the two signed orders it names, at the printed quantity and price |
| `LedgerPrints.RunQueuesFills` | operator/src/market.rs:111-145 | in every run the queue is exactly the counting prints so far |
| `LedgerPrints.ExposureStep` | operator/src/market.rs:146-151 | an acceptance sets what an order has traded and offers to its signed size plus what it printed beyond the counter; no other operation raises it |
| `LedgerPrints.TradesWithinSignedIff` | operator/src/market.rs:146-151 | in every run that stays within the signed size exactly if at each acceptance the counter covered all the order had printed |
| `LedgerPrints.TradesWithinCountedIff` | operator/src/market.rs:111-145 | with timely placements, exactly if each print naming it before an acceptance was between two signed orders whose buy names no lot |
| `LedgerPrints.PlainVenueTradesWithin` | operator/src/market.rs:234-295 | with nothing unsigned and no lot-naming buys no order ever trades more than it signed for |
| `LedgerExamples.SignedOrderTradesTwice` | operator/src/market.rs:259-268 | a run in which a ten-token signed order trades twenty |
| `Funding.AffordableFits` | operator/src/market.rs:450-457 | what a budget affords never costs more than the budget, rounding included |
| `Funding.AffordableIsTight` | operator/src/market.rs:450-457 | one token more would use the budget up, machine limits aside |
| `Funding.BudgetsAreTight` | operator/src/market.rs:777-790 | the budgets are all the chain backs: one unit more would not be covered |
| `Funding.QuoteTick` | operator/src/venue.rs:594-665 | the nested ladder loops sign exactly the levels of `TickOf`, bids first, ending at a refusal by the book |
| `Funding.LadderQuotes` | operator/src/venue.rs:595-630 | each quote of a side is that of a level, in order from the touch: its price the touch less (bid) or plus (ask) level steps, its size what the level asks and the funds then left afford; a missing level has no positive price, too small a size, or comes after a refusal |
| `Funding.TickQuotes` | operator/src/venue.rs:594-665 | a tick is the bids' ladder, then the asks'; a refused bid leaves no asks |
| `Funding.QuotesStepAway` | operator/src/venue.rs:599-603 | no quote is better for the taker than the rounded touch, each is whole steps away from it, later ones further |
| `Funding.RoundIsNearest` | operator/src/venue.rs:613-620 | rounding is to the nearest, halves up, within the word |
| `Funding.LadderAccounted` | operator/src/venue.rs:609-629 | what is left plus the cost of what was signed is what was granted, so no subtraction saturates |
| `Funding.TickIsFunded` | operator/src/venue.rs:592-594 | after a tick each side that signed is covered by the chain, outstanding commitments and penalty included |
| `Funding.RfqQuoteIsFunded` | operator/src/market.rs:408-465 | a single quote is on tick on the operator's side, no larger than asked, and covered the same way |
| `Funding.RfqQuoteIff` | operator/src/market.rs:408-465 | exactly when a single quote is given, and its exact size |
| `Router.PlanRoute` | app/src/lib/router.ts:55-103 | the loop plans exactly the walk's takes, coalesced into legs |
| `Router.TakesAllocate` | app/src/lib/router.ts:65-83 | the walk takes only from eligible levels and never more than a level offers |
| `Router.TakesFill` | app/src/lib/router.ts:65-83 | on a sorted ladder it fills exactly min(requested, depth within the limit) |
| `Router.LegsTotals` | app/src/lib/router.ts:74-79 | coalescing keeps quantity and gross |
| `Router.LegsByVenue` | app/src/lib/router.ts:74-79 | per operator and price the legs carry exactly what was taken there |
| `Router.PlanStaysOnOffer` | app/src/lib/router.ts:65-81 | so no route asks an operator for more than it offers at a price, and no two legs in a row share venue and price |
| `Router.AverageRoundsDown` | app/src/lib/router.ts:84-92 | the stated average is the unrounded gross over the quantity, rounded down |
| `Router.NotionalRounds` | app/src/lib/router.ts:41-45 | per-leg rounding moves the total by at most half a unit per leg |
| `Router.GreedyIsOptimal` | app/src/lib/router.ts:47-54 | no split of the same total over eligible levels is cheaper to buy or dearer to sell |
| `Router.PlanIsBest` | app/src/lib/router.ts:83-102 | the returned route has all of these properties at once |
| `RateLimit.RateLimiter.Check` | operator/src/ratelimit.rs:58-78 | evicts, refills, then spends or refuses with a hint |
| `RateLimit.EvictKeepsAvailable` | operator/src/ratelimit.rs:60-64 | eviction changes nobody's allowance, now or later |
| `RateLimit.SpentInAnyOrder` | operator/src/ratelimit.rs:69-77 | readings in any order, what a client is admitted is at most its allowance plus what refills over their forward movement |
| `RateLimit.AnyOrderBound` | operator/src/ratelimit.rs:58-78 | so in any window at most capacity plus that refill |
| `RateLimit.WindowBound` | operator/src/ratelimit.rs:58-78 | with readings in order one client is admitted in any window at most capacity plus refill times elapsed |
| `RateLimit.LateReadingRefillsAgain` | operator/src/ratelimit.rs:69-73 | a run of three requests in which a late reading doubles what is admitted in no time |
| `RateLimit.EvictionIsUnobservable` | operator/src/ratelimit.rs:60-64 | with readings in order every decision is that of a limiter that never evicts |
| `RateLimit.LateReadingShowsEviction` | operator/src/ratelimit.rs:60-64 | out of order it need not be |
| `RateLimit.RetryHintIsExact` | operator/src/ratelimit.rs:57-77 | a refused affordable request is admitted after the hinted seconds, whatever others do meanwhile with readings in order, and not a whole second earlier |
| `Redeem.RedeemSvc.ReserveAuth` | operator/src/redeem.rs:300-309 | consumes an unused authorisation and reads the served total, under one lock |
| `Redeem.RedeemSvc.ReleaseAuth` | operator/src/redeem.rs:310-321 | frees it again |
| `Redeem.RedeemSvc.RecordServe` | operator/src/redeem.rs:364-389 | writes the reservation's total plus what was metered within what it saw left |
| `Redeem.RedeemSvc.BeginServe` | operator/src/redeem.rs:227-327 | gate, reservation and quota in order, on the entry of the spelling alone |
| `Redeem.GateOpensIff` | operator/src/redeem.rs:227-294 | what reaches the reservation: a current authorisation the holder signed, for an open redemption in its deadline, on a lot this operator issued |
| `Redeem.BeginReservesOnce` | operator/src/redeem.rs:297-327 | a refused serve leaves no trace; one goes on exactly when the gate opens, the authorisation is unused and quota is left |
| `Redeem.BeginIsStart` | operator/src/redeem.rs:297-327 | beginning a serve is a step of the interleaving: start, start and fail, or none |
| `Redeem.EntryIsSafe` | operator/src/redeem.rs:297-309 | in every interleaving under one spelling an authorisation backs at most one serve and the recorded total never exceeds the redemption |
| `Redeem.ServingIsSafe` | operator/src/redeem.rs:297-309 | in every interleaving under any spellings so it is under each of them, and for the redemption if they are all one |
| `Redeem.RespelledRequest` | operator/src/redeem.rs:227-309 | under another spelling the same request has the same digest, passes the same gate, and is refused as used exactly when that spelling's entry holds the digest |
| `Redeem.TwoSpellingsServeTwice` | operator/src/redeem.rs:300-309 | a run in which one authorisation is served in full under each of two spellings |
| `Redeem.ServedOnceIffOneSpelling` | operator/src/redeem.rs:297-309 | every run under a set of spellings serves each authorisation at most once exactly if they are all the same |
| `Redeem.FailedMayRetry` | operator/src/redeem.rs:340-356 | a failed serve frees its authorisation for the same request |
| `Redeem.RecordedIsDeliveredIff` | operator/src/redeem.rs:381-389 | the recorded total is the reported one throughout a run exactly when every completion is up to date |
| `Redeem.CompletionRecords` | operator/src/redeem.rs:364-389 | a completion records every token used on top of the total its reservation saw, up to the redemption, with its own work and time |
| `Redeem.OneAtATimeIsUpToDate` | operator/src/redeem.rs:381-389 | with one serve at a time it is, and never exceeds the redemption |
| `Redeem.OverlapDeliversTwice` | operator/src/redeem.rs:381-389 | a run of two overlapping serves reporting twice what is recorded |
| `Redeem.CompletionRegressesIff` | operator/src/redeem.rs:378-389 | a completion moves the recorded total back exactly when it metered less than others recorded since its reservation |
| `Redeem.RegressReopensQuota` | operator/src/redeem.rs:378-389 | a run in which it falls from ten to zero and the ten are served again |

## Left out

- Keccak, EIP-712 encoding, secp256k1 and signature formats: given functions in `Crypto` and `Recovery`.
- Sixty-four-bit overflow of book totals (`levels` sums, `mid`): quantities in the book are unbounded integers; word-size wraps are modelled where orders enter it.
- HTTP, JSON, server-sent events, journaling to disk, metrics, environment configuration, RPC retry, networking.
- The settlement contract and the proving guest: only their off-chain mirrors are modelled.
- Proposer election, credit selection, instrument listing, mid prices: easy members.
- The shared pool of pending orders in the operator's clob driver: its defining module is not part of this model.
- Several instruments at one venue: the ledger is per instrument; the digest of an order fixes its instrument, so instruments do not interact.
- RFQ fills, the operator's own quotes in the ledger, and draining the settlement outbox: `outbox` here is every fill ever queued.
- Concurrent requests on one spend channel, concurrent flushers, and dropping and re-registering the modelled channel: the protocol has one request in service and one flush at a time, and only other channels may be dropped. `authorize` is one step, although it takes its lock twice; nothing else writes the served total in between.
- A gateway restart that loses its journal: the acknowledged total survives here.
- Floating point: ladder prices and sizes and the limiter's tokens are exact reals.
- The computation of outstanding commitments: an input of the funding bounds, which hold for any value of it.
- The attestation pump and receipt submission of redemptions; the interleaving of serves is on a redemption that stays open.
- How a redemption id is read: any function from spellings to redemptions.
- Inventory tracking and settlement intents.
