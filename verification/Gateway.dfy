/** The consumer's gateway: routing over a wallet of spend channels, and the bound on what it will
    ever sign, whatever the operators claim. */
module Gateway {
  import opened Wrappers
  import opened Sorting

  const EXPIRY_MARGIN_SECS: nat := 120
  const PAYMENT_REQUIRED: nat := 402
  const BAD_REQUEST: nat := 400
  const UNPROCESSABLE_ENTITY: nat := 422
  const BAD_GATEWAY: nat := 502

  /** One credit lot at its operator. A cap of zero means unknown, an expiry of zero means none. */
  datatype Channel = Channel(session: nat, model: Option<string>, maxTokens: nat, expiry: u64, acked: nat) {
    predicate ServesModel(requested: Option<string>) {
      model.None? || requested.None? || model == requested
    }

    predicate HasQuota() {
      maxTokens == 0 || acked < maxTokens
    }

    predicate Live(now: nat) {
      expiry == 0 || now + EXPIRY_MARGIN_SECS < expiry
    }
  }

  /** What an operator answers: nothing, an error status, or a completion that may claim a new
      cumulative total. */
  datatype Reply = Unreachable | Status(code: nat) | Completed(nextCumulative: Option<nat>)

  datatype Outcome = ServedBy(channel: nat) | Returned(code: nat)

  /** The cumulative the gateway will sign for, given the operator's claim. */
  function CappedNext(acked: nat, claimed: nat, maxDelta: nat): nat {
    Min(claimed, Min(acked + maxDelta, U64_MAX))
  }

  /** A voucher signed on a channel. */
  datatype Voucher = Voucher(channel: nat, cumulative: nat)

  /** The wallet, plus the history its guarantees are about: every voucher signed, and per channel
      the max_tokens of the requests served there and whether it has been drained. */
  datatype Wallet = Wallet(
    channels: seq<Channel>,
    signed: seq<Voucher>,
    granted: seq<nat>,
    drained: seq<bool>)
  {
    ghost predicate Shaped() {
      |granted| == |channels| && |drained| == |channels|
    }
  }

  // ------------------------------------------------------------------ routing

  predicate Eligible(c: Channel, model: Option<string>, now: nat) {
    c.ServesModel(model) && c.HasQuota() && c.Live(now)
  }

  function Indices(n: nat): (r: seq<nat>)
    ensures |r| == n && forall i :: 0 <= i < n ==> r[i] == i
  {
    seq<nat>(n, i => i)
  }

  function Wanted(channels: seq<Channel>, model: Option<string>, now: nat): nat -> bool {
    (i: nat) => i < |channels| && Eligible(channels[i], model, now)
  }

  function Urgency(channels: seq<Channel>): nat -> Key {
    (i: nat) => (if i < |channels| && channels[i].expiry != 0 then channels[i].expiry else U64_MAX, 0)
  }

  /** Soonest expiry first, no expiry last, otherwise in configured order. */
  function Route(channels: seq<Channel>, model: Option<string>, now: nat): seq<nat> {
    SortBy(Filter(Indices(|channels|), Wanted(channels, model, now)), Urgency(channels))
  }

  ghost predicate Distinct(route: seq<nat>) {
    forall i, j :: 0 <= i < j < |route| ==> route[i] != route[j]
  }

  lemma {:induction false} FilterIndicesDistinct(route: seq<nat>, keep: nat -> bool)
    requires Distinct(route)
    ensures Distinct(Filter(route, keep))
  {
    if route != [] {
      assert Distinct(route[1..]);
      FilterIndicesDistinct(route[1..], keep);
      assert forall j :: 0 <= j < |route[1..]| ==> route[1..][j] == route[j+1];
      assert route[0] !in route[1..];
    }
  }

  lemma {:induction false} InsertDistinct(x: nat, s: seq<nat>, key: nat -> Key)
    requires Distinct(s) && x !in s
    ensures Distinct(InsertByKey(x, s, key))
    ensures forall y :: y in InsertByKey(x, s, key) <==> y == x || y in s
  {
    if s != [] && KeyLess(key(s[0]), key(x)) {
      assert Distinct(s[1..]) && s[0] !in s[1..];
      InsertDistinct(x, s[1..], key);
    }
  }

  lemma {:induction false} SortDistinct(s: seq<nat>, key: nat -> Key)
    requires Distinct(s)
    ensures Distinct(SortBy(s, key))
    ensures forall y :: y in SortBy(s, key) <==> y in s
  {
    if s != [] {
      SortDistinct(s[1..], key);
      assert s[0] !in s[1..];
      InsertDistinct(s[0], SortBy(s[1..], key), key);
    }
  }

  /** A route lists each eligible channel once and nothing else, most urgent first. */
  lemma RouteListsEligible(channels: seq<Channel>, model: Option<string>, now: nat)
    ensures var route := Route(channels, model, now);
            && Distinct(route) && Ascending(route, Urgency(channels))
            && (forall i: nat :: i in route <==> i < |channels| && Eligible(channels[i], model, now))
            && (forall k :: 0 <= k < |route| ==> route[k] < |channels| && Eligible(channels[route[k]], model, now))
  {
    var kept := Filter(Indices(|channels|), Wanted(channels, model, now));
    FilterIndicesDistinct(Indices(|channels|), Wanted(channels, model, now));
    SortDistinct(kept, Urgency(channels));
    SortAscends(kept, Urgency(channels));
    forall i: nat ensures i in kept <==> i < |channels| && Eligible(channels[i], model, now) {
      if i < |channels| { assert Indices(|channels|)[i] == i; }
    }
    var route := Route(channels, model, now);
    assert forall k :: 0 <= k < |route| ==> route[k] in route;
  }

  /** By key, and among equal keys by number. */
  ghost predicate Stable(s: seq<nat>, key: nat -> Key) {
    forall i, j :: 0 <= i < j < |s| ==> KeyLess(key(s[i]), key(s[j])) || (key(s[i]) == key(s[j]) && s[i] < s[j])
  }

  lemma {:induction false} InsertStable(x: nat, s: seq<nat>, key: nat -> Key)
    requires Stable(s, key) && forall y :: y in s ==> x < y
    ensures Stable(InsertByKey(x, s, key), key)
    ensures forall y :: y in InsertByKey(x, s, key) ==> y == x || y in s
  {
    if s == [] || !KeyLess(key(s[0]), key(x)) {
      forall j | 0 <= j < |s| ensures KeyLess(key(x), key(s[j])) || (key(x) == key(s[j]) && x < s[j]) {
        assert s[j] in s;
        assert j > 0 ==> !KeyLess(key(s[j]), key(s[0]));
      }
    } else {
      assert forall y :: y in s[1..] ==> y in s;
      InsertStable(x, s[1..], key);
      var rest := InsertByKey(x, s[1..], key);
      forall j | 0 <= j < |rest| && rest[j] != x
        ensures KeyLess(key(s[0]), key(rest[j])) || (key(s[0]) == key(rest[j]) && s[0] < rest[j])
      {
        assert rest[j] in s[1..];
      }
    }
  }

  ghost predicate Climbing(s: seq<nat>) {
    forall i, j :: 0 <= i < j < |s| ==> s[i] < s[j]
  }

  lemma {:induction false} SortStable(s: seq<nat>, key: nat -> Key)
    requires Climbing(s)
    ensures Stable(SortBy(s, key), key)
  {
    if s != [] {
      var tail := s[1..];
      assert forall i :: 0 <= i < |tail| ==> tail[i] == s[i+1];
      SortStable(tail, key);
      forall y | y in SortBy(tail, key) ensures s[0] < y {
        SortByMember(tail, key, y);
      }
      InsertStable(s[0], SortBy(tail, key), key);
    }
  }

  lemma {:induction false} FilterClimbing(s: seq<nat>, keep: nat -> bool)
    requires Climbing(s)
    ensures Climbing(Filter(s, keep))
  {
    if s != [] {
      assert forall i :: 0 <= i < |s[1..]| ==> s[1..][i] == s[i+1];
      FilterClimbing(s[1..], keep);
      var rest := Filter(s[1..], keep);
      forall j | 0 <= j < |rest| ensures s[0] < rest[j] {
        assert rest[j] in s[1..];
      }
    }
  }

  /** The first of two routed channels expires no later than the second; one without an expiry comes after
      all that have one (short of the end of time), and equals stay in configured order. */
  predicate UsedBefore(channels: seq<Channel>, i: nat, j: nat)
    requires i < |channels| && j < |channels|
  {
    var a, b := channels[i].expiry, channels[j].expiry;
    && (a != 0 && b != 0 ==> a <= b)
    && (a == 0 && b != 0 ==> b == U64_MAX)
    && (a == b ==> i < j)
  }

  /** Who is routed to, and in which order: every channel that serves the model, has quota left and does
      not expire within the margin, soonest expiry first. */
  lemma RouteByExpiry(channels: seq<Channel>, model: Option<string>, now: nat)
    ensures var route := Route(channels, model, now);
            && (forall i: nat :: i in route <==>
                  && i < |channels|
                  && (channels[i].model.None? || model.None? || channels[i].model.value == model.value)
                  && (channels[i].maxTokens == 0 || channels[i].acked < channels[i].maxTokens)
                  && (channels[i].expiry == 0 || now + EXPIRY_MARGIN_SECS < channels[i].expiry))
            && (forall k :: 0 <= k < |route| ==> route[k] < |channels|)
            && (forall j, k :: 0 <= j < k < |route| ==> UsedBefore(channels, route[j], route[k]))
  {
    RouteListsEligible(channels, model, now);
    FilterClimbing(Indices(|channels|), Wanted(channels, model, now));
    SortStable(Filter(Indices(|channels|), Wanted(channels, model, now)), Urgency(channels));
  }

  // ------------------------------------------------------------------ one request

  function Acknowledge(w: Wallet, i: nat, claimed: nat, maxDelta: nat, streaming: bool): Wallet
    requires w.Shaped() && i < |w.channels|
  {
    var acked := w.channels[i].acked;
    var next := CappedNext(acked, claimed, maxDelta);
    var advanced := next > acked;
    w.(channels := w.channels[i := w.channels[i].(acked := if advanced then next else acked)],
       signed := if advanced || streaming then w.signed + [Voucher(i, next)] else w.signed)
  }

  function Drain(w: Wallet, i: nat): Wallet
    requires w.Shaped() && i < |w.channels|
  {
    if w.channels[i].maxTokens > 0 then
      w.(channels := w.channels[i := w.channels[i].(acked := w.channels[i].maxTokens)], drained := w.drained[i := true])
    else w
  }

  /** What one attempt leaves behind: the wallet, the answer if the request is over, and the code
      to report should every channel fail. */
  datatype Tried = Tried(wallet: Wallet, done: Option<Outcome>, last: nat)

  function Try(w: Wallet, i: nat, maxDelta: nat, streaming: bool, reply: Reply): Tried
    requires w.Shaped() && i < |w.channels|
  {
    var asked := w.(signed := w.signed + [Voucher(i, w.channels[i].acked)]);
    match reply
    case Unreachable => Tried(asked, None, BAD_GATEWAY)
    case Completed(claim) =>
      var granted := asked.(granted := w.granted[i := w.granted[i] + maxDelta]);
      Tried(if claim.Some? then Acknowledge(granted, i, claim.value, maxDelta, streaming) else granted,
            Some(ServedBy(i)), 0)
    case Status(code) =>
      Tried(if code == PAYMENT_REQUIRED then Drain(asked, i) else asked,
            if code == BAD_REQUEST || code == UNPROCESSABLE_ENTITY then Some(Returned(code)) else None, code)
  }

  /** Try the routed channels in turn until one completes or the request itself is bad. */
  function Attempt(w: Wallet, route: seq<nat>, maxDelta: nat, streaming: bool, replies: seq<Reply>,
                   last: nat): (Wallet, Outcome)
    requires w.Shaped() && |replies| == |w.channels| && forall k :: 0 <= k < |route| ==> route[k] < |w.channels|
    decreases |route|
  {
    if route == [] then
      (w, Returned(last))
    else
      var t := Try(w, route[0], maxDelta, streaming, replies[route[0]]);
      if t.done.Some? then (t.wallet, t.done.value)
      else Attempt(t.wallet, route[1..], maxDelta, streaming, replies, t.last)
  }

  /** `chat`: route, then fail over along the route. */
  function ChatIn(w: Wallet, model: Option<string>, now: nat, maxDelta: nat, streaming: bool,
                  replies: seq<Reply>): (Wallet, Outcome)
    requires w.Shaped() && |replies| == |w.channels|
  {
    RouteListsEligible(w.channels, model, now);
    Attempt(w, Route(w.channels, model, now), maxDelta, streaming, replies, PAYMENT_REQUIRED)
  }

  // ------------------------------------------------------------------ who answers, and what it moves

  /** An answer after which the next channel is tried. */
  predicate FailsOver(reply: Reply) {
    reply.Unreachable? || (reply.Status? && reply.code != BAD_REQUEST && reply.code != UNPROCESSABLE_ENTITY)
  }

  /** What the client is told when this answer is final. */
  function Told(channel: nat, reply: Reply): Outcome {
    match reply
    case Completed(_) => ServedBy(channel)
    case Status(code) => Returned(code)
    case Unreachable => Returned(BAD_GATEWAY)
  }

  /** Failover: the answer is that of the first channel along the route that completes or calls the request
      bad; if none does, that of the last one. */
  lemma {:induction false} FailoverAnswers(w: Wallet, route: seq<nat>, maxDelta: nat, streaming: bool,
                                           replies: seq<Reply>, last: nat, n: nat)
    requires w.Shaped() && |replies| == |w.channels| && forall k :: 0 <= k < |route| ==> route[k] < |w.channels|
    requires forall k :: 0 <= k < n < |route| ==> FailsOver(replies[route[k]])
    ensures var outcome := Attempt(w, route, maxDelta, streaming, replies, last).1;
            && (route == [] ==> outcome == Returned(last))
            && (n < |route| && (n == |route| - 1 || !FailsOver(replies[route[n]])) ==>
                  outcome == Told(route[n], replies[route[n]]))
    decreases |route|
  {
    if route != [] && n < |route| {
      var t := Try(w, route[0], maxDelta, streaming, replies[route[0]]);
      if n > 0 {
        assert FailsOver(replies[route[0]]);
        assert forall k :: 0 <= k < |route[1..]| ==> route[1..][k] == route[k+1];
        FailoverAnswers(t.wallet, route[1..], maxDelta, streaming, replies, t.last, n - 1);
      } else if t.done.None? {
        FailoverAnswers(t.wallet, route[1..], maxDelta, streaming, replies, t.last, 0);
      }
    }
  }

  /** A completion moves the acknowledged total to what it claims, but never back and never past the
      request's own cap; every other channel stays as it was. A streamed reply always sends the
      trailing voucher, a buffered one if it is news. */
  lemma CompletionAdvances(w: Wallet, i: nat, maxDelta: nat, streaming: bool, claimed: nat)
    requires w.Shaped() && i < |w.channels| && w.channels[i].acked + maxDelta <= U64_MAX
    ensures var acked, after := w.channels[i].acked, Try(w, i, maxDelta, streaming, Completed(Some(claimed))).wallet;
            var moved := after.channels[i].acked;
            && moved == (if claimed <= acked then acked else if claimed <= acked + maxDelta then claimed
                         else acked + maxDelta)
            && after.channels == w.channels[i := w.channels[i].(acked := moved)]
            && after.signed == w.signed + [Voucher(i, acked)]
                 + (if claimed > acked && maxDelta > 0 then [Voucher(i, moved)]
                    else if streaming then [Voucher(i, Min(claimed, acked))] else [])
  {
  }

  /** A 402 takes a channel with a known cap out of every later route; any other failure changes nothing. */
  lemma PaymentRequiredDrains(w: Wallet, i: nat, maxDelta: nat, streaming: bool, code: nat, model: Option<string>,
                              now: nat)
    requires w.Shaped() && i < |w.channels|
    ensures var after := Try(w, i, maxDelta, streaming, Status(code)).wallet;
            && (code == PAYMENT_REQUIRED && w.channels[i].maxTokens > 0 ==> i !in Route(after.channels, model, now))
            && (code != PAYMENT_REQUIRED ==> after.channels == w.channels)
  {
    RouteListsEligible(Try(w, i, maxDelta, streaming, Status(code)).wallet.channels, model, now);
  }

  // ------------------------------------------------------------------ bounded billing

  /** Every voucher ever signed on a channel is covered by what it started with plus the
      max_tokens of the requests served there; a drained channel is full. */
  ghost predicate Bounded(w: Wallet, start: seq<nat>) {
    && w.Shaped() && |start| == |w.channels|
    && (forall v :: v in w.signed ==> v.channel < |start| && v.cumulative <= start[v.channel] + w.granted[v.channel])
    && (forall i :: 0 <= i < |start| ==>
          if w.drained[i] then w.channels[i].acked == w.channels[i].maxTokens > 0
          else w.channels[i].acked <= start[i] + w.granted[i])
  }

  /** Nothing was signed on channels that were already drained, and none was revived. */
  ghost predicate LeavesDrained(before: Wallet, after: Wallet) {
    && before.Shaped() && after.Shaped() && |after.channels| == |before.channels|
    && before.signed <= after.signed
    && (forall k :: |before.signed| <= k < |after.signed| ==>
          after.signed[k].channel < |before.drained| && !before.drained[after.signed[k].channel])
    && (forall i :: 0 <= i < |before.drained| && before.drained[i] ==> after.drained[i])
  }

  lemma TryKeepsBound(w: Wallet, i: nat, maxDelta: nat, streaming: bool, reply: Reply, start: seq<nat>)
    requires Bounded(w, start) && i < |w.channels| && !w.drained[i]
    ensures Bounded(Try(w, i, maxDelta, streaming, reply).wallet, start)
  {
  }

  lemma TryIsBounded(w: Wallet, i: nat, maxDelta: nat, streaming: bool, reply: Reply, start: seq<nat>)
    requires Bounded(w, start) && i < |w.channels| && !w.drained[i]
    ensures var t := Try(w, i, maxDelta, streaming, reply);
            && Bounded(t.wallet, start) && LeavesDrained(w, t.wallet)
            && forall k :: 0 <= k < |w.drained| && k != i ==> t.wallet.drained[k] == w.drained[k]
  {
    TryKeepsBound(w, i, maxDelta, streaming, reply, start);
    hide Bounded;
  }

  lemma {:induction false} AttemptIsBounded(w: Wallet, route: seq<nat>, maxDelta: nat, streaming: bool,
                                            replies: seq<Reply>, last: nat, start: seq<nat>)
    requires Bounded(w, start) && |replies| == |w.channels| && Distinct(route)
    requires forall k :: 0 <= k < |route| ==> route[k] < |w.channels| && !w.drained[route[k]]
    ensures Bounded(Attempt(w, route, maxDelta, streaming, replies, last).0, start)
    ensures LeavesDrained(w, Attempt(w, route, maxDelta, streaming, replies, last).0)
    decreases |route|
  {
    if route != [] {
      TryIsBounded(w, route[0], maxDelta, streaming, replies[route[0]], start);
      var t := Try(w, route[0], maxDelta, streaming, replies[route[0]]);
      if t.done.None? {
        forall k | 0 <= k < |route[1..]| ensures !t.wallet.drained[route[1..][k]] {
          assert route[k+1] != route[0];
        }
        AttemptIsBounded(t.wallet, route[1..], maxDelta, streaming, replies, t.last, start);
      }
    }
  }

  /** One request keeps the bound and never touches a drained channel, for any operator replies. */
  lemma ChatIsBounded(w: Wallet, model: Option<string>, now: nat, maxDelta: nat, streaming: bool, replies: seq<Reply>,
                      start: seq<nat>)
    requires Bounded(w, start) && |replies| == |w.channels|
    ensures Bounded(ChatIn(w, model, now, maxDelta, streaming, replies).0, start)
    ensures LeavesDrained(w, ChatIn(w, model, now, maxDelta, streaming, replies).0)
  {
    RouteListsEligible(w.channels, model, now);
    AttemptIsBounded(w, Route(w.channels, model, now), maxDelta, streaming, replies, PAYMENT_REQUIRED, start);
  }

  datatype Request = Request(model: Option<string>, now: nat, maxDelta: nat, streaming: bool, replies: seq<Reply>)

  ghost predicate Answered(requests: seq<Request>, n: nat) {
    forall k :: 0 <= k < |requests| ==> |requests[k].replies| == n
  }

  function ChatAll(w: Wallet, requests: seq<Request>): Wallet
    requires w.Shaped() && Answered(requests, |w.channels|)
    decreases |requests|
  {
    if requests == [] then w
    else
      var r := requests[0];
      var next := ChatIn(w, r.model, r.now, r.maxDelta, r.streaming, r.replies).0;
      ChatShape(w, r.model, r.now, r.maxDelta, r.streaming, r.replies);
      ChatAll(next, requests[1..])
  }

  lemma {:induction false} AttemptShape(w: Wallet, route: seq<nat>, maxDelta: nat, streaming: bool, replies: seq<Reply>,
                                        last: nat)
    requires w.Shaped() && |replies| == |w.channels| && forall k :: 0 <= k < |route| ==> route[k] < |w.channels|
    ensures var after := Attempt(w, route, maxDelta, streaming, replies, last).0;
            after.Shaped() && |after.channels| == |w.channels|
    decreases |route|
  {
    if route != [] {
      var t := Try(w, route[0], maxDelta, streaming, replies[route[0]]);
      if t.done.None? {
        AttemptShape(t.wallet, route[1..], maxDelta, streaming, replies, t.last);
      }
    }
  }

  lemma ChatShape(w: Wallet, model: Option<string>, now: nat, maxDelta: nat, streaming: bool, replies: seq<Reply>)
    requires w.Shaped() && |replies| == |w.channels|
    ensures var after := ChatIn(w, model, now, maxDelta, streaming, replies).0;
            after.Shaped() && |after.channels| == |w.channels|
  {
    RouteListsEligible(w.channels, model, now);
    AttemptShape(w, Route(w.channels, model, now), maxDelta, streaming, replies, PAYMENT_REQUIRED);
  }

  /** Bounded billing. Over any sequence of requests and any answers, every voucher signed on a
      channel is at most its starting total plus the max_tokens of the requests served on it, and
      a channel drained by a 402 is never signed for again. */
  lemma {:induction false} BillingIsBounded(w: Wallet, requests: seq<Request>, start: seq<nat>)
    requires Bounded(w, start) && Answered(requests, |w.channels|)
    ensures Bounded(ChatAll(w, requests), start)
    ensures LeavesDrained(w, ChatAll(w, requests))
    decreases |requests|
  {
    if requests != [] {
      var r := requests[0];
      ChatIsBounded(w, r.model, r.now, r.maxDelta, r.streaming, r.replies, start);
      var next := ChatIn(w, r.model, r.now, r.maxDelta, r.streaming, r.replies).0;
      BillingIsBounded(next, requests[1..], start);
    }
  }

  // ------------------------------------------------------------------ the gateway object

  class GatewaySvc {
    var channels: seq<Channel>
    ghost var signed: seq<Voucher>
    ghost var granted: seq<nat>
    ghost var drained: seq<bool>

    ghost function State(): Wallet
      reads this
    {
      Wallet(channels, signed, granted, drained)
    }

    constructor (loaded: seq<Channel>)
      ensures State() == Wallet(loaded, [], seq<nat>(|loaded|, i => 0), seq(|loaded|, i => false))
    {
      channels := loaded;
      signed, granted, drained := [], seq<nat>(|loaded|, i => 0), seq(|loaded|, i => false);
    }

    method SignVoucher(i: nat, cumulative: nat)
      modifies this`signed
      ensures signed == old(signed) + [Voucher(i, cumulative)]
    {
      signed := signed + [Voucher(i, cumulative)];
    }

    /** The tail of `buffered` and `stream_through`: advance the acknowledged total, never past the
        request's own cap, and send the trailing voucher. */
    method Advance(i: nat, claimed: nat, maxDelta: nat, streaming: bool)
      requires State().Shaped() && i < |channels|
      modifies this`channels, this`signed
      ensures State() == Acknowledge(old(State()), i, claimed, maxDelta, streaming)
    {
      var next := CappedNext(channels[i].acked, claimed, maxDelta);
      var advanced := false;
      if next > channels[i].acked {
        channels := channels[i := channels[i].(acked := next)];
        advanced := true;
      }
      if advanced || streaming {
        SignVoucher(i, next);
      }
    }

    /** One turn of the failover loop. */
    method Ask(i: nat, maxDelta: nat, streaming: bool, reply: Reply) returns (done: Option<Outcome>, last: nat)
      requires State().Shaped() && i < |channels|
      modifies this
      ensures Tried(State(), done, last) == Try(old(State()), i, maxDelta, streaming, reply)
    {
      SignVoucher(i, channels[i].acked);
      match reply {
        case Completed(claim) =>
          granted := granted[i := granted[i] + maxDelta];
          if claim.Some? {
            Advance(i, claim.value, maxDelta, streaming);
          }
          return Some(ServedBy(i)), 0;
        case Status(code) =>
          if code == PAYMENT_REQUIRED {
            // Out of quota: drain the lot locally, so that routing skips it from now on.
            if channels[i].maxTokens > 0 {
              channels := channels[i := channels[i].(acked := channels[i].maxTokens)];
              drained := drained[i := true];
            }
          }
          if code == BAD_REQUEST || code == UNPROCESSABLE_ENTITY {
            return Some(Returned(code)), code;
          }
          return None, code;
        case Unreachable =>
          return None, BAD_GATEWAY;
      }
    }

    method Chat(model: Option<string>, now: nat, maxDelta: nat, streaming: bool, replies: seq<Reply>)
      returns (outcome: Outcome)
      requires State().Shaped() && |replies| == |channels|
      modifies this
      ensures (State(), outcome) == ChatIn(old(State()), model, now, maxDelta, streaming, replies)
    {
      var route := Route(channels, model, now);
      RouteListsEligible(channels, model, now);
      hide Route;
      var last := PAYMENT_REQUIRED;
      var k := 0;
      ghost var whole := Attempt(State(), route, maxDelta, streaming, replies, last);
      while k < |route|
        invariant k <= |route|
        invariant State().Shaped() && |replies| == |channels|
        invariant forall k :: 0 <= k < |route| ==> route[k] < |channels|
        invariant Attempt(State(), route[k..], maxDelta, streaming, replies, last) == whole
      {
        ghost var before := State();
        assert route[k..][0] == route[k] && route[k..][1..] == route[k+1..];
        var done: Option<Outcome>;
        done, last := Ask(route[k], maxDelta, streaming, replies[route[k]]);
        if done.Some? {
          return done.value;
        }
        k := k + 1;
      }
      return Returned(last);
    }
  }
}
