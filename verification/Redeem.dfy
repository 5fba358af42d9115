/** Redemption serving: one-shot authorisations and a token quota, kept under the id as the client
    spelled it, in a map whose lock is released while inference runs. */
module Redeem {
  import opened Wrappers

  /** A redemption id as it stands in a request; several may parse to the same redemption. */
  type Spelling = string
  type Redemption = nat
  type Hash = nat
  type Signature = seq<nat>

  const MAX_AUTH_AHEAD_SECS: nat := 3600
  const STATE_OPEN: nat := 1

  /** Serve progress under one spelling. */
  datatype Progress = Progress(served: nat, usedAuths: set<Hash>, work: Option<Hash>, servedAt: nat)

  const FRESH: Progress := Progress(0, {}, None, 0)

  // ------------------------------------------------------------------ the gate

  datatype OnChain = OnChain(state: nat, deadline: nat, holder: nat, qtyTokens: nat, issuer: nat, instrument: Hash)

  /** A serve request; no signature stands for one that is not hex. */
  datatype Request = Request(id: Spelling, messages: Hash, maxTokens: nat, expiry: nat, signature: Option<Signature>)

  /** One operator's given functions: how ids parse, what authorisations sign, who signed them, and the
      instruments it serves. */
  datatype Operator = Operator(
    parse: Spelling -> Option<Redemption>,
    serveDigest: (Redemption, Hash, nat, nat) -> Hash,
    recover: (Hash, Signature) -> Option<nat>,
    knows: Hash -> bool,
    me: nat)
  {
    /** The digest an authorisation signs: of the parsed redemption, not of its spelling. */
    function DigestOf(redemption: Redemption, req: Request): Hash {
      serveDigest(redemption, req.messages, req.maxTokens, req.expiry)
    }
  }

  datatype GateError =
    | BadId
    | AuthExpired
    | AuthTooFarOut
    | NotHex
    | Unrecoverable
    | NotOpen
    | DeadlinePassed
    | NotHolder
    | NotIssuer
    | UnknownInstrument

  /** The checks before anything is reserved. */
  function Gate(op: Operator, chain: Redemption -> OnChain, req: Request, now: nat): Option<GateError> {
    if op.parse(req.id).None? then Some(BadId)
    else if req.expiry < now then Some(AuthExpired)
    else if req.expiry > now + MAX_AUTH_AHEAD_SECS then Some(AuthTooFarOut)
    else if req.signature.None? then Some(NotHex)
    else
      var redemption := op.parse(req.id).value;
      var r, signer := chain(redemption), op.recover(op.DigestOf(redemption, req), req.signature.value);
      if signer.None? then Some(Unrecoverable)
      else if r.state != STATE_OPEN then Some(NotOpen)
      else if now > r.deadline then Some(DeadlinePassed)
      else if signer.value != r.holder then Some(NotHolder)
      else if r.issuer != op.me then Some(NotIssuer)
      else if !op.knows(r.instrument) then Some(UnknownInstrument)
      else None
  }

  /** Exactly what reaches the reservation: a current authorisation the holder signed, for an open
      redemption in its deadline, on a lot this operator issued for an instrument it knows. */
  lemma GateOpensIff(op: Operator, chain: Redemption -> OnChain, req: Request, now: nat)
    ensures Gate(op, chain, req, now).None? <==>
              && op.parse(req.id).Some? && now <= req.expiry <= now + MAX_AUTH_AHEAD_SECS && req.signature.Some?
              && var r := chain(op.parse(req.id).value);
                 && op.recover(op.DigestOf(op.parse(req.id).value, req), req.signature.value) == Some(r.holder)
                 && r.state == STATE_OPEN && now <= r.deadline && r.issuer == op.me && op.knows(r.instrument)
  {
  }

  // ------------------------------------------------------------------ the three critical sections

  /** Reserve an authorisation: refused if used, otherwise consumed, reading what is served so far. */
  function Reserve(p: Progress, digest: Hash): (Progress, Option<nat>) {
    if digest in p.usedAuths then (p, None) else (p.(usedAuths := p.usedAuths + {digest}), Some(p.served))
  }

  function Release(p: Progress, digest: Hash): Progress {
    p.(usedAuths := p.usedAuths - {digest})
  }

  /** What one completion delivers, metered within what the reservation saw left. */
  function Delivers(qtyTokens: nat, already: nat, used: nat): nat {
    Min(used, Saturating(qtyTokens, already))
  }

  function Record(p: Progress, total: nat, work: Hash, now: nat): Progress {
    p.(served := total, work := Some(work), servedAt := now)
  }

  datatype ServeError = Refused(error: GateError) | AuthUsed | QuotaServed

  /** The beginning of a serve: the gate, the reservation, and the quota it leaves. */
  function Begin(p: Progress, gate: Option<GateError>, digest: Hash, qtyTokens: nat)
    : (Progress, Result<nat, ServeError>)
  {
    if gate.Some? then (p, Failure(Refused(gate.value)))
    else
      match Reserve(p, digest)
      case (after, None) => (after, Failure(AuthUsed))
      case (after, Some(already)) =>
        if Saturating(qtyTokens, already) == 0 then (Release(after, digest), Failure(QuotaServed))
        else (after, Success(already))
  }

  /** A refused serve leaves no trace; one that may go on holds an authorisation nobody held. */
  lemma BeginReservesOnce(p: Progress, gate: Option<GateError>, digest: Hash, qtyTokens: nat)
    ensures var (after, r) := Begin(p, gate, digest, qtyTokens);
            && (r.Failure? ==> after == p)
            && (r.Success? <==> gate.None? && digest !in p.usedAuths && p.served < qtyTokens)
            && (r.Success? ==> after == p.(usedAuths := p.usedAuths + {digest}) && r.value == p.served)
  {
    assert digest !in p.usedAuths ==> p.usedAuths + {digest} - {digest} == p.usedAuths;
  }

  function EntryOf(redeem: map<Spelling, Progress>, id: Spelling): Progress {
    if id in redeem then redeem[id] else FRESH
  }

  /** The same request under another spelling of its redemption carries the same digest and passes the
      same gate; it is refused as used exactly when the entry of that other spelling holds the
      digest, whatever the first spelling's entry holds. */
  lemma RespelledRequest(op: Operator, chain: Redemption -> OnChain, redeem: map<Spelling, Progress>,
                         req: Request, other: Spelling, now: nat)
    requires Gate(op, chain, req, now).None? && op.parse(other) == op.parse(req.id)
    ensures var again, digest := req.(id := other), op.DigestOf(op.parse(req.id).value, req);
            var qty := chain(op.parse(req.id).value).qtyTokens;
            && op.DigestOf(op.parse(other).value, again) == digest && Gate(op, chain, again, now).None?
            && (Begin(EntryOf(redeem, other), None, digest, qty).1 == Failure(AuthUsed)
                <==> digest in EntryOf(redeem, other).usedAuths)
  {
  }

  class RedeemSvc {
    const op: Operator
    var redeem: map<Spelling, Progress>

    function Of(id: Spelling): Progress
      reads this
    {
      EntryOf(redeem, id)
    }

    constructor (operator: Operator)
      ensures op == operator && redeem == map[]
    {
      op := operator;
      redeem := map[];
    }

    method ReserveAuth(id: Spelling, digest: Hash) returns (already: Option<nat>)
      modifies this
      ensures redeem == old(redeem)[id := Reserve(old(Of(id)), digest).0]
      ensures already == Reserve(old(Of(id)), digest).1
    {
      var p := Of(id);
      if digest in p.usedAuths {
        redeem := redeem[id := p];
        return None;
      }
      redeem := redeem[id := p.(usedAuths := p.usedAuths + {digest})];
      return Some(p.served);
    }

    method ReleaseAuth(id: Spelling, digest: Hash)
      modifies this
      ensures redeem == if id in old(redeem) then old(redeem)[id := Release(old(redeem)[id], digest)]
          else old(redeem)
    {
      if id in redeem {
        redeem := redeem[id := redeem[id].(usedAuths := redeem[id].usedAuths - {digest})];
      }
    }

    /** The first half of a serve, up to the call of the inference backend. */
    method BeginServe(req: Request, chain: Redemption -> OnChain, now: nat) returns (begun: Result<nat, ServeError>)
      modifies this
      ensures var gate := Gate(op, chain, req, now);
              if gate.Some? then
                begun == Failure(Refused(gate.value)) && redeem == old(redeem)
              else
                var qty := chain(op.parse(req.id).value).qtyTokens;
                (Of(req.id), begun) == Begin(old(Of(req.id)), None, op.DigestOf(op.parse(req.id).value, req), qty)
      ensures forall other :: other != req.id ==>
                (other in redeem <==> other in old(redeem)) && Of(other) == old(Of(other))
    {
      var gate := Gate(op, chain, req, now);
      if gate.Some? {
        return Failure(Refused(gate.value));
      }
      var digest := op.DigestOf(op.parse(req.id).value, req);
      var already := ReserveAuth(req.id, digest);
      if already.None? {
        return Failure(AuthUsed);
      }
      if Saturating(chain(op.parse(req.id).value).qtyTokens, already.value) == 0 {
        ReleaseAuth(req.id, digest);
        return Failure(QuotaServed);
      }
      return Success(already.value);
    }

    method RecordServe(id: Spelling, qtyTokens: nat, already: nat, used: nat, work: Hash, now: nat)
      returns (total: nat)
      modifies this
      ensures total == already + Delivers(qtyTokens, already, used)
      ensures already + used <= qtyTokens ==> total == already + used
      ensures already <= qtyTokens < already + used ==> total == qtyTokens
      ensures redeem == old(redeem)[id := Record(old(Of(id)), total, work, now)]
    {
      total := already + Min(used, Saturating(qtyTokens, already));
      redeem := redeem[id := Of(id).(served := total, work := Some(work), servedAt := now)];
    }
  }

  // ------------------------------------------------------------------ interleaved serves under one spelling

  /** A serve between its reservation and its end. */
  datatype Inflight = Inflight(digest: Hash, already: nat)

  /** A completed serve and the tokens it reported as served. */
  datatype Served = Served(digest: Hash, tokens: nat)

  datatype Sys = Sys(progress: Progress, inflight: map<nat, Inflight>, done: seq<Served>)

  datatype Step =
    | Start(id: nat, digest: Hash)
    | Fail(id: nat)
    | Succeed(id: nat, used: nat, work: Hash, now: nat)

  /** A reservation that finds the quota used up can only fail. */
  predicate Enabled(qty: nat, s: Sys, step: Step) {
    match step
    case Start(id, digest) => id !in s.inflight
    case Fail(id) => id in s.inflight
    case Succeed(id, used, work, now) => id in s.inflight && Saturating(qty, s.inflight[id].already) > 0
  }

  function Apply(qty: nat, s: Sys, step: Step): Sys
    requires Enabled(qty, s, step)
  {
    match step
    case Start(id, digest) =>
      var (p, already) := Reserve(s.progress, digest);
      s.(progress := p,
         inflight := if already.Some? then s.inflight[id := Inflight(digest, already.value)] else s.inflight)
    case Fail(id) =>
      s.(progress := Release(s.progress, s.inflight[id].digest), inflight := s.inflight - {id})
    case Succeed(id, used, work, now) =>
      var f := s.inflight[id];
      var tokens := Delivers(qty, f.already, used);
      Sys(Record(s.progress, f.already + tokens, work, now), s.inflight - {id}, s.done + [Served(f.digest, tokens)])
  }

  /** Every consumed authorisation is held by exactly one serve, running or done. */
  ghost predicate Inv(qty: nat, s: Sys) {
    && s.progress.served <= qty
    && (forall id :: id in s.inflight ==>
        s.inflight[id].digest in s.progress.usedAuths && s.inflight[id].already <= qty)
    && (forall k :: 0 <= k < |s.done| ==> s.done[k].digest in s.progress.usedAuths)
    && (forall a, b :: a in s.inflight && b in s.inflight && a != b ==> s.inflight[a].digest != s.inflight[b].digest)
    && (forall id, k :: id in s.inflight && 0 <= k < |s.done| ==> s.inflight[id].digest != s.done[k].digest)
    && (forall j, k :: 0 <= j < k < |s.done| ==> s.done[j].digest != s.done[k].digest)
  }

  lemma StepKeeps(qty: nat, s: Sys, step: Step)
    requires Inv(qty, s) && Enabled(qty, s, step)
    ensures Inv(qty, Apply(qty, s, step))
  {
  }

  /** A failed serve frees its authorisation: the same request can be started again. */
  lemma FailedMayRetry(qty: nat, s: Sys, id: nat)
    requires Inv(qty, s) && id in s.inflight
    ensures var digest, after := s.inflight[id].digest, Apply(qty, s, Fail(id));
            && digest !in after.progress.usedAuths
            && id in Apply(qty, after, Start(id, digest)).inflight
  {
  }

  /** The beginning of a serve is a step of the interleaving: a refused one is no step at all, one
      whose quota is used up starts and fails, any other starts and can complete. */
  lemma BeginIsStart(qty: nat, s: Sys, id: nat, gate: Option<GateError>, digest: Hash)
    requires Inv(qty, s) && id !in s.inflight
    ensures var (after, r) := Begin(s.progress, gate, digest, qty);
            var started := Apply(qty, s, Start(id, digest));
            && (r.Success? ==>
                  && started.progress == after && started.inflight == s.inflight[id := Inflight(digest, r.value)]
                  && forall used, work, now :: Enabled(qty, started, Succeed(id, used, work, now)))
            && (r == Failure(QuotaServed) ==>
                  && id in started.inflight && Apply(qty, started, Fail(id)) == s
                  && forall used, work, now :: !Enabled(qty, started, Succeed(id, used, work, now)))
            && (r == Failure(AuthUsed) ==> started == s)
            && (r.Failure? ==> after == s.progress)
  {
    BeginReservesOnce(s.progress, gate, digest, qty);
    var started := Apply(qty, s, Start(id, digest));
    if id in started.inflight {
      assert started.inflight - {id} == s.inflight;
    }
  }

  ghost predicate Execution(qty: nat, states: seq<Sys>, steps: seq<Step>) {
    && |states| == |steps| + 1 && states[0] == IDLE
    && forall i :: 0 <= i < |steps| ==>
         Enabled(qty, states[i], steps[i]) && states[i+1] == Apply(qty, states[i], steps[i])
  }

  /** In every interleaving under one spelling each authorisation backs at most one completed serve, and
      the recorded total never exceeds the redemption. */
  lemma {:induction false} EntryIsSafe(qty: nat, states: seq<Sys>, steps: seq<Step>, i: nat)
    requires Execution(qty, states, steps) && i < |states|
    ensures Inv(qty, states[i]) && states[i].progress.served <= qty
    ensures forall j, k :: 0 <= j < k < |states[i].done| ==> states[i].done[j].digest != states[i].done[k].digest
  {
    if i > 0 {
      EntryIsSafe(qty, states, steps, i - 1);
      assert Enabled(qty, states[i-1], steps[i-1]);
      StepKeeps(qty, states[i-1], steps[i-1]);
    }
  }

  // ------------------------------------------------------------------ one redemption under all its spellings

  /** The serves of one redemption, by the spelling they came under. */
  type Desk = map<Spelling, Sys>

  const IDLE: Sys := Sys(FRESH, map[], [])

  function Lane(desk: Desk, id: Spelling): Sys {
    if id in desk then desk[id] else IDLE
  }

  datatype DeskStep = DeskStep(id: Spelling, step: Step)

  ghost predicate DeskRun(qty: nat, states: seq<Desk>, steps: seq<DeskStep>) {
    && |states| == |steps| + 1 && states[0] == map[]
    && forall i :: 0 <= i < |steps| ==>
         && Enabled(qty, Lane(states[i], steps[i].id), steps[i].step)
         && states[i+1] == states[i][steps[i].id := Apply(qty, Lane(states[i], steps[i].id), steps[i].step)]
  }

  ghost predicate Under(steps: seq<DeskStep>, spellings: set<Spelling>) {
    forall i :: 0 <= i < |steps| ==> steps[i].id in spellings
  }

  ghost predicate Done(desk: Desk, id: Spelling, j: int) {
    id in desk && 0 <= j < |desk[id].done|
  }

  /** Every authorisation has backed at most one completed serve of the redemption. */
  ghost predicate ServedOnce(desk: Desk) {
    forall a, j, b, k :: Done(desk, a, j) && Done(desk, b, k) && (a != b || j != k) ==>
      desk[a].done[j].digest != desk[b].done[k].digest
  }

  lemma {:induction false} LanesAreSafe(qty: nat, states: seq<Desk>, steps: seq<DeskStep>,
                                        spellings: set<Spelling>, i: nat)
    requires DeskRun(qty, states, steps) && Under(steps, spellings) && i < |states|
    ensures states[i].Keys <= spellings && forall id :: Inv(qty, Lane(states[i], id))
  {
    if i > 0 {
      LanesAreSafe(qty, states, steps, spellings, i - 1);
      var id := steps[i-1].id;
      assert Enabled(qty, Lane(states[i-1], id), steps[i-1].step);
      StepKeeps(qty, Lane(states[i-1], id), steps[i-1].step);
      forall x ensures Inv(qty, Lane(states[i], x)) {
        assert Inv(qty, Lane(states[i-1], x));
      }
    }
  }

  /** In every interleaving of serves of one redemption, under any spellings: under each spelling an
      authorisation backs at most one completed serve and the recorded total never exceeds the
      redemption. If all of them use one spelling, so it is for the redemption. */
  lemma ServingIsSafe(qty: nat, states: seq<Desk>, steps: seq<DeskStep>, spellings: set<Spelling>, i: nat)
    requires DeskRun(qty, states, steps) && Under(steps, spellings) && i < |states|
    ensures forall id :: id in states[i] ==>
              states[i][id].progress.served <= qty && ServedOnce(map[id := states[i][id]])
    ensures (forall a, b :: a in spellings && b in spellings ==> a == b) ==> ServedOnce(states[i])
  {
    LanesAreSafe(qty, states, steps, spellings, i);
    forall id | id in states[i] ensures states[i][id].progress.served <= qty && ServedOnce(map[id := states[i][id]]) {
      assert Inv(qty, Lane(states[i], id));
    }
    if forall a, b :: a in spellings && b in spellings ==> a == b {
      forall a, j, b, k | Done(states[i], a, j) && Done(states[i], b, k) && (a != b || j != k)
        ensures states[i][a].done[j].digest != states[i][b].done[k].digest
      {
        assert a in spellings && b in spellings;
        assert Inv(qty, Lane(states[i], a));
      }
    }
  }

  /** Two spellings of one redemption: the same authorisation backs a completed serve under each, one
      after the other, and the whole redemption is delivered twice. */
  lemma TwoSpellingsServeTwice(qty: nat, a: Spelling, b: Spelling, digest: Hash)
    returns (states: seq<Desk>, steps: seq<DeskStep>)
    requires qty > 0 && a != b
    ensures DeskRun(qty, states, steps) && Under(steps, {a, b}) && |states| == 5
    ensures Lane(states[4], a).done == [Served(digest, qty)] && Lane(states[4], b).done == [Served(digest, qty)]
    ensures !ServedOnce(states[4])
  {
    var start, succeed := Start(0, digest), Succeed(0, qty, 0, 0);
    steps := [DeskStep(a, start), DeskStep(a, succeed), DeskStep(b, start), DeskStep(b, succeed)];
    var begun := Apply(qty, IDLE, start);
    var served := Apply(qty, begun, succeed);
    states := [map[], map[a := begun], map[a := served], map[a := served, b := begun], map[a := served, b := served]];
    assert served.done == [Served(digest, qty)];
    assert Done(states[4], a, 0) && Done(states[4], b, 0);
  }

  /** The exact condition: every authorisation backs at most one completed serve of a redemption, in
      every run under a set of spellings, if and only if they are all the same spelling. */
  lemma ServedOnceIffOneSpelling(qty: nat, spellings: set<Spelling>)
    requires qty > 0
    ensures (forall states, steps, i: nat ::
               DeskRun(qty, states, steps) && Under(steps, spellings) && i < |states| ==> ServedOnce(states[i]))
            <==> (forall a, b :: a in spellings && b in spellings ==> a == b)
  {
    if forall a, b :: a in spellings && b in spellings ==> a == b {
      forall states, steps, i: nat | DeskRun(qty, states, steps) && Under(steps, spellings) && i < |states|
        ensures ServedOnce(states[i])
      {
        ServingIsSafe(qty, states, steps, spellings, i);
      }
    } else {
      var a, b :| a in spellings && b in spellings && a != b;
      var states, steps := TwoSpellingsServeTwice(qty, a, b, 0);
      assert Under(steps, spellings);
      assert !ServedOnce(states[4]);
    }
  }

  // ------------------------------------------------------------------ is the recorded total the delivered total?

  function Delivered(done: seq<Served>): nat {
    if done == [] then 0 else Delivered(done[..|done| - 1]) + done[|done| - 1].tokens
  }

  ghost predicate Exact(s: Sys) {
    s.progress.served == Delivered(s.done)
  }

  /** A completion whose reservation still sees the recorded total: nothing else was recorded in
      between. */
  predicate UpToDate(s: Sys, step: Step) {
    step.Succeed? && step.id in s.inflight ==> s.inflight[step.id].already == s.progress.served
  }

  lemma StepExactIff(qty: nat, s: Sys, step: Step)
    requires Enabled(qty, s, step) && Exact(s)
    ensures Exact(Apply(qty, s, step)) <==> UpToDate(s, step)
  {
    var t := Apply(qty, s, step);
    if step.Succeed? {
      assert t.done[..|s.done|] == s.done;
    }
  }

  /** Concurrent completions overwrite each other's total. The recorded total is what was delivered
      at every moment of a run exactly when every completion is up to date, that is, when no other
      serve of the redemption recorded a different total since its reservation. */
  lemma RecordedIsDeliveredIff(qty: nat, states: seq<Sys>, steps: seq<Step>)
    requires Execution(qty, states, steps)
    ensures (forall i :: 0 <= i < |states| ==> Exact(states[i]))
        <==> (forall i :: 0 <= i < |steps| ==> UpToDate(states[i], steps[i]))
  {
    if forall i :: 0 <= i < |steps| ==> UpToDate(states[i], steps[i]) {
      forall i | 0 <= i < |states| ensures Exact(states[i]) {
        UpToDateIsExact(qty, states, steps, i);
      }
    }
    if forall i :: 0 <= i < |states| ==> Exact(states[i]) {
      forall i | 0 <= i < |steps| ensures UpToDate(states[i], steps[i]) {
        assert Exact(states[i]) && Exact(states[i+1]);
        StepExactIff(qty, states[i], steps[i]);
      }
    }
  }

  lemma {:induction false} UpToDateIsExact(qty: nat, states: seq<Sys>, steps: seq<Step>, i: nat)
    requires Execution(qty, states, steps) && i < |states|
    requires forall k :: 0 <= k < |steps| ==> UpToDate(states[k], steps[k])
    ensures Exact(states[i])
  {
    if i > 0 {
      UpToDateIsExact(qty, states, steps, i - 1);
      assert Enabled(qty, states[i-1], steps[i-1]);
      StepExactIff(qty, states[i-1], steps[i-1]);
    }
  }

  /** One serve at a time never delivers more than the redemption: then every completion is up to
      date. */
  lemma {:induction false} OneAtATimeIsUpToDate(qty: nat, states: seq<Sys>, steps: seq<Step>, i: nat)
    requires Execution(qty, states, steps) && i < |states|
    requires forall k :: 0 <= k < |states| ==> |states[k].inflight| <= 1
    ensures forall id :: id in states[i].inflight ==> states[i].inflight[id].already == states[i].progress.served
    ensures Exact(states[i]) && Delivered(states[i].done) <= qty
  {
    EntryIsSafe(qty, states, steps, i);
    if i > 0 {
      OneAtATimeIsUpToDate(qty, states, steps, i - 1);
      var s, step := states[i-1], steps[i-1];
      assert Enabled(qty, s, step) && states[i] == Apply(qty, s, step);
      StepExactIff(qty, s, step);
      if step.Start? && s.inflight != map[] {
        assert |states[i].inflight| <= 1;
        GrowsByOne(s.inflight, step.id, Inflight(step.digest, s.progress.served));
      }
      if step.Succeed? {
        SingletonEmptied(s.inflight, step.id);
      }
    }
  }

  lemma GrowsByOne(m: map<nat, Inflight>, id: nat, f: Inflight)
    requires id !in m
    ensures |m[id := f]| == |m| + 1
  {
    assert m[id := f].Keys == m.Keys + {id};
  }

  lemma SingletonEmptied(m: map<nat, Inflight>, id: nat)
    requires id in m && |m| <= 1
    ensures m - {id} == map[]
  {
    var rest := m - {id};
    assert m.Keys == rest.Keys + {id};
    assert |m.Keys| == |rest.Keys| + 1;
    assert rest.Keys == {};
  }

  /** What a completion records: every token used on top of the total its reservation saw, up to the
      redemption and no less, with its own work and time; and it reports the tokens it added. */
  lemma CompletionRecords(qty: nat, s: Sys, id: nat, used: nat, work: Hash, now: nat)
    requires Inv(qty, s) && Enabled(qty, s, Succeed(id, used, work, now))
    ensures var f, t := s.inflight[id], Apply(qty, s, Succeed(id, used, work, now));
            && t.progress.served == (if f.already + used <= qty then f.already + used else qty)
            && t.progress.work == Some(work) && t.progress.servedAt == now
            && t.progress.usedAuths == s.progress.usedAuths
            && t.done == s.done + [Served(f.digest, t.progress.served - f.already)] && id !in t.inflight
  {
  }

  /** When a completion moves the recorded total back, exactly: when it metered less than others
      recorded since its reservation. What it takes back is quota that can be served again. */
  lemma CompletionRegressesIff(qty: nat, s: Sys, id: nat, used: nat, work: Hash, now: nat)
    requires Inv(qty, s) && Enabled(qty, s, Succeed(id, used, work, now))
    ensures Apply(qty, s, Succeed(id, used, work, now)).progress.served < s.progress.served
            <==> used < s.progress.served - s.inflight[id].already
  {
  }

  /** Two overlapping serves of a ten-token redemption each deliver all ten, and only ten are
      recorded. */
  lemma OverlapDeliversTwice() returns (states: seq<Sys>, steps: seq<Step>)
    ensures Execution(10, states, steps)
    ensures var last := states[|states| - 1];
            last.progress.served == 10 && Delivered(last.done) == 20
  {
    steps := [Start(0, 1), Start(1, 2), Succeed(0, 10, 0, 0), Succeed(1, 10, 0, 0)];
    var s0 := IDLE;
    var s1 := Apply(10, s0, steps[0]);
    var s2 := Apply(10, s1, steps[1]);
    var s3 := Apply(10, s2, steps[2]);
    var s4 := Apply(10, s3, steps[3]);
    states := [s0, s1, s2, s3, s4];
    TwoDelivered(Served(1, 10), Served(2, 10));
    assert s4.done == [Served(1, 10), Served(2, 10)];
  }

  lemma ExtendRun(qty: nat, states: seq<Sys>, steps: seq<Step>, step: Step)
    requires Execution(qty, states, steps) && Enabled(qty, states[|steps|], step)
    ensures Execution(qty, states + [Apply(qty, states[|steps|], step)], steps + [step])
  {
  }

  /** A serve that reserved early and metered nothing takes the whole recorded total back. */
  lemma EarlyServeMovesBack() returns (states: seq<Sys>, steps: seq<Step>)
    ensures Execution(10, states, steps) && |states| == 5 && states[3].progress.served == 10
    ensures states[4] == Sys(Progress(0, {1, 2}, Some(0), 0), map[], [Served(2, 10), Served(1, 0)])
  {
    steps := [Start(0, 1), Start(1, 2), Succeed(1, 10, 0, 0), Succeed(0, 0, 0, 0)];
    var s1 := Apply(10, IDLE, steps[0]);
    var s2 := Apply(10, s1, steps[1]);
    var s3 := Apply(10, s2, steps[2]);
    states := [IDLE, s1, s2, s3, Apply(10, s3, steps[3])];
  }

  /** And the quota it frees is served a second time, with no two delivering serves overlapping. */
  lemma RegressReopensQuota() returns (states: seq<Sys>, steps: seq<Step>)
    ensures Execution(10, states, steps) && |states| == 7
    ensures states[3].progress.served == 10 && states[4].progress.served == 0
    ensures states[6].progress.served == 10 && Delivered(states[6].done) == 20
  {
    states, steps := EarlyServeMovesBack();
    hide Execution;
    var s5 := Apply(10, states[4], Start(2, 3));
    var s6 := Apply(10, s5, Succeed(2, 10, 0, 0));
    ExtendRun(10, states, steps, Start(2, 3));
    ExtendRun(10, states + [s5], steps + [Start(2, 3)], Succeed(2, 10, 0, 0));
    states, steps := states + [s5] + [s6], steps + [Start(2, 3)] + [Succeed(2, 10, 0, 0)];
    TwoDelivered(Served(2, 10), Served(1, 0));
    assert s6.done[..2] == [Served(2, 10), Served(1, 0)];
  }

  lemma TwoDelivered(a: Served, b: Served)
    ensures Delivered([a, b]) == a.tokens + b.tokens
  {
    assert [a, b][..1] == [a] && [a][..0] == [];
    assert Delivered([a]) == a.tokens;
  }
}
