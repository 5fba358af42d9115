/** The operator's spend journal: what it admits, meters, records and settles per session key. */
module SpendRail {
  import opened Wrappers

  type Session = nat
  type Signature = seq<nat>

  const SPEND_EXPIRY_MARGIN_SECS: nat := 120
  const MAX_TOKENS_PER_REQUEST: nat := 8192
  const DEFAULT_MAX_TOKENS: nat := 1024
  const U32_MAX: nat := 0xFFFF_FFFF

  datatype Permit = Permit(lotId: nat, sessionKey: Session, maxTokens: nat, expiry: nat, holder: nat, modelId: string)

  /** A voucher header; no signature stands for one that is not hex. */
  datatype Voucher = Voucher(session: Session, cumulative: nat, signature: Option<Signature>)

  datatype ChatBody = ChatBody(model: string, maxTokens: Option<nat>)

  datatype SpendError =
    | UnknownKey
    | NotHex
    | BadVoucher
    | CapExceeded
    | StaleVoucher
    | AheadVoucher
    | KeyExpired
    | InsufficientQuota
    | ModelMismatch
  {
    /** The errors reported as HTTP 402. */
    predicate PaymentRequired() {
      CapExceeded? || InsufficientQuota?
    }
  }

  /** Latest voucher held for a session; an empty signature is none at all. */
  datatype Stored = Stored(cumulative: nat, signature: Signature)

  datatype Journal = Journal(
    permits: map<Session, Permit>,
    served: map<Session, nat>,
    voucher: map<Session, Stored>,
    settled: map<Session, nat>)
  {
    function Served(s: Session): nat {
      if s in served then served[s] else 0
    }

    function Latest(s: Session): Stored {
      if s in voucher then voucher[s] else Stored(0, [])
    }

    function Settled(s: Session): nat {
      if s in settled then settled[s] else 0
    }
  }

  /** Signer recovery over the voucher digest of a lot, session and total. */
  type Recovery = (nat, Session, nat, Signature) -> Option<Session>

  // ------------------------------------------------------------------ decisions

  /** The session's permit, provided the voucher is one its key signed within the cap. */
  function CheckVoucher(j: Journal, recover: Recovery, v: Voucher): Result<Permit, SpendError> {
    if v.session !in j.permits then Failure(UnknownKey)
    else
      var p := j.permits[v.session];
      if v.signature.None? then Failure(NotHex)
      else if recover(p.lotId, p.sessionKey, v.cumulative, v.signature.value) != Some(p.sessionKey) then
          Failure(BadVoucher)
      else if v.cumulative > p.maxTokens then Failure(CapExceeded)
      else Success(p)
  }

  datatype Admission = Admission(permit: Permit, alreadyServed: nat, cap: nat)

  /** The gate of both serve paths. */
  function Admit(j: Journal, recover: Recovery, v: Voucher, body: ChatBody, now: nat): Result<Admission, SpendError> {
    match CheckVoucher(j, recover, v)
    case Failure(e) => Failure(e)
    case Success(p) =>
      var served := j.Served(v.session);
      var remaining := Saturating(p.maxTokens, served);
      if v.cumulative < served then Failure(StaleVoucher)
      else if now + SPEND_EXPIRY_MARGIN_SECS > p.expiry then Failure(KeyExpired)
      else if remaining == 0 then Failure(InsufficientQuota)
      else if body.model != "" && body.model != p.modelId then Failure(ModelMismatch)
      else
        var wanted := if body.maxTokens.Some? then body.maxTokens.value else DEFAULT_MAX_TOKENS;
        Success(Admission(p, served, Min(Min(wanted, MAX_TOKENS_PER_REQUEST), Min(remaining, U32_MAX))))
  }

  /** The gate of a trailing acknowledgement. */
  function AdmitAck(j: Journal, recover: Recovery, v: Voucher): Result<Permit, SpendError> {
    match CheckVoucher(j, recover, v)
    case Failure(e) => Failure(e)
    case Success(p) => if v.cumulative > j.Served(v.session) then Failure(AheadVoucher) else Success(p)
  }

  /** The voucher is one the session's registered key signed over the lot, itself and the total, within the
      permit's maximum. */
  predicate Backed(j: Journal, recover: Recovery, v: Voucher) {
    && v.session in j.permits && v.signature.Some?
    && var p := j.permits[v.session];
       && recover(p.lotId, p.sessionKey, v.cumulative, v.signature.value) == Some(p.sessionKey)
       && v.cumulative <= p.maxTokens
  }

  /** When a request is served: its voucher is backed and acknowledges everything served, the permit does not
      expire within the margin and has quota left, and the model is its own. The cap it is served
      under is the least of what was asked (or the default), the limit per request and the quota left. */
  lemma AdmitsIff(j: Journal, recover: Recovery, v: Voucher, body: ChatBody, now: nat)
    ensures var r := Admit(j, recover, v, body, now);
            && (r.Success? <==>
                  && Backed(j, recover, v) && j.Served(v.session) <= v.cumulative
                  && var p := j.permits[v.session];
                     && now + SPEND_EXPIRY_MARGIN_SECS <= p.expiry && j.Served(v.session) < p.maxTokens
                     && (body.model == "" || body.model == p.modelId))
            && (r.Success? ==>
                  && var p, asked := j.permits[v.session],
                                     if body.maxTokens.Some? then body.maxTokens.value else DEFAULT_MAX_TOKENS;
                     && r.value.permit == p && r.value.alreadyServed == j.Served(v.session)
                     && r.value.cap
                        == Min(asked, Min(MAX_TOKENS_PER_REQUEST, p.maxTokens - j.Served(v.session))))
  {
  }

  /** When a trailing acknowledgement is kept: it is backed and claims no more than was served. */
  lemma AcksIff(j: Journal, recover: Recovery, v: Voucher)
    ensures AdmitAck(j, recover, v).Success? <==> Backed(j, recover, v) && v.cumulative <= j.Served(v.session)
  {
  }

  // ------------------------------------------------------------------ effects

  /** Keep an admitted request's voucher unless a later one is already held. */
  function WithRequestVoucher(j: Journal, s: Session, cumulative: nat, signature: Signature): Journal {
    if cumulative >= j.Latest(s).cumulative then j.(voucher := j.voucher[s := Stored(cumulative, signature)])
    else j
  }

  /** Keep an acknowledged voucher only if it is newer. */
  function WithAckVoucher(j: Journal, s: Session, cumulative: nat, signature: Signature): Journal {
    j.(voucher := j.voucher[s := if cumulative > j.Latest(s).cumulative then Stored(cumulative, signature)
                            else j.Latest(s)])
  }

  function WithServed(j: Journal, s: Session, total: nat): Journal {
    j.(served := j.served[s := total])
  }

  /** What one completion adds, metered within the quota. */
  function Metered(a: Admission, used: nat): nat {
    Min(used, Saturating(a.permit.maxTokens, a.alreadyServed))
  }

  /** The total a flush would settle for a session now, if any. */
  function PendingSettlement(j: Journal, s: Session): Option<nat> {
    if s in j.permits && j.Latest(s).cumulative > j.Settled(s) && j.Latest(s).signature != [] then
      Some(j.Latest(s).cumulative)
    else None
  }

  function WithSettled(j: Journal, s: Session, total: nat): Journal {
    j.(settled := j.settled[s := total])
  }

  // ------------------------------------------------------------------ dropped channels

  /** Nothing is left of a session. */
  ghost predicate Forgotten(j: Journal, s: Session) {
    s !in j.permits && s !in j.served && s !in j.voucher && s !in j.settled
  }

  /** Two journals hold exactly the same of a session. */
  ghost predicate Untouched(a: Journal, b: Journal, s: Session) {
    && (s in a.permits <==> s in b.permits) && (s in a.permits ==> a.permits[s] == b.permits[s])
    && (s in a.served <==> s in b.served) && (s in a.served ==> a.served[s] == b.served[s])
    && (s in a.voucher <==> s in b.voucher) && (s in a.voucher ==> a.voucher[s] == b.voucher[s])
    && (s in a.settled <==> s in b.settled) && (s in a.settled ==> a.settled[s] == b.settled[s])
  }

  /** A journal from which exactly the sessions in `dead` have been dropped. */
  ghost predicate Drops(before: Journal, after: Journal, dead: seq<Session>) {
    forall s :: if s in dead then Forgotten(after, s) else Untouched(before, after, s)
  }

  /** A dropped channel is served no more, acknowledges nothing and settles nothing; every other
      channel is decided exactly as before. */
  lemma DroppedIsRefused(before: Journal, after: Journal, dead: seq<Session>, recover: Recovery,
                         v: Voucher, body: ChatBody, now: nat)
    requires Drops(before, after, dead)
    ensures v.session in dead ==>
              && Admit(after, recover, v, body, now) == Failure(UnknownKey)
              && AdmitAck(after, recover, v) == Failure(UnknownKey)
              && PendingSettlement(after, v.session).None?
    ensures v.session !in dead ==>
              && Admit(after, recover, v, body, now) == Admit(before, recover, v, body, now)
              && AdmitAck(after, recover, v) == AdmitAck(before, recover, v)
              && PendingSettlement(after, v.session) == PendingSettlement(before, v.session)
  {
    assert v.session !in dead ==> Untouched(before, after, v.session);
  }

  // ------------------------------------------------------------------ the service

  class SpendSvc {
    const recover: Recovery
    var permits: map<Session, Permit>
    var served: map<Session, nat>
    var voucher: map<Session, Stored>
    var settled: map<Session, nat>

    function State(): Journal
      reads this
    {
      Journal(permits, served, voucher, settled)
    }

    constructor (recovery: Recovery, journal: Journal)
      ensures recover == recovery && State() == journal
    {
      recover := recovery;
      permits, served, voucher, settled := journal.permits, journal.served, journal.voucher, journal.settled;
    }

    /** Store a holder's permit, already verified against the chain. */
    method Register(p: Permit)
      modifies this`permits
      ensures State() == old(State()).(permits := old(permits)[p.sessionKey := p])
    {
      permits := permits[p.sessionKey := p];
    }

    /** Record the voucher as the latest settleable proof before serving. */
    method Authorize(v: Voucher, body: ChatBody, now: nat) returns (r: Result<Admission, SpendError>)
      modifies this`voucher
      ensures r == Admit(old(State()), recover, v, body, now)
      ensures r.Failure? ==> State() == old(State())
      ensures r.Success? ==>
          v.signature.Some? && State() == WithRequestVoucher(old(State()), v.session, v.cumulative, v.signature.value)
      ensures r.Success? ==>
          var was, latest := old(State()).Latest(v.session), State().Latest(v.session);
          && latest.cumulative == Max(was.cumulative, v.cumulative)
          && latest.signature == if v.cumulative >= was.cumulative then v.signature.value else was.signature
    {
      r := Admit(State(), recover, v, body, now);
      if r.Failure? {
        return;
      }
      var entry := State().Latest(v.session);
      if v.cumulative >= entry.cumulative {
        voucher := voucher[v.session := Stored(v.cumulative, v.signature.value)];
      }
    }

    method RecordServed(s: Session, total: nat)
      modifies this`served
      ensures State() == WithServed(old(State()), s, total)
    {
      served := served[s := total];
    }

    /** The end of a completion, buffered or streamed: meter what was used. */
    method Complete(a: Admission, used: nat) returns (nextCumulative: nat)
      modifies this`served
      ensures nextCumulative == a.alreadyServed + Metered(a, used)
      ensures a.alreadyServed <= nextCumulative <= Max(a.alreadyServed, a.permit.maxTokens)
      ensures nextCumulative - a.alreadyServed <= used
      ensures a.alreadyServed + used <= a.permit.maxTokens ==> nextCumulative == a.alreadyServed + used
      ensures a.alreadyServed <= a.permit.maxTokens < a.alreadyServed + used ==> nextCumulative == a.permit.maxTokens
      ensures State() == WithServed(old(State()), a.permit.sessionKey, nextCumulative)
    {
      nextCumulative := a.alreadyServed + Metered(a, used);
      RecordServed(a.permit.sessionKey, nextCumulative);
    }

    method Ack(v: Voucher) returns (r: Result<nat, SpendError>)
      modifies this`voucher
      ensures r == match AdmitAck(old(State()), recover, v)
                   case Success(_) => Success(v.cumulative)
                   case Failure(e) => Failure(e)
      ensures r.Failure? ==> State() == old(State())
      ensures r.Success? ==>
          v.signature.Some? && State() == WithAckVoucher(old(State()), v.session, v.cumulative, v.signature.value)
      ensures r.Success? ==>
          var was, latest := old(State()).Latest(v.session), State().Latest(v.session);
          && latest.cumulative == Max(was.cumulative, v.cumulative)
          && latest.signature == if v.cumulative > was.cumulative then v.signature.value else was.signature
    {
      var checked := AdmitAck(State(), recover, v);
      if checked.Failure? {
        return Failure(checked.error);
      }
      var entry := State().Latest(v.session);
      if v.cumulative > entry.cumulative {
        entry := Stored(v.cumulative, v.signature.value);
      }
      voucher := voucher[v.session := entry];
      return Success(v.cumulative);
    }

    /** A settlement transaction for `total` went through; the metric counts the difference, a
        64-bit subtraction. */
    method Settle(s: Session, total: nat) returns (delta: nat)
      modifies this`settled
      ensures State() == WithSettled(old(State()), s, total)
      ensures delta == (total - old(State()).Settled(s)) % (U64_MAX + 1)
      ensures old(State()).Settled(s) <= total <= U64_MAX ==> old(State()).Settled(s) + delta == State().Settled(s)
    {
      delta := (total - State().Settled(s)) % (U64_MAX + 1);
      settled := settled[s := total];
    }

    /** Drop the revoked and resold channels, one after the other. */
    method ReconcileRevocations(dead: seq<Session>)
      modifies this
      ensures Drops(old(State()), State(), dead)
    {
      var i := 0;
      while i < |dead|
        invariant i <= |dead|
        invariant Drops(old(State()), State(), dead[..i])
      {
        permits := permits - {dead[i]};
        voucher := voucher - {dead[i]};
        served := served - {dead[i]};
        settled := settled - {dead[i]};
        assert dead[..i+1] == dead[..i] + [dead[i]];
        i := i + 1;
      }
      assert dead[..i] == dead;
    }
  }
}
