/** The spend rail as a two-party channel: one gateway and one honest operator over a network that
    loses, delays, repeats and forges messages, with one request in service and one flush at a
    time. */
module SpendProtocol {
  import opened Wrappers
  import opened SpendRail
  import Gateway

  /** The registered channel, the gateway's configured cap for it (zero when unknown, otherwise
      equal to the permit's), and signer recovery. */
  datatype Link = Link(permit: Permit, gatewayCap: nat, recover: Recovery) {
    predicate WellFormed() {
      gatewayCap == 0 || gatewayCap == permit.maxTokens
    }

    function Key(): Session {
      permit.sessionKey
    }
  }

  datatype Reply = Completed(nextCumulative: nat) | Refused(paymentRequired: bool)

  /** The request in service, and the gateway request it answers, if it is one. */
  datatype Serving = Serving(admission: Admission, replyTo: Option<nat>)

  datatype Outstanding = Outstanding(id: nat, start: nat, maxDelta: nat)

  datatype Sys = Sys(
    // operator
    journal: Journal,
    serving: Option<Serving>,
    ackChecked: set<Stored>,
    flushing: Option<nat>,
    lastUsed: nat,
    // gateway
    acked: nat,
    outstanding: Option<Outstanding>,
    nextId: nat,
    // network and history
    signed: set<nat>,
    sent: set<(nat, nat)>,
    replies: set<(nat, Reply)>)

  /** Every step is one of the operator's journal operations or one of the gateway's. */
  datatype Step =
    | Send(maxDelta: nat)
    | GiveUp
    | Receive(reply: Reply, streaming: bool)
    | Arrive(v: Voucher, body: ChatBody, now: nat, replyTo: Option<nat>)
    | Finish(used: nat)
    | Fail
    | CheckAck(v: Voucher)
    | StoreAck(entry: Stored)
    | StartFlush
    | LandFlush(landed: bool)
    | Elsewhere(journal: Journal)

  predicate HasQuota(l: Link, acked: nat) {
    l.gatewayCap == 0 || acked < l.gatewayCap
  }

  /** Only the gateway holds the session key: a voucher that verifies is one it signed. */
  predicate Unforged(l: Link, s: Sys, v: Voucher) {
    v.signature.Some? && l.recover(l.permit.lotId, l.Key(), v.cumulative, v.signature.value) == Some(l.Key()) ==>
      v.cumulative in s.signed
  }

  ghost predicate SameFor(key: Session, a: Journal, b: Journal) {
    && (key in a.permits <==> key in b.permits) && (key in a.permits ==> a.permits[key] == b.permits[key])
    && a.Served(key) == b.Served(key) && a.Latest(key) == b.Latest(key) && a.Settled(key) == b.Settled(key)
  }

  ghost predicate Enabled(l: Link, s: Sys, step: Step) {
    match step
    case Send(maxDelta) => s.outstanding.None? && HasQuota(l, s.acked)
    case GiveUp => s.outstanding.Some?
    case Receive(reply, streaming) => s.outstanding.Some? && (s.outstanding.value.id, reply) in s.replies
    case Arrive(v, body, now, replyTo) =>
      && s.serving.None? && v.session == l.Key() && Unforged(l, s, v)
      && (replyTo.Some? ==> (replyTo.value, v.cumulative) in s.sent)
    case Finish(used) => s.serving.Some?
    case Fail => s.serving.Some?
    case CheckAck(v) => v.session == l.Key() && Unforged(l, s, v)
    case StoreAck(entry) => entry in s.ackChecked
    case StartFlush => s.flushing.None? && PendingSettlement(s.journal, l.Key()).Some?
    case LandFlush(landed) => s.flushing.Some?
    case Elsewhere(journal) => SameFor(l.Key(), s.journal, journal)
  }

  function Answer(s: Sys, replyTo: Option<nat>, reply: Reply): Sys {
    if replyTo.Some? then s.(replies := s.replies + {(replyTo.value, reply)}) else s
  }

  /** The gateway's reaction to a reply: advance within the request's own cap, or drain on a 402. */
  function React(l: Link, s: Sys, reply: Reply, streaming: bool): Sys
    requires s.outstanding.Some?
  {
    var o := s.outstanding.value;
    match reply
    case Completed(claimed) =>
      var next := Gateway.CappedNext(o.start, claimed, o.maxDelta);
      s.(acked := Max(s.acked, next), outstanding := None,
         signed := if next > s.acked || streaming then s.signed + {next} else s.signed)
    case Refused(paymentRequired) =>
      s.(acked := if paymentRequired && l.gatewayCap > 0 then l.gatewayCap else s.acked, outstanding := None)
  }

  function Apply(l: Link, s: Sys, step: Step): Sys
    requires Enabled(l, s, step)
  {
    match step
    case Send(maxDelta) =>
      s.(signed := s.signed + {s.acked}, sent := s.sent + {(s.nextId, s.acked)},
         outstanding := Some(Outstanding(s.nextId, s.acked, maxDelta)), nextId := s.nextId + 1)
    case GiveUp => s.(outstanding := None)
    case Receive(reply, streaming) => React(l, s, reply, streaming)
    case Arrive(v, body, now, replyTo) =>
      (match Admit(s.journal, l.recover, v, body, now)
       case Success(a) =>
         s.(journal := WithRequestVoucher(s.journal, v.session, v.cumulative, v.signature.value),
            serving := Some(Serving(a, replyTo)))
       case Failure(e) => Answer(s, replyTo, Refused(e.PaymentRequired())))
    case Finish(used) =>
      var a := s.serving.value.admission;
      var total := a.alreadyServed + Metered(a, used);
      Answer(s.(journal := WithServed(s.journal, l.Key(), total), lastUsed := Metered(a, used), serving := None),
             s.serving.value.replyTo, Completed(total))
    case Fail => Answer(s.(serving := None), s.serving.value.replyTo, Refused(false))
    case CheckAck(v) =>
      if AdmitAck(s.journal, l.recover, v).Success? then
        s.(ackChecked := s.ackChecked + {Stored(v.cumulative, v.signature.value)})
      else s
    case StoreAck(entry) => s.(journal := WithAckVoucher(s.journal, l.Key(), entry.cumulative, entry.signature))
    case StartFlush => s.(flushing := PendingSettlement(s.journal, l.Key()))
    case LandFlush(landed) =>
      s.(flushing := None, journal := if landed then WithSettled(s.journal, l.Key(), s.flushing.value) else s.journal)
    case Elsewhere(journal) => s.(journal := journal)
  }

  // ------------------------------------------------------------------ the channel invariant

  function Served(l: Link, s: Sys): nat { s.journal.Served(l.Key()) }
  function VoucherTotal(l: Link, s: Sys): nat { s.journal.Latest(l.Key()).cumulative }
  function SettledTotal(l: Link, s: Sys): nat { s.journal.Settled(l.Key()) }

  /** The guarantee both parties rely on. */
  ghost predicate ChannelSafe(l: Link, s: Sys) {
    && SettledTotal(l, s) <= VoucherTotal(l, s) <= s.acked <= Served(l, s) <= l.permit.maxTokens
    && Served(l, s) - VoucherTotal(l, s) <= s.lastUsed
  }

  ghost predicate NetworkInv(l: Link, s: Sys) {
    && (forall c :: c in s.signed ==> c <= s.acked)
    && (forall id, c :: (id, c) in s.sent ==> id < s.nextId && c <= s.acked)
    && (forall e :: e in s.ackChecked ==> e.cumulative <= s.acked)
    && (forall id, r :: (id, r) in s.replies ==>
          && id < s.nextId
          && (r.Completed? ==> r.nextCumulative <= Served(l, s))
          && (r == Refused(true) ==> Served(l, s) == l.permit.maxTokens))
    && (s.outstanding.Some? ==> s.outstanding.value.start == s.acked && s.outstanding.value.id < s.nextId)
  }

  ghost predicate OperatorInv(l: Link, s: Sys) {
    && l.Key() in s.journal.permits && s.journal.permits[l.Key()] == l.permit
    && (s.serving.Some? ==>
          && s.serving.value.admission.permit == l.permit
          && s.serving.value.admission.alreadyServed == Served(l, s) == VoucherTotal(l, s)
          && (s.serving.value.replyTo.Some? ==> s.serving.value.replyTo.value < s.nextId))
    && (s.flushing.Some? ==> SettledTotal(l, s) < s.flushing.value <= VoucherTotal(l, s))
  }

  ghost predicate Inv(l: Link, s: Sys) {
    ChannelSafe(l, s) && NetworkInv(l, s) && OperatorInv(l, s)
  }

  /** A freshly registered channel. */
  ghost predicate Init(l: Link, s: Sys) {
    && s.journal.permits == map[l.Key() := l.permit] && s.journal.served == map[] && s.journal.voucher == map[]
    && s.journal.settled == map[]
    && s == Sys(s.journal, None, {}, None, 0, 0, None, 0, {}, {}, {})
  }

  lemma GatewayStepKeeps(l: Link, s: Sys, step: Step)
    requires l.WellFormed() && Inv(l, s) && Enabled(l, s, step)
    requires step.Send? || step.GiveUp? || step.Receive?
    ensures Inv(l, Apply(l, s, step))
  {
  }

  lemma ArriveKeeps(l: Link, s: Sys, step: Step)
    requires l.WellFormed() && Inv(l, s) && Enabled(l, s, step) && step.Arrive?
    ensures Inv(l, Apply(l, s, step))
  {
  }

  lemma FinishKeeps(l: Link, s: Sys, step: Step)
    requires l.WellFormed() && Inv(l, s) && Enabled(l, s, step) && (step.Finish? || step.Fail?)
    ensures Inv(l, Apply(l, s, step))
  {
  }

  lemma SettleStepKeeps(l: Link, s: Sys, step: Step)
    requires l.WellFormed() && Inv(l, s) && Enabled(l, s, step)
    requires step.CheckAck? || step.StoreAck? || step.StartFlush? || step.LandFlush? || step.Elsewhere?
    ensures Inv(l, Apply(l, s, step))
  {
  }

  lemma StepKeeps(l: Link, s: Sys, step: Step)
    requires l.WellFormed() && Inv(l, s) && Enabled(l, s, step)
    ensures Inv(l, Apply(l, s, step))
  {
    if step.Send? || step.GiveUp? || step.Receive? { GatewayStepKeeps(l, s, step); }
    else if step.Arrive? { ArriveKeeps(l, s, step); }
    else if step.Finish? || step.Fail? { FinishKeeps(l, s, step); }
    else { SettleStepKeeps(l, s, step); }
  }

  // ------------------------------------------------------------------ whole runs

  ghost predicate Execution(l: Link, states: seq<Sys>, steps: seq<Step>) {
    && |states| == |steps| + 1
    && forall i :: 0 <= i < |steps| ==> Enabled(l, states[i], steps[i]) && states[i+1] == Apply(l, states[i], steps[i])
  }

  /** In every run from registration, at every moment: settled <= voucher <= acked <= served <= cap,
      the operator's unacknowledged service is at most the last request's usage, and so the
      status subtraction voucher - settled never underflows. */
  lemma {:induction false} ChannelAlwaysSafe(l: Link, states: seq<Sys>, steps: seq<Step>, i: nat)
    requires l.WellFormed() && Execution(l, states, steps) && Init(l, states[0]) && i < |states|
    ensures Inv(l, states[i]) && ChannelSafe(l, states[i])
  {
    if i > 0 {
      ChannelAlwaysSafe(l, states, steps, i - 1);
      assert Enabled(l, states[i-1], steps[i-1]);
      StepKeeps(l, states[i-1], steps[i-1]);
    }
  }

  /** A settlement in flight is always for more than is settled, so the difference it reports when it
      lands, a 64-bit subtraction, is the true one. */
  lemma FlushNeverUnderflows(l: Link, states: seq<Sys>, steps: seq<Step>, i: nat)
    requires l.WellFormed() && Execution(l, states, steps) && Init(l, states[0]) && i < |states|
    requires states[i].flushing.Some? && l.permit.maxTokens <= U64_MAX
    ensures var total, settled := states[i].flushing.value, SettledTotal(l, states[i]);
            settled < total <= VoucherTotal(l, states[i]) && (total - settled) % (U64_MAX + 1) == total - settled
  {
    ChannelAlwaysSafe(l, states, steps, i);
  }

  /** Dropping other channels is one of the steps that happen elsewhere. */
  lemma ReconcileIsElsewhere(l: Link, s: Sys, after: Journal, dead: seq<Session>)
    requires Drops(s.journal, after, dead) && l.Key() !in dead
    ensures Enabled(l, s, Elsewhere(after))
  {
    assert Untouched(s.journal, after, l.Key());
  }

  /** What a completion bills: every token used, up to the permit's maximum and no less; and that total is
      what the gateway is told. */
  lemma FinishBillsUsage(l: Link, s: Sys, used: nat)
    requires l.WellFormed() && Inv(l, s) && s.serving.Some?
    ensures var t := Apply(l, s, Finish(used));
            && (Served(l, s) + used <= l.permit.maxTokens ==> Served(l, t) == Served(l, s) + used)
            && (Served(l, s) + used > l.permit.maxTokens ==> Served(l, t) == l.permit.maxTokens)
            && (s.serving.value.replyTo.Some? ==>
                  (s.serving.value.replyTo.value, Completed(Served(l, t))) in t.replies)
  {
  }

  /** None of the four totals ever moves back. */
  lemma TotalsNeverRegress(l: Link, s: Sys, step: Step)
    requires l.WellFormed() && Inv(l, s) && Enabled(l, s, step)
    ensures var t := Apply(l, s, step);
            && Served(l, s) <= Served(l, t) && VoucherTotal(l, s) <= VoucherTotal(l, t)
            && SettledTotal(l, s) <= SettledTotal(l, t) && s.acked <= t.acked
  {
  }

  // ------------------------------------------------------------------ when the channel makes progress

  /** The operator is paid what it holds a voucher for: a flush can start exactly when a signed voucher is
      ahead of what is settled, and once it lands everything acknowledged by that voucher is. */
  lemma FlushCatchesUp(l: Link, s: Sys)
    requires l.WellFormed() && Inv(l, s)
    ensures Enabled(l, s, StartFlush) <==>
              && s.flushing.None? && SettledTotal(l, s) < VoucherTotal(l, s)
              && s.journal.Latest(l.Key()).signature != []
    ensures Enabled(l, s, StartFlush) ==>
              && Enabled(l, Apply(l, s, StartFlush), LandFlush(true))
              && SettledTotal(l, Apply(l, Apply(l, s, StartFlush), LandFlush(true))) == VoucherTotal(l, s)
  {
  }

  /** The gateway's current voucher, on a request that nothing but the totals could refuse. */
  ghost predicate CurrentRequest(l: Link, s: Sys, v: Voucher, body: ChatBody, now: nat) {
    && v.session == l.Key() && v.cumulative == s.acked && v.signature.Some?
    && l.recover(l.permit.lotId, l.Key(), v.cumulative, v.signature.value) == Some(l.Key())
    && now + SPEND_EXPIRY_MARGIN_SECS <= l.permit.expiry && (body.model == "" || body.model == l.permit.modelId)
  }

  /** The operator serves the gateway's next request exactly when everything served is acknowledged
      and quota is left; serving it brings the settleable voucher fully up to date, so a lost
      trailing acknowledgement costs nothing. */
  lemma AdmittedIffAcknowledged(l: Link, s: Sys, v: Voucher, body: ChatBody, now: nat)
    requires l.WellFormed() && Inv(l, s) && CurrentRequest(l, s, v, body, now)
    ensures Admit(s.journal, l.recover, v, body, now).Success? <==> s.acked == Served(l, s) < l.permit.maxTokens
    ensures Admit(s.journal, l.recover, v, body, now).Success? ==>
              WithRequestVoucher(s.journal, v.session, v.cumulative, v.signature.value).Latest(l.Key()).cumulative
                == Served(l, s)
  {
  }

  /** A reply that moves nothing: it claims no more than is acknowledged, or refuses without a drain. */
  predicate Idle(l: Link, acked: nat, r: Reply) {
    match r
    case Completed(claimed) => claimed <= acked
    case Refused(paymentRequired) => paymentRequired ==> l.gatewayCap == 0
  }

  /** Tokens were served that no reply still on its way can get acknowledged. */
  ghost predicate Wedged(l: Link, s: Sys) {
    && Stranded(l, s)
    && (s.outstanding.Some? ==> forall r :: (s.outstanding.value.id, r) in s.replies ==> Idle(l, s.acked, r))
  }

  /** Tokens were served that are not acknowledged, and nothing is in service. */
  ghost predicate Stranded(l: Link, s: Sys) {
    s.acked < Served(l, s) && s.serving.None?
  }

  lemma WedgedStep(l: Link, s: Sys, step: Step)
    requires l.WellFormed() && Inv(l, s) && Enabled(l, s, step) && Wedged(l, s)
    ensures var t := Apply(l, s, step);
            Wedged(l, t) && t.acked == s.acked && Served(l, t) == Served(l, s)
  {
  }

  /** A wedged channel stays wedged in every continuation: nothing more is served or acknowledged,
      and what was served past the acknowledged total is never settled. */
  lemma {:induction false} WedgeIsForever(l: Link, states: seq<Sys>, steps: seq<Step>, i: nat)
    requires l.WellFormed() && Execution(l, states, steps) && Inv(l, states[0]) && Wedged(l, states[0]) && i < |states|
    ensures Inv(l, states[i]) && Wedged(l, states[i])
    ensures states[i].acked == states[0].acked && Served(l, states[i]) == Served(l, states[0])
    ensures SettledTotal(l, states[i]) < Served(l, states[0])
  {
    if i > 0 {
      WedgeIsForever(l, states, steps, i - 1);
      assert Enabled(l, states[i-1], steps[i-1]);
      StepKeeps(l, states[i-1], steps[i-1]);
      WedgedStep(l, states[i-1], steps[i-1]);
    }
  }

  /** What a completion that metered `metered` leaves until a reply is received: stranded tokens if it
      metered any, everything acknowledged otherwise. */
  ghost predicate LeftBy(l: Link, s: Sys, metered: nat) {
    if metered > 0 then Stranded(l, s) else s.acked == Served(l, s)
  }

  /** A reply nobody is waiting for wedges the channel at once: the request was given up on before the
      completion, or was a repetition of one already answered. */
  lemma UnawaitedFinishWedgesIff(l: Link, s: Sys, used: nat)
    requires l.WellFormed() && Inv(l, s) && s.serving.Some?
    requires s.outstanding.None? || s.serving.value.replyTo != Some(s.outstanding.value.id)
    ensures Wedged(l, Apply(l, s, Finish(used))) <==> Metered(s.serving.value.admission, used) > 0
  {
  }

  /** A reply that was awaited wedges it when the request is given up on. */
  lemma LostReplyWedges(l: Link, s: Sys, used: nat)
    requires l.WellFormed() && Inv(l, s) && s.outstanding.Some? && s.serving.Some?
    ensures Enabled(l, s, Finish(used)) && Enabled(l, Apply(l, s, Finish(used)), GiveUp)
    ensures Wedged(l, Apply(l, Apply(l, s, Finish(used)), GiveUp)) <==> Metered(s.serving.value.admission, used) > 0
  {
  }

  /** The usual order of a timeout: given up on first, completed later. */
  lemma TimeoutThenFinishWedges(l: Link, s: Sys, used: nat)
    requires l.WellFormed() && Inv(l, s) && s.outstanding.Some? && s.serving.Some?
    ensures Enabled(l, Apply(l, s, GiveUp), Finish(used))
    ensures Wedged(l, Apply(l, Apply(l, s, GiveUp), Finish(used))) <==> Metered(s.serving.value.admission, used) > 0
  {
    StepKeeps(l, s, GiveUp);
    UnawaitedFinishWedgesIff(l, Apply(l, s, GiveUp), used);
  }

  lemma LeftByStep(l: Link, s: Sys, step: Step, metered: nat)
    requires l.WellFormed() && Inv(l, s) && Enabled(l, s, step) && LeftBy(l, s, metered)
    requires !step.Receive? && !step.Finish?
    ensures LeftBy(l, Apply(l, s, step), metered)
  {
    TotalsNeverRegress(l, s, step);
    StepKeeps(l, s, step);
  }

  lemma RunStep(l: Link, states: seq<Sys>, steps: seq<Step>, i: nat)
    requires l.WellFormed() && Execution(l, states, steps) && Inv(l, states[0]) && i < |steps|
    ensures Inv(l, states[i]) && Enabled(l, states[i], steps[i]) && states[i+1] == Apply(l, states[i], steps[i])
  {
    RunKeepsInv(l, states, steps, i);
  }

  lemma FinishedStep(l: Link, states: seq<Sys>, steps: seq<Step>, i: nat)
    requires l.WellFormed() && Execution(l, states, steps) && Inv(l, states[0])
    requires i < |steps| && steps[i].Finish? && states[i].serving.Some?
    ensures LeftBy(l, states[i+1], Metered(states[i].serving.value.admission, steps[i].used))
  {
    RunStep(l, states, steps, i);
  }

  /** In a stretch in which the gateway receives no reply and the operator completes nothing, whatever
      a completion left stays. */
  lemma {:induction false} StretchKeeps(l: Link, states: seq<Sys>, steps: seq<Step>, i: nat, j: nat, metered: nat)
    requires l.WellFormed() && Execution(l, states, steps) && Inv(l, states[0])
    requires i <= j <= |steps| && LeftBy(l, states[i], metered)
    requires forall k :: i <= k < j ==> !steps[k].Receive? && !steps[k].Finish?
    ensures LeftBy(l, states[j], metered)
    decreases j - i
  {
    hide Inv, Apply, LeftBy, Enabled;
    if i < j {
      RunStep(l, states, steps, i);
      LeftByStep(l, states[i], steps[i], metered);
      StretchKeeps(l, states, steps, i + 1, j, metered);
    }
  }

  lemma {:induction false} RunKeepsInv(l: Link, states: seq<Sys>, steps: seq<Step>, i: nat)
    requires l.WellFormed() && Execution(l, states, steps) && Inv(l, states[0]) && i < |states|
    ensures Inv(l, states[i])
  {
    if i > 0 {
      RunKeepsInv(l, states, steps, i - 1);
      assert Enabled(l, states[i-1], steps[i-1]) && states[i] == Apply(l, states[i-1], steps[i-1]);
      StepKeeps(l, states[i-1], steps[i-1]);
    }
  }

  /** How a channel wedges, exactly, in any run: once the gateway no longer waits, having received no
      reply since a completion, the channel is wedged if and only if that completion metered
      anything. */
  lemma UnreceivedReplyWedgesIff(l: Link, states: seq<Sys>, steps: seq<Step>, i: nat, j: nat)
    requires l.WellFormed() && Execution(l, states, steps) && Inv(l, states[0])
    requires i < j <= |steps| && steps[i].Finish? && states[i].serving.Some?
    requires forall k :: i < k < j ==> !steps[k].Receive? && !steps[k].Finish?
    requires states[j].outstanding.None?
    ensures Wedged(l, states[j]) <==> Metered(states[i].serving.value.admission, steps[i].used) > 0
  {
    RunKeepsInv(l, states, steps, j);
    FinishedStep(l, states, steps, i);
    StretchKeeps(l, states, steps, i + 1, j, Metered(states[i].serving.value.admission, steps[i].used));
  }

  /** A delivered completion leaves the channel fully acknowledged exactly when it metered no more
      than the request's own max_tokens; past that the capped acknowledgement wedges it. */
  lemma CompletionSettlesOrWedges(l: Link, s: Sys, streaming: bool, claimed: nat)
    requires l.WellFormed() && Inv(l, s) && s.serving.None? && claimed == Served(l, s) <= U64_MAX
    requires Enabled(l, s, Receive(Completed(claimed), streaming))
    ensures var o, t := s.outstanding.value, Apply(l, s, Receive(Completed(claimed), streaming));
            && (t.acked == Served(l, t) <==> claimed <= o.start + o.maxDelta)
            && (Wedged(l, t) <==> claimed > o.start + o.maxDelta)
  {
  }

  /** A served request: the gateway's first voucher has arrived and been admitted. */
  lemma FirstRequestServed(l: Link, s0: Sys, maxDelta: nat) returns (arrive: Step, states: seq<Sys>)
    requires l.WellFormed() && Init(l, s0) && l.permit.maxTokens >= 1 && l.permit.expiry >= SPEND_EXPIRY_MARGIN_SECS
    requires l.recover(l.permit.lotId, l.Key(), 0, [1]) == Some(l.Key())
    ensures Execution(l, states, [Send(maxDelta), arrive]) && states[0] == s0 && Inv(l, states[2])
    ensures states[2].serving.Some? && states[2].serving.value.replyTo == Some(0)
    ensures states[2].serving.value.admission.alreadyServed == 0 && states[2].serving.value.admission.permit == l.permit
    ensures states[2].outstanding == Some(Outstanding(0, 0, maxDelta))
  {
    var s1 := Apply(l, s0, Send(maxDelta));
    arrive := Arrive(Voucher(l.Key(), 0, Some([1])), ChatBody("", None), 0, Some(0));
    assert Enabled(l, s1, arrive);
    states := [s0, s1, Apply(l, s1, arrive)];
    ChannelAlwaysSafe(l, states, [Send(maxDelta), arrive], 2);
  }

  /** The wedge is real: from registration it takes one request, one metered token and one lost
      reply. */
  lemma WedgeIsReachable(l: Link, s0: Sys) returns (states: seq<Sys>, steps: seq<Step>)
    requires l.WellFormed() && Init(l, s0) && l.permit.maxTokens >= 1 && l.permit.expiry >= SPEND_EXPIRY_MARGIN_SECS
    requires l.recover(l.permit.lotId, l.Key(), 0, [1]) == Some(l.Key())
    ensures Execution(l, states, steps) && states[0] == s0 && Wedged(l, states[|steps|])
  {
    var arrive, before := FirstRequestServed(l, s0, 1);
    LostReplyWedges(l, before[2], 1);
    var s3 := Apply(l, before[2], Finish(1));
    states, steps := before + [s3, Apply(l, s3, GiveUp)], [Send(1), arrive, Finish(1), GiveUp];
  }

  /** So is the other one, with no message lost: a request capped at one token, metered at two (the
      prompt, for a lot that bills input tokens, is not bounded by max_tokens), and answered. */
  lemma OverMeteringWedges(l: Link, s0: Sys) returns (states: seq<Sys>, steps: seq<Step>)
    requires l.WellFormed() && Init(l, s0) && l.permit.maxTokens >= 2 && l.permit.expiry >= SPEND_EXPIRY_MARGIN_SECS
    requires l.recover(l.permit.lotId, l.Key(), 0, [1]) == Some(l.Key())
    ensures Execution(l, states, steps) && states[0] == s0 && Wedged(l, states[|steps|])
    ensures forall i :: 0 <= i < |steps| ==> !steps[i].GiveUp?
  {
    var arrive, before := FirstRequestServed(l, s0, 1);
    FinishKeeps(l, before[2], Finish(2));
    var s3 := Apply(l, before[2], Finish(2));
    CompletionSettlesOrWedges(l, s3, false, 2);
    states := before + [s3, Apply(l, s3, Receive(Completed(2), false))];
    steps := [Send(1), arrive, Finish(2), Receive(Completed(2), false)];
  }
}
