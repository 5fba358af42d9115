/** Token-bucket rate limiting per client, over exact time: how much a window admits, why evicting
    idle buckets cannot be observed, and what the retry hint is worth. */
module RateLimit {
  import opened Wrappers

  type Ip = nat

  const MAX_BUCKETS: nat := 4096

  datatype Bucket = Bucket(tokens: real, last: real)

  datatype Config = Config(capacity: posreal, refill: posreal)

  type Buckets = map<Ip, Bucket>

  /** Refused requests learn how many seconds to wait. */
  datatype Decision = Admitted | Denied(retryAfter: int)

  datatype Event = Event(ip: Ip, cost: real, now: real)

  function MinReal(a: real, b: real): real {
    if a <= b then a else b
  }

  /** Time since an instant, zero if it lies ahead. */
  function Elapsed(now: real, last: real): real {
    if now >= last then now - last else 0.0
  }

  function Ceil(x: real): int {
    -(-x).Floor
  }

  /** Tokens a span of time adds. */
  function Gain(cfg: Config, span: real): real {
    span * cfg.refill
  }

  function Refilled(cfg: Config, b: Bucket, now: real): real {
    MinReal(b.tokens + Gain(cfg, Elapsed(now, b.last)), cfg.capacity)
  }

  /** Past the memory bound, drop every bucket that has had time to refill. */
  function Evict(cfg: Config, buckets: Buckets, now: real): Buckets {
    if |buckets| > MAX_BUCKETS then
      map ip | ip in buckets && Elapsed(now, buckets[ip].last) < cfg.capacity / cfg.refill :: buckets[ip]
    else buckets
  }

  function Entry(cfg: Config, buckets: Buckets, ip: Ip, now: real): Bucket {
    if ip in buckets then buckets[ip] else Bucket(cfg.capacity, now)
  }

  /** Refill, then spend or refuse. */
  function SpendIn(cfg: Config, buckets: Buckets, e: Event): (Buckets, Decision) {
    var tokens := Refilled(cfg, Entry(cfg, buckets, e.ip, e.now), e.now);
    if tokens >= e.cost then
      (buckets[e.ip := Bucket(tokens - e.cost, e.now)], Admitted)
    else
      (buckets[e.ip := Bucket(tokens, e.now)], Denied(Min(Ceil((e.cost - tokens) / cfg.refill), U64_MAX)))
  }

  /** `check`: evict, then spend. */
  function CheckIn(cfg: Config, buckets: Buckets, e: Event): (Buckets, Decision) {
    SpendIn(cfg, Evict(cfg, buckets, e.now), e)
  }

  class RateLimiter {
    const cfg: Config
    var buckets: Buckets

    constructor (capacity: posreal, refill: posreal)
      ensures cfg == Config(capacity, refill) && buckets == map[]
    {
      cfg := Config(capacity, refill);
      buckets := map[];
    }

    method Check(ip: Ip, cost: real, now: real) returns (d: Decision)
      modifies this
      ensures (buckets, d) == CheckIn(cfg, old(buckets), Event(ip, cost, now))
    {
      if |buckets| > MAX_BUCKETS {
        var fullAfter := cfg.capacity / cfg.refill;
        buckets := map ip | ip in buckets && Elapsed(now, buckets[ip].last) < fullAfter :: buckets[ip];
      }
      assert buckets == Evict(cfg, old(buckets), now);
      ghost var evicted := buckets;
      if ip !in buckets {
        buckets := buckets[ip := Bucket(cfg.capacity, now)];
      }
      var b := buckets[ip];
      b := Bucket(Refilled(cfg, b, now), now);
      if b.tokens >= cost {
        b := b.(tokens := b.tokens - cost);
        d := Admitted;
      } else {
        d := Denied(Min(Ceil((cost - b.tokens) / cfg.refill), U64_MAX));
      }
      buckets := buckets[ip := b];
      assert buckets == evicted[ip := b];
    }
  }

  // ------------------------------------------------------------------ runs

  /** Buckets as every run keeps them, whatever order its clock readings enter in. */
  ghost predicate Levelled(cfg: Config, buckets: Buckets) {
    forall ip :: ip in buckets ==> 0.0 <= buckets[ip].tokens <= cfg.capacity
  }

  /** Between empty and full, and not from the future. */
  ghost predicate Sane(cfg: Config, buckets: Buckets, now: real) {
    Levelled(cfg, buckets) && forall ip :: ip in buckets ==> buckets[ip].last <= now
  }

  /** Times never go back and costs are never negative. */
  ghost predicate Timely(events: seq<Event>, from: real) {
    && (forall i :: 0 <= i < |events| ==> events[i].now >= from && events[i].cost >= 0.0)
    && (forall i, j :: 0 <= i < j < |events| ==> events[i].now <= events[j].now)
  }

  function RunAll(cfg: Config, buckets: Buckets, events: seq<Event>): Buckets
    decreases |events|
  {
    if events == [] then buckets else RunAll(cfg, CheckIn(cfg, buckets, events[0]).0, events[1..])
  }

  function Decisions(cfg: Config, buckets: Buckets, events: seq<Event>): (r: seq<Decision>)
    ensures |r| == |events|
    decreases |events|
  {
    if events == [] then []
    else [CheckIn(cfg, buckets, events[0]).1] + Decisions(cfg, CheckIn(cfg, buckets, events[0]).0, events[1..])
  }

  /** What a client could spend right now. */
  function Available(cfg: Config, buckets: Buckets, ip: Ip, now: real): real {
    if ip in buckets then Refilled(cfg, buckets[ip], now) else cfg.capacity
  }

  lemma GainFacts(cfg: Config, a: real, b: real)
    ensures Gain(cfg, 0.0) == 0.0
    ensures Gain(cfg, a + b) == Gain(cfg, a) + Gain(cfg, b)
    ensures a >= 0.0 ==> Gain(cfg, a) >= 0.0
    ensures a <= b ==> Gain(cfg, a) <= Gain(cfg, b)
  {
    assert (b - a) * cfg.refill == b * cfg.refill - a * cfg.refill;
  }

  lemma FullAfterIdle(cfg: Config, elapsed: real)
    requires elapsed >= cfg.capacity / cfg.refill
    ensures Gain(cfg, elapsed) >= cfg.capacity
  {
    var full := cfg.capacity / cfg.refill;
    assert Gain(cfg, full) == cfg.capacity;
    GainFacts(cfg, full, elapsed);
  }

  /** Eviction drops only full buckets, so it changes nobody's allowance, now or later. */
  lemma EvictKeepsAvailable(cfg: Config, buckets: Buckets, ip: Ip, now: real, later: real)
    requires Sane(cfg, buckets, now) && now <= later
    ensures Available(cfg, Evict(cfg, buckets, now), ip, later) == Available(cfg, buckets, ip, later)
    ensures Sane(cfg, Evict(cfg, buckets, now), now)
  {
    hide Gain;
    if ip in buckets && ip !in Evict(cfg, buckets, now) {
      FullAfterIdle(cfg, Elapsed(now, buckets[ip].last));
      GainFacts(cfg, Elapsed(now, buckets[ip].last), Elapsed(later, buckets[ip].last));
    }
  }

  /** At the moment of evicting this needs no clock order. */
  lemma EvictKeepsNow(cfg: Config, buckets: Buckets, ip: Ip, now: real)
    requires Levelled(cfg, buckets)
    ensures Available(cfg, Evict(cfg, buckets, now), ip, now) == Available(cfg, buckets, ip, now)
    ensures Levelled(cfg, Evict(cfg, buckets, now))
  {
    hide Gain;
    if ip in buckets && ip !in Evict(cfg, buckets, now) {
      FullAfterIdle(cfg, Elapsed(now, buckets[ip].last));
    }
  }

  /** The bucket a request finds holds exactly its client's allowance. */
  lemma EntryHolds(cfg: Config, buckets: Buckets, ip: Ip, now: real)
    requires Levelled(cfg, buckets)
    ensures Refilled(cfg, Entry(cfg, buckets, ip, now), now) == Available(cfg, buckets, ip, now)
    ensures 0.0 <= Available(cfg, buckets, ip, now) <= cfg.capacity
  {
    hide Gain;
    GainFacts(cfg, 0.0, 0.0);
    if ip in buckets { GainFacts(cfg, Elapsed(now, buckets[ip].last), 0.0); }
  }

  /** Spending leaves the client its allowance less what was admitted, and others untouched. */
  lemma SpendMovesAvailable(cfg: Config, buckets: Buckets, e: Event, ip: Ip)
    requires Levelled(cfg, buckets) && e.cost >= 0.0
    ensures var (after, d) := SpendIn(cfg, buckets, e);
            && Levelled(cfg, after) && (Sane(cfg, buckets, e.now) ==> Sane(cfg, after, e.now))
            && Available(cfg, after, ip, e.now)
                 == Available(cfg, buckets, ip, e.now) - (if e.ip == ip && d.Admitted? then e.cost else 0.0)
            && (d.Admitted? <==> Available(cfg, buckets, e.ip, e.now) >= e.cost)
  {
    hide Gain;
    EntryHolds(cfg, buckets, e.ip, e.now);
    GainFacts(cfg, 0.0, 0.0);
  }

  /** An admitted cost leaves the client's allowance, a refused one does not, and other clients'
      requests never touch it. */
  lemma CheckMovesAvailable(cfg: Config, buckets: Buckets, e: Event, ip: Ip)
    requires Levelled(cfg, buckets) && e.cost >= 0.0
    ensures var (after, d) := CheckIn(cfg, buckets, e);
            && Levelled(cfg, after) && (Sane(cfg, buckets, e.now) ==> Sane(cfg, after, e.now))
            && Available(cfg, after, ip, e.now)
                 == Available(cfg, buckets, ip, e.now) - (if e.ip == ip && d.Admitted? then e.cost else 0.0)
            && (d.Admitted? <==> Available(cfg, buckets, e.ip, e.now) >= e.cost)
  {
    EvictKeepsNow(cfg, buckets, ip, e.now);
    EvictKeepsNow(cfg, buckets, e.ip, e.now);
    if Sane(cfg, buckets, e.now) { EvictKeepsAvailable(cfg, buckets, ip, e.now, e.now); }
    hide Available, SpendIn, Evict, Sane, Levelled;
    SpendMovesAvailable(cfg, Evict(cfg, buckets, e.now), e, ip);
  }

  lemma SaneLater(cfg: Config, buckets: Buckets, now: real, later: real)
    requires Sane(cfg, buckets, now) && now <= later
    ensures Sane(cfg, buckets, later) && Levelled(cfg, buckets)
  {
  }

  lemma AllowanceGrows(cfg: Config, buckets: Buckets, ip: Ip, now: real, later: real)
    requires Sane(cfg, buckets, now) && now <= later
    ensures Available(cfg, buckets, ip, later)
        == MinReal(Available(cfg, buckets, ip, now) + Gain(cfg, later - now), cfg.capacity)
    ensures 0.0 <= Available(cfg, buckets, ip, now) <= cfg.capacity
  {
    hide Gain;
    EntryHolds(cfg, buckets, ip, now);
    GainFacts(cfg, later - now, 0.0);
    if ip in buckets { GainFacts(cfg, Elapsed(now, buckets[ip].last), later - now); }
  }

  // ------------------------------------------------------------------ the window bound

  function LastTime(events: seq<Event>, from: real): real {
    if events == [] then from else events[|events| - 1].now
  }

  /** Total cost admitted for one client over a run. */
  function Spent(cfg: Config, buckets: Buckets, events: seq<Event>, ip: Ip): real
    decreases |events|
  {
    if events == [] then 0.0
    else
      var (after, d) := CheckIn(cfg, buckets, events[0]);
      (if events[0].ip == ip && d.Admitted? then events[0].cost else 0.0) + Spent(cfg, after, events[1..], ip)
  }

  /** How far the clock readings of a run move forward, backward steps not offsetting any of it. */
  function Forward(events: seq<Event>, from: real): real {
    if events == [] then 0.0 else Elapsed(events[0].now, from) + Forward(events[1..], events[0].now)
  }

  lemma AllowanceForward(cfg: Config, buckets: Buckets, ip: Ip, now: real, later: real)
    requires Levelled(cfg, buckets)
    ensures Available(cfg, buckets, ip, later) <= Available(cfg, buckets, ip, now) + Gain(cfg, Elapsed(later, now))
    ensures 0.0 <= Available(cfg, buckets, ip, now) <= cfg.capacity
  {
    hide Gain;
    EntryHolds(cfg, buckets, ip, now);
    GainFacts(cfg, Elapsed(later, now), 0.0);
    if ip in buckets {
      GainFacts(cfg, Elapsed(later, buckets[ip].last), Elapsed(now, buckets[ip].last) + Elapsed(later, now));
      GainFacts(cfg, Elapsed(now, buckets[ip].last), Elapsed(later, now));
    }
  }

  /** Whatever order the readings enter in, a client is admitted at most its allowance plus what
      refills over their forward movement. */
  lemma {:induction false} SpentInAnyOrder(cfg: Config, buckets: Buckets, events: seq<Event>, ip: Ip, from: real)
    requires Levelled(cfg, buckets) && forall i :: 0 <= i < |events| ==> events[i].cost >= 0.0
    ensures Spent(cfg, buckets, events, ip) <= Available(cfg, buckets, ip, from) + Gain(cfg, Forward(events, from))
    decreases |events|
  {
    hide Available, CheckIn, Levelled, Gain;
    GainFacts(cfg, 0.0, 0.0);
    AllowanceForward(cfg, buckets, ip, from, from);
    if events != [] {
      var e := events[0];
      CheckMovesAvailable(cfg, buckets, e, ip);
      AllowanceForward(cfg, buckets, ip, from, e.now);
      SpentInAnyOrder(cfg, CheckIn(cfg, buckets, e).0, events[1..], ip, e.now);
      GainFacts(cfg, Elapsed(e.now, from), Forward(events[1..], e.now));
    }
  }

  /** In any window of any run, one client is admitted at most the capacity plus what refills over the
      forward movement of the clock readings. */
  lemma AnyOrderBound(cfg: Config, buckets: Buckets, events: seq<Event>, ip: Ip, from: real)
    requires Levelled(cfg, buckets) && forall i :: 0 <= i < |events| ==> events[i].cost >= 0.0
    ensures Spent(cfg, buckets, events, ip) <= cfg.capacity + Forward(events, from) * cfg.refill
  {
    hide Available, CheckIn, Spent;
    SpentInAnyOrder(cfg, buckets, events, ip, from);
    AllowanceForward(cfg, buckets, ip, from, from);
    assert Gain(cfg, Forward(events, from)) == Forward(events, from) * cfg.refill;
  }

  lemma {:induction false} ForwardInOrder(events: seq<Event>, from: real)
    requires Timely(events, from)
    ensures Forward(events, from) == LastTime(events, from) - from
    decreases |events|
  {
    if events != [] {
      ForwardInOrder(events[1..], events[0].now);
    }
  }

  /** With readings in order that movement is the time elapsed: at most the capacity plus refill times
      elapsed. */
  lemma WindowBound(cfg: Config, buckets: Buckets, events: seq<Event>, ip: Ip, from: real)
    requires Levelled(cfg, buckets) && Timely(events, from)
    ensures Spent(cfg, buckets, events, ip) <= cfg.capacity + (LastTime(events, from) - from) * cfg.refill
  {
    hide Available, CheckIn, Spent;
    SpentInAnyOrder(cfg, buckets, events, ip, from);
    AllowanceForward(cfg, buckets, ip, from, from);
    ForwardInOrder(events, from);
    assert Gain(cfg, LastTime(events, from) - from) == (LastTime(events, from) - from) * cfg.refill;
  }

  /** Order matters: a refused request whose reading enters late moves a bucket back in time, and the
      same ten seconds refill it again. No time elapses between the first and the last reading, and
      twice the capacity is admitted. */
  lemma LateReadingRefillsAgain() returns (cfg: Config, events: seq<Event>)
    ensures |events| == 3 && LastTime(events, events[0].now) == events[0].now
    ensures Spent(cfg, map[], events, 7) == 2.0 * cfg.capacity
  {
    cfg := Config(10.0, 1.0);
    var a, b, c := Event(7, 10.0, 10.0), Event(7, 1.0, 0.0), Event(7, 10.0, 10.0);
    events := [a, b, c];
    assert CheckIn(cfg, map[], a) == (map[7 := Bucket(0.0, 10.0)], Admitted);
    assert CheckIn(cfg, map[7 := Bucket(0.0, 10.0)], b).0 == map[7 := Bucket(0.0, 0.0)];
    assert CheckIn(cfg, map[7 := Bucket(0.0, 10.0)], b).1.Denied?;
    assert CheckIn(cfg, map[7 := Bucket(0.0, 0.0)], c).1.Admitted?;
    assert events[1..] == [b, c] && [b, c][1..] == [c] && [c][1..] == [];
    assert Spent(cfg, map[7 := Bucket(0.0, 0.0)], [c], 7) == 10.0;
    assert Spent(cfg, map[7 := Bucket(0.0, 10.0)], [b, c], 7) == 10.0;
  }

  // ------------------------------------------------------------------ eviction is unobservable

  /** The same limiter with no memory bound. */
  function KeepAll(cfg: Config, buckets: Buckets, events: seq<Event>): (r: seq<Decision>)
    ensures |r| == |events|
    decreases |events|
  {
    if events == [] then []
    else [SpendIn(cfg, buckets, events[0]).1] + KeepAll(cfg, SpendIn(cfg, buckets, events[0]).0, events[1..])
  }

  /** The evicting limiter has lost only buckets that are full by now. */
  ghost predicate LostOnlyFull(cfg: Config, evicting: Buckets, keeping: Buckets, now: real) {
    && (forall ip :: ip in evicting ==> ip in keeping && keeping[ip] == evicting[ip])
    && (forall ip :: ip in keeping && ip !in evicting ==> Gain(cfg, Elapsed(now, keeping[ip].last)) >= cfg.capacity)
  }

  lemma EvictLosesOnlyFull(cfg: Config, evicting: Buckets, keeping: Buckets, from: real, now: real)
    requires Sane(cfg, keeping, from) && from <= now && LostOnlyFull(cfg, evicting, keeping, from)
    ensures LostOnlyFull(cfg, Evict(cfg, evicting, now), keeping, now)
  {
    hide Gain;
    var after := Evict(cfg, evicting, now);
    forall ip | ip in keeping && ip !in after ensures Gain(cfg, Elapsed(now, keeping[ip].last)) >= cfg.capacity {
      if ip in evicting {
        FullAfterIdle(cfg, Elapsed(now, keeping[ip].last));
      } else {
        GainFacts(cfg, Elapsed(from, keeping[ip].last), Elapsed(now, keeping[ip].last));
      }
    }
  }

  lemma SpendAgrees(cfg: Config, evicting: Buckets, keeping: Buckets, e: Event)
    requires Sane(cfg, keeping, e.now) && LostOnlyFull(cfg, evicting, keeping, e.now)
        && e.cost >= 0.0
    ensures SpendIn(cfg, evicting, e).1 == SpendIn(cfg, keeping, e).1
    ensures LostOnlyFull(cfg, SpendIn(cfg, evicting, e).0, SpendIn(cfg, keeping, e).0, e.now)
    ensures Sane(cfg, SpendIn(cfg, keeping, e).0, e.now)
  {
    hide Gain;
    GainFacts(cfg, 0.0, 0.0);
    if e.ip in keeping { GainFacts(cfg, Elapsed(e.now, keeping[e.ip].last), 0.0); }
  }

  lemma {:induction false} SameDecisions(cfg: Config, evicting: Buckets, keeping: Buckets, events: seq<Event>,
                                         from: real)
    requires Sane(cfg, keeping, from) && Timely(events, from)
        && LostOnlyFull(cfg, evicting, keeping, from)
    ensures Decisions(cfg, evicting, events) == KeepAll(cfg, keeping, events)
    decreases |events|
  {
    hide SpendIn, Evict, Gain;
    if events != [] {
      var e := events[0];
      SaneLater(cfg, keeping, from, e.now);
      EvictLosesOnlyFull(cfg, evicting, keeping, from, e.now);
      SpendAgrees(cfg, Evict(cfg, evicting, e.now), keeping, e);
      SameDecisions(cfg, CheckIn(cfg, evicting, e).0, SpendIn(cfg, keeping, e).0, events[1..], e.now);
    }
  }

  /** Evicting idle buckets never changes a decision, in any run from any state. */
  lemma EvictionIsUnobservable(cfg: Config, buckets: Buckets, events: seq<Event>, from: real)
    requires Sane(cfg, buckets, from) && Timely(events, from)
    ensures Decisions(cfg, buckets, events) == KeepAll(cfg, buckets, events)
  {
    SameDecisions(cfg, buckets, buckets, events, from);
  }

  /** Order matters here too: past the memory bound an emptied bucket is evicted once it has had time to
      refill, and a reading from before that finds it full, where the limiter that keeps it refuses. */
  lemma LateReadingShowsEviction(cfg: Config, buckets: Buckets, ip: Ip, other: Event)
    requires |buckets| > MAX_BUCKETS && ip in buckets && buckets[ip] == Bucket(0.0, 0.0)
    requires other.ip != ip && other.now == cfg.capacity / cfg.refill
    ensures var events := [other, Event(ip, cfg.capacity, 0.0)];
            Decisions(cfg, buckets, events)[1].Admitted? && KeepAll(cfg, buckets, events)[1].Denied?
  {
    var late := Event(ip, cfg.capacity, 0.0);
    var events := [other, late];
    assert events[1..] == [late] && [late][1..] == [];
    var after, kept := CheckIn(cfg, buckets, other).0, SpendIn(cfg, buckets, other).0;
    assert ip !in after && kept[ip] == Bucket(0.0, 0.0);
    assert Decisions(cfg, buckets, events)[1] == Decisions(cfg, after, [late])[0] == CheckIn(cfg, after, late).1;
    assert KeepAll(cfg, buckets, events)[1] == KeepAll(cfg, kept, [late])[0] == SpendIn(cfg, kept, late).1;
  }

  // ------------------------------------------------------------------ the retry hint

  lemma {:induction false} OthersLeaveAvailable(cfg: Config, buckets: Buckets, events: seq<Event>, ip: Ip, from: real,
                                                later: real)
    requires Sane(cfg, buckets, from) && Timely(events, from) && LastTime(events, from) <= later
    requires forall i :: 0 <= i < |events| ==> events[i].ip != ip
    ensures Sane(cfg, RunAll(cfg, buckets, events), later)
    ensures Available(cfg, RunAll(cfg, buckets, events), ip, later) == Available(cfg, buckets, ip, later)
    decreases |events|
  {
    hide Available, CheckIn, Sane, Gain;
    if events != [] {
      var e := events[0];
      var after := CheckIn(cfg, buckets, e).0;
      SaneLater(cfg, buckets, from, e.now);
      CheckMovesAvailable(cfg, buckets, e, ip);
      assert LastTime(events[1..], e.now) == LastTime(events, from) >= e.now;
      OthersLeaveAvailable(cfg, after, events[1..], ip, e.now, later);
      AllowanceGrows(cfg, after, ip, e.now, later);
      AllowanceGrows(cfg, buckets, ip, e.now, later);
    } else {
      SaneLater(cfg, buckets, from, later);
    }
  }

  lemma RetryArithmetic(cfg: Config, gap: real, waited: real)
    requires gap > 0.0
    ensures waited >= Ceil(gap / cfg.refill) as real ==> Gain(cfg, waited) >= gap
    ensures waited <= (Ceil(gap / cfg.refill) - 1) as real ==> Gain(cfg, waited) < gap
  {
    var exact := gap / cfg.refill;
    assert Gain(cfg, exact) == gap;
    GainFacts(cfg, exact, waited);
    assert (exact - waited) * cfg.refill == exact * cfg.refill - waited * cfg.refill;
  }

  /** What a refusal says: the seconds until the missing tokens have refilled, rounded up. */
  lemma DenialHint(cfg: Config, buckets: Buckets, e: Event)
    requires Sane(cfg, buckets, e.now) && CheckIn(cfg, buckets, e).1.Denied?
    ensures CheckIn(cfg, buckets, e).1.retryAfter
            == Min(Ceil((e.cost - Available(cfg, buckets, e.ip, e.now)) / cfg.refill), U64_MAX)
  {
    hide Gain, Available, Evict, Refilled;
    EvictKeepsAvailable(cfg, buckets, e.ip, e.now, e.now);
    EntryHolds(cfg, Evict(cfg, buckets, e.now), e.ip, e.now);
  }

  /** The hint is exact to the second. A client refused for an affordable cost is admitted once it
      has waited the returned seconds, whatever other clients do meanwhile, and is still refused a
      whole second earlier. */
  lemma RetryHintIsExact(cfg: Config, buckets: Buckets, ip: Ip, cost: real, now: real, others: seq<Event>, later: real)
    requires Sane(cfg, buckets, now) && 0.0 <= cost <= cfg.capacity
    requires CheckIn(cfg, buckets, Event(ip, cost, now)).1.Denied?
    requires CheckIn(cfg, buckets, Event(ip, cost, now)).1.retryAfter < U64_MAX
    requires Timely(others, now) && LastTime(others, now) <= later && now <= later
    requires forall i :: 0 <= i < |others| ==> others[i].ip != ip
    ensures var (after, d) := CheckIn(cfg, buckets, Event(ip, cost, now));
            var retried := CheckIn(cfg, RunAll(cfg, after, others), Event(ip, cost, later)).1;
            && (later - now >= d.retryAfter as real ==> retried.Admitted?)
            && (later - now <= (d.retryAfter - 1) as real ==> retried.Denied?)
  {
    hide Available, CheckIn, RunAll, Gain, Sane;
    var e, again := Event(ip, cost, now), Event(ip, cost, later);
    var after := CheckIn(cfg, buckets, e).0;
    SaneLater(cfg, buckets, now, now);
    CheckMovesAvailable(cfg, buckets, e, ip);
    DenialHint(cfg, buckets, e);
    OthersLeaveAvailable(cfg, after, others, ip, now, later);
    AllowanceGrows(cfg, after, ip, now, later);
    SaneLater(cfg, RunAll(cfg, after, others), later, later);
    CheckMovesAvailable(cfg, RunAll(cfg, after, others), again, ip);
    RetryArithmetic(cfg, cost - Available(cfg, buckets, ip, now), later - now);
  }
}
