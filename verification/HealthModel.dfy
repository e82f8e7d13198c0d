/** One provider's health (internal/router/health.go) as values: the breaker, its single
    half-open probe and the cooldowns the provider asked for, and what holds of any history. */
module HealthModel {
  import opened Common
  import opened Policy

  const SECOND: int := 1_000_000_000
  const MINUTE: int := 60 * SECOND
  const DEFAULT_RATE_LIMIT_COOLDOWN: int := 30 * SECOND
  const PAYMENT_REQUIRED_COOLDOWN: int := 15 * MINUTE
  const PROBE_STALL_TIMEOUT: int := 2 * MINUTE
  const MIN_LATENCY_SAMPLES: int := 5
  /** The time that means "none given". */
  const ZERO_TIME: int := 0

  datatype Options = Options(maxAttempts: int, breakerThreshold: int, breakerCooldown: int)

  function WithDefaults(o: Options): (d: Options)
    ensures Sane(d)
  {
    Options(if o.maxAttempts <= 0 then 3 else o.maxAttempts,
            if o.breakerThreshold <= 0 then 5 else o.breakerThreshold,
            if o.breakerCooldown <= 0 then 30 * SECOND else o.breakerCooldown)
  }

  predicate Sane(o: Options) { o.maxAttempts > 0 && o.breakerThreshold > 0 && o.breakerCooldown > 0 }

  datatype Breaker = BreakerClosed | BreakerOpen | BreakerHalfOpen

  datatype Health = Health(
    breaker: Breaker, failures: nat, openedAt: int, probing: bool, probeStarted: int,
    cooldownUntil: int, ewma: int, samples: nat)

  const NEW_HEALTH := Health(BreakerClosed, 0, ZERO_TIME, false, ZERO_TIME, ZERO_TIME, 0, 0)

  function AdmitProbe(h: Health, now: int): (Health, bool) {
    if h.probing && now - h.probeStarted < PROBE_STALL_TIMEOUT then (h, false)
    else (h.(probing := true, probeStarted := now), true)
  }

  /** Whether the provider may be tried, and the probe that asking may have claimed. */
  function Available(h: Health, o: Options, now: int): (Health, bool) {
    if now < h.cooldownUntil then (h, false)
    else match h.breaker
      case BreakerOpen =>
        if now - h.openedAt < o.breakerCooldown then (h, false)
        else AdmitProbe(h.(breaker := BreakerHalfOpen), now)
      case BreakerHalfOpen => AdmitProbe(h, now)
      case BreakerClosed => (h, true)
  }

  /** The moving average, a fifth of the weight on the newest sample. */
  function Observe(h: Health, ttft: int): Health {
    h.(samples := h.samples + 1, ewma := if h.samples == 0 then ttft else (ttft + 4 * h.ewma) / 5)
  }

  function RecordSuccess(h: Health, ttft: int): Health {
    var h' := h.(breaker := BreakerClosed, failures := 0, probing := false);
    if ttft > 0 then Observe(h', ttft) else h'
  }

  function CooldownFor(c: ErrorClass, retryAfter: int): int {
    match c
    case RateLimited => if retryAfter > 0 then retryAfter else DEFAULT_RATE_LIMIT_COOLDOWN
    case PaymentRequired => MaxInt(retryAfter, PAYMENT_REQUIRED_COOLDOWN)
    case _ => 0
  }

  function Park(h: Health, c: ErrorClass, retryAfter: int, now: int): Health {
    var pause := CooldownFor(c, retryAfter);
    if pause > 0 && now + pause > h.cooldownUntil then h.(cooldownUntil := now + pause) else h
  }

  function CountFailure(h: Health, o: Options, now: int): Health {
    var h' := h.(failures := h.failures + 1);
    match h.breaker
    case BreakerHalfOpen => h'.(breaker := BreakerOpen, openedAt := now, probing := false)
    case BreakerOpen => h'
    case BreakerClosed => if h'.failures >= o.breakerThreshold then h'.(breaker := BreakerOpen, openedAt := now) else h'
  }

  function RecordFailure(h: Health, o: Options, c: ErrorClass, retryAfter: int, now: int): Health {
    var h' := Park(h, c, retryAfter, now);
    if CountsAgainstHealth(c) then CountFailure(h', o, now) else h'
  }

  function Latency(h: Health): Option<int> {
    if h.samples < MIN_LATENCY_SAMPLES then None else Some(h.ewma)
  }

  // ----- runs

  datatype Event =
    | Asked(now: int)
    | Succeeded(ttft: int, now: int)
    | Failed(c: ErrorClass, retryAfter: int, now: int)

  function Step(h: Health, o: Options, e: Event): Health {
    match e
    case Asked(now) => Available(h, o, now).0
    case Succeeded(ttft, _) => RecordSuccess(h, ttft)
    case Failed(c, retryAfter, now) => RecordFailure(h, o, c, retryAfter, now)
  }

  function Run(h: Health, o: Options, es: seq<Event>): Health
    decreases es
  {
    if es == [] then h else Run(Step(h, o, es[0]), o, es[1..])
  }

  /** The clock does not run backwards. */
  predicate InOrder(es: seq<Event>, clock: int)
    decreases es
  {
    es == [] || (clock <= es[0].now && InOrder(es[1..], es[0].now))
  }

  function Last(es: seq<Event>, clock: int): int { if es == [] then clock else es[|es| - 1].now }

  /** The times at which a caller was let through. */
  function Admissions(h: Health, o: Options, es: seq<Event>): seq<int>
    decreases es
  {
    if es == [] then []
    else (if es[0].Asked? && Available(h, o, es[0].now).1 then [es[0].now] else [])
         + Admissions(Step(h, o, es[0]), o, es[1..])
  }

  /** Health-relevant failures since the last success. */
  function Streak(es: seq<Event>): nat {
    if es == [] then 0
    else
      var e := es[|es| - 1];
      match e
      case Succeeded(_, _) => 0
      case Failed(c, _, _) => Streak(es[..|es| - 1]) + if CountsAgainstHealth(c) then 1 else 0
      case Asked(_) => Streak(es[..|es| - 1])
  }

  // ----- what every history keeps

  predicate Inv(h: Health, o: Options, clock: int) {
    && (h.breaker.BreakerClosed? <==> h.failures < o.breakerThreshold)
    && (h.probing <==> h.breaker.BreakerHalfOpen?)
    && (!h.breaker.BreakerClosed? ==> h.openedAt <= clock)
    && (h.probing ==> h.probeStarted <= clock)
  }

  lemma StepKeeps(h: Health, o: Options, e: Event, clock: int)
    requires Inv(h, o, clock) && clock <= e.now && Sane(o)
    ensures Inv(Step(h, o, e), o, e.now)
  {
  }

  lemma {:induction false} RunKeeps(h: Health, o: Options, es: seq<Event>, clock: int)
    requires Inv(h, o, clock) && InOrder(es, clock) && Sane(o)
    ensures Inv(Run(h, o, es), o, Last(es, clock))
    decreases es
  {
    if es != [] {
      StepKeeps(h, o, es[0], clock);
      RunKeeps(Step(h, o, es[0]), o, es[1..], es[0].now);
    }
  }

  lemma {:induction false} RunAppend(h: Health, o: Options, es: seq<Event>, e: Event)
    ensures Run(h, o, es + [e]) == Step(Run(h, o, es), o, e)
    decreases es
  {
    if es == [] {
      assert [] + [e] == [e];
    } else {
      RunAppend(Step(h, o, es[0]), o, es[1..], e);
      assert (es + [e])[1..] == es[1..] + [e];
    }
  }

  lemma {:induction false} StreakCounted(o: Options, es: seq<Event>)
    ensures Run(NEW_HEALTH, o, es).failures == Streak(es)
  {
    if es != [] {
      var init := es[..|es| - 1];
      assert es == init + [es[|es| - 1]];
      StreakCounted(o, init);
      RunAppend(NEW_HEALTH, o, init, es[|es| - 1]);
    }
  }

  /** The breaker is closed exactly while the streak of health-relevant failures is below the
      threshold, whatever was asked or reported in between. */
  lemma BreakerIsStreak(o: Options, es: seq<Event>, clock: int)
    requires InOrder(es, clock) && Sane(o)
    ensures Run(NEW_HEALTH, o, es).breaker.BreakerClosed? <==> Streak(es) < o.breakerThreshold
  {
    RunKeeps(NEW_HEALTH, o, es, clock);
    StreakCounted(o, es);
  }

  // ----- no wedge

  /** The first instant at which the provider is let through, if nothing more is reported. */
  function WakesAt(h: Health, o: Options): int {
    var gate := match h.breaker
      case BreakerClosed => h.cooldownUntil
      case BreakerOpen => h.openedAt + o.breakerCooldown
      case BreakerHalfOpen => h.probeStarted + PROBE_STALL_TIMEOUT;
    MaxInt(h.cooldownUntil, gate)
  }

  /** In every reachable state the answer is yes exactly from WakesAt on. */
  lemma AvailableFromWakesAt(o: Options, es: seq<Event>, clock: int, now: int)
    requires InOrder(es, clock) && Sane(o)
    ensures var h := Run(NEW_HEALTH, o, es); Available(h, o, now).1 <==> now >= WakesAt(h, o)
  {
    RunKeeps(NEW_HEALTH, o, es, clock);
  }

  function LongestPause(es: seq<Event>): int {
    if es == [] then 0
    else MaxInt(LongestPause(es[1..]), if es[0].Failed? then CooldownFor(es[0].c, es[0].retryAfter) else 0)
  }

  /** No wait is longer than the breaker's cooldown, a stalled probe's reclaim or the longest pause
      a provider asked for, counted from the last thing that happened. */
  lemma NoWedge(o: Options, es: seq<Event>, clock: int)
    requires InOrder(es, clock) && Sane(o) && clock >= ZERO_TIME
    ensures WakesAt(Run(NEW_HEALTH, o, es), o)
         <= Last(es, clock) + MaxInt(LongestPause(es), MaxInt(o.breakerCooldown, PROBE_STALL_TIMEOUT))
  {
    RunKeeps(NEW_HEALTH, o, es, clock);
    PauseBound(NEW_HEALTH, o, es, clock, 0);
  }

  lemma {:induction false} PauseBound(h: Health, o: Options, es: seq<Event>, clock: int, longest: int)
    requires InOrder(es, clock) && h.cooldownUntil <= clock + longest
    ensures Run(h, o, es).cooldownUntil <= Last(es, clock) + MaxInt(longest, LongestPause(es))
    decreases es
  {
    if es != [] {
      var pause := if es[0].Failed? then CooldownFor(es[0].c, es[0].retryAfter) else 0;
      PauseBound(Step(h, o, es[0]), o, es[1..], es[0].now, MaxInt(longest, pause));
    }
  }

  // ----- cooldowns

  /** A pause once asked for is kept: nobody is let through before it ends, whatever is reported,
      and it only ever moves later. */
  lemma {:induction false} CooldownHolds(h: Health, o: Options, es: seq<Event>)
    ensures h.cooldownUntil <= Run(h, o, es).cooldownUntil
    ensures forall t :: t in Admissions(h, o, es) ==> h.cooldownUntil <= t
    decreases es
  {
    if es != [] { CooldownHolds(Step(h, o, es[0]), o, es[1..]); }
  }

  /** What a pause asked for is worth: with a rate limit or a billing failure reported at now, no
      later admission comes sooner than its wait. */
  lemma PauseHonoured(h: Health, o: Options, c: ErrorClass, retryAfter: int, now: int, es: seq<Event>)
    requires c.RateLimited? || c.PaymentRequired?
    ensures forall t :: t in Admissions(RecordFailure(h, o, c, retryAfter, now), o, es) ==>
              t >= now + retryAfter && t >= now + (if c.PaymentRequired? then PAYMENT_REQUIRED_COOLDOWN else if retryAfter > 0 then 0 else DEFAULT_RATE_LIMIT_COOLDOWN)
  {
    CooldownHolds(RecordFailure(h, o, c, retryAfter, now), o, es);
  }

  // ----- the herd

  predicate NoSuccess(es: seq<Event>) { forall i :: 0 <= i < |es| ==> !es[i].Succeeded? }

  predicate Apart(ts: seq<int>, gap: int) { forall i :: 0 < i < |ts| ==> ts[i - 1] + gap <= ts[i] }

  function Gap(o: Options): int { MinInt(o.breakerCooldown, PROBE_STALL_TIMEOUT) }

  /** No admission before gate, and later ones at least the gap apart, while nothing succeeds. */
  lemma {:induction false} HerdFrom(h: Health, o: Options, es: seq<Event>, clock: int, gate: int)
    requires Inv(h, o, clock) && Sane(o) && InOrder(es, clock) && NoSuccess(es) && !h.breaker.BreakerClosed?
    requires h.breaker.BreakerOpen? ==> gate <= h.openedAt + o.breakerCooldown
    requires h.breaker.BreakerHalfOpen? ==> gate <= h.probeStarted + PROBE_STALL_TIMEOUT && gate <= clock + o.breakerCooldown
    ensures forall i :: 0 <= i < |Admissions(h, o, es)| ==> gate <= Admissions(h, o, es)[i]
    ensures Apart(Admissions(h, o, es), Gap(o))
    decreases es
  {
    if es != [] {
      var h', rest := Step(h, o, es[0]), es[1..];
      StepKeeps(h, o, es[0], clock);
      var later := Admissions(h', o, rest);
      if es[0].Asked? && Available(h, o, es[0].now).1 {
        HerdFrom(h', o, rest, es[0].now, es[0].now + Gap(o));
        assert Admissions(h, o, es) == [es[0].now] + later;
      } else {
        HerdFrom(h', o, rest, es[0].now, gate);
        assert Admissions(h, o, es) == later;
      }
    }
  }

  /** From any state a history can reach with the breaker open, and for as long as nothing
      succeeds: nobody before the cooldown is over, and then one caller at a time, each at least
      the shorter of the cooldown and the stall timeout behind the one before. */
  lemma HerdBound(o: Options, es: seq<Event>, clock: int, more: seq<Event>)
    requires Sane(o) && InOrder(es, clock) && InOrder(more, Last(es, clock)) && NoSuccess(more)
    requires Run(NEW_HEALTH, o, es).breaker.BreakerOpen?
    ensures var h := Run(NEW_HEALTH, o, es);
            var ts := Admissions(h, o, more);
            Apart(ts, Gap(o)) && forall t :: t in ts ==> h.openedAt + o.breakerCooldown <= t
  {
    RunKeeps(NEW_HEALTH, o, es, clock);
    var h := Run(NEW_HEALTH, o, es);
    HerdFrom(h, o, more, Last(es, clock), h.openedAt + o.breakerCooldown);
  }
}
