/** What becomes of a wait an upstream names. The attempt loop reports a failure without it, so
    the tracker falls back on its own guess: exactly when the wait is kept, and an input for which
    it is not. */
module NamedWaits {
  import opened Common
  import H = HealthModel
  import opened Health
  import C = ChainSpec

  /** A failure whose wait the tracker would keep if it heard of it. */
  predicate Waits(c: ErrorClass) { c == RateLimited || c == PaymentRequired }

  /** Until when the breaker alone turns everybody away once failure c at t is reported. */
  function ShedUntil(h: H.Health, o: H.Options, t: int): int {
    match h.breaker
    case BreakerOpen => h.openedAt + o.breakerCooldown
    case BreakerHalfOpen => t + o.breakerCooldown
    case BreakerClosed => if h.failures + 1 >= o.breakerThreshold then t + o.breakerCooldown else t
  }

  /** What the loop leaves of this provider after attempt a at t. */
  function After(b: Board, o: H.Options, a: C.Attempt, streaming: bool, t: int): H.Health {
    Of(C.ReportOne(b, o, a, streaming, t), a.provider)
  }

  /** The cooldown covers a wait of wait named at t exactly when the class's own guess does, or an
      earlier cooldown already ran that long. */
  lemma CooldownKeepsWait(b: Board, o: H.Options, a: C.Attempt, streaming: bool, t: int, wait: int)
    requires a.err.Some? && Waits(C.ClassOf(a.err.value))
    ensures After(b, o, a, streaming, t).cooldownUntil >= t + wait
       <==> wait <= H.CooldownFor(C.ClassOf(a.err.value), 0) || Of(b, a.provider).cooldownUntil >= t + wait
  {
  }

  /** A wait named at t is honoured, nobody being let through before it is over, exactly when the
      class's own guess covers it, an earlier cooldown does, or the breaker sheds that long. */
  lemma HonouredExactlyWhen(b: Board, o: H.Options, a: C.Attempt, streaming: bool, es: seq<H.Event>, clock: int, t: int, wait: int)
    requires a.err.Some? && Waits(C.ClassOf(a.err.value))
    requires H.InOrder(es, clock) && H.Sane(o) && H.Last(es, clock) <= t && Of(b, a.provider) == H.Run(H.NEW_HEALTH, o, es)
    ensures (forall now :: t <= now < t + wait ==> !Asks(After(b, o, a, streaming, t), o, now))
       <==> || wait <= H.CooldownFor(C.ClassOf(a.err.value), 0)
            || Of(b, a.provider).cooldownUntil >= t + wait
            || ShedUntil(Of(b, a.provider), o, t) >= t + wait
  {
    var h, h' := Of(b, a.provider), After(b, o, a, streaming, t);
    var e := H.Failed(C.ClassOf(a.err.value), 0, t);
    H.RunKeeps(H.NEW_HEALTH, o, es, clock);
    H.StepKeeps(h, o, e, H.Last(es, clock));
    assert h' == H.Step(h, o, e);
    forall now | t <= now ensures Asks(h', o, now) <==> now >= H.WakesAt(h', o) { }
    var first := MaxInt(t, H.WakesAt(h', o));
    assert Asks(h', o, first);
  }

  predicate Asks(h: H.Health, o: H.Options, now: int) { H.Available(h, o, now).1 }

  /** A provider answers a request with a rate limit and asks for ten minutes. Thirty seconds later
      the next request is let through to it. */
  lemma TenMinutesForgotten(o: H.Options, w: C.World, clock: int)
    requires o.breakerThreshold > 1 && o.maxAttempts > 0
    requires w.answer(0, "p") == Err(C.Classed(RateLimited, "")) && w.wait(0, "p") == 10 * H.MINUTE
    requires w.ctx(0) == C.Live && w.time(0) > 0
    ensures var (r, atts) := C.Walk(w, {"p"}, o.maxAttempts, ["p"], 0, None);
            var b := C.Reported(map[], o, atts, false, w, clock);
            && r == Err(C.FromUpstream(C.Classed(RateLimited, "")))
            && AvailableOn(b, o, "p", w.time(0) + 30 * H.SECOND).1
            && 30 * H.SECOND < w.wait(0, "p")
  {
    var a := C.Attempt("p", Some(C.Classed(RateLimited, "")));
    var walked := C.Walk(w, {"p"}, o.maxAttempts, ["p"], 0, None);
    assert C.Walk(w, {"p"}, o.maxAttempts, [], 1, a.err) == (Err(C.FromUpstream(a.err.value)), []);
    assert ["p"][1..] == [];
    assert walked.1 == [a] + [] == [a];
    assert C.Reported(map[], o, [a], false, w, clock) == C.ReportOne(C.Reported(map[], o, [a][..0], false, w, clock), o, a, false, w.time(0));
    assert [a][..0] == [];
  }
}
