/** internal/router/health.go as it is written: one record per provider, updated in place, and
    every method proved equal to its function in HealthModel. */
module Health {
  import opened Common
  import opened Policy
  import H = HealthModel

  class ProviderHealth {
    var breaker: H.Breaker
    var consecutiveFailures: nat
    var openedAt: int
    var probeInFlight: bool
    var probeStarted: int
    var cooldownUntil: int
    var ewma: int
    var samples: nat

    constructor ()
      ensures View() == H.NEW_HEALTH
    {
      breaker, consecutiveFailures, openedAt := H.BreakerClosed, 0, H.ZERO_TIME;
      probeInFlight, probeStarted, cooldownUntil := false, H.ZERO_TIME, H.ZERO_TIME;
      ewma, samples := 0, 0;
    }

    function View(): H.Health
      reads this
    {
      H.Health(breaker, consecutiveFailures, openedAt, probeInFlight, probeStarted, cooldownUntil, ewma, samples)
    }

    method AdmitProbe(now: int) returns (ok: bool)
      modifies this
      ensures (View(), ok) == H.AdmitProbe(old(View()), now)
    {
      if probeInFlight && now - probeStarted < H.PROBE_STALL_TIMEOUT {
        return false;
      }
      probeInFlight := true;
      probeStarted := now;
      ok := true;
    }

    method Ask(opts: H.Options, now: int) returns (ok: bool)
      modifies this
      ensures (View(), ok) == H.Available(old(View()), opts, now)
    {
      if now < cooldownUntil {
        return false;
      }
      match breaker {
        case BreakerOpen =>
          if now - openedAt < opts.breakerCooldown {
            return false;
          }
          breaker := H.BreakerHalfOpen;
          ok := AdmitProbe(now);
        case BreakerHalfOpen =>
          ok := AdmitProbe(now);
        case BreakerClosed =>
          ok := true;
      }
    }

    method ObserveLatency(ttft: int)
      modifies this
      ensures View() == H.Observe(old(View()), ttft)
    {
      samples := samples + 1;
      if samples == 1 {
        ewma := ttft;
        return;
      }
      ewma := (ttft + 4 * ewma) / 5;
    }

    method Succeed(ttft: int)
      modifies this
      ensures View() == H.RecordSuccess(old(View()), ttft)
    {
      breaker := H.BreakerClosed;
      consecutiveFailures := 0;
      probeInFlight := false;
      if ttft > 0 {
        ObserveLatency(ttft);
      }
    }

    method Fail(opts: H.Options, c: ErrorClass, retryAfter: int, now: int)
      modifies this
      ensures View() == H.RecordFailure(old(View()), opts, c, retryAfter, now)
    {
      var pause := H.CooldownFor(c, retryAfter);
      if pause > 0 {
        var until := now + pause;
        if until > cooldownUntil {
          cooldownUntil := until;
        }
      }
      if !CountsAgainstHealth(c) {
        return;
      }
      consecutiveFailures := consecutiveFailures + 1;
      match breaker {
        case BreakerHalfOpen =>
          breaker := H.BreakerOpen;
          openedAt := now;
          probeInFlight := false;
        case BreakerOpen =>
        case BreakerClosed =>
          if consecutiveFailures >= opts.breakerThreshold {
            breaker := H.BreakerOpen;
            openedAt := now;
          }
      }
    }
  }

  /** What a tracker knows; a provider nobody reported on is not in it. */
  type Board = map<string, H.Health>

  function Of(b: Board, provider: string): H.Health { if provider in b then b[provider] else H.NEW_HEALTH }

  /** The caller's time, or the clock's if it has none. */
  function TimeOr(now: int, clock: int): int { if now == H.ZERO_TIME then clock else now }

  function AvailableOn(b: Board, o: H.Options, provider: string, now: int): (Board, bool) {
    if provider !in b then (b, true)
    else
      var (h, ok) := H.Available(b[provider], o, now);
      (b[provider := h], ok)
  }

  /** Asking about a provider nobody reported on is like asking about a new one: yes, and nothing
      to remember. */
  lemma UnknownIsNew(b: Board, o: H.Options, provider: string, now: int)
    requires now >= H.ZERO_TIME
    ensures AvailableOn(b, o, provider, now).1 == H.Available(Of(b, provider), o, now).1
    ensures Of(AvailableOn(b, o, provider, now).0, provider) == H.Available(Of(b, provider), o, now).0
  {
  }

  lemma PutTwice(b: Board, provider: string, x: H.Health, y: H.Health)
    ensures b[provider := x][provider := y] == b[provider := y]
  {
  }

  class Tracker {
    const opts: H.Options
    var state: map<string, ProviderHealth>

    ghost predicate Valid()
      reads `state
    {
      forall p, q :: p in state && q in state && p != q ==> state[p] != state[q]
    }

    ghost function Records(): set<ProviderHealth>
      reads `state
    {
      state.Values
    }

    ghost function Model(): Board
      reads `state, Records()
    {
      map p | p in state :: state[p].View()
    }

    twostate lemma OneChanged(p: string)
      requires old(Valid()) && p in state && unchanged(this)
      requires forall q :: q in state && q != p ==> state[q].View() == old(state[q].View())
      ensures Model() == old(Model())[p := state[p].View()]
    {
    }

    constructor (opts: H.Options)
      ensures Valid() && Model() == map[] && this.opts == H.WithDefaults(opts) && Records() == {}
    {
      this.opts := H.WithDefaults(opts);
      state := map[];
    }

    method Available(provider: string, now: int, clock: int) returns (ok: bool)
      requires Valid()
      modifies Records()
      ensures (Model(), ok) == AvailableOn(old(Model()), opts, provider, TimeOr(now, clock))
    {
      if provider !in state {
        return true;
      }
      ok := state[provider].Ask(opts, TimeOr(now, clock));
      OneChanged(provider);
    }

    /** The provider's record, made on its first report. */
    method Get(provider: string) returns (h: ProviderHealth)
      requires Valid()
      modifies `state
      ensures Valid() && provider in state && h == state[provider]
      ensures fresh(Records() - old(Records()))
      ensures Model() == old(Model())[provider := Of(old(Model()), provider)]
    {
      if provider in state {
        return state[provider];
      }
      h := new ProviderHealth();
      state := state[provider := h];
    }

    method RecordSuccess(provider: string, ttft: int)
      requires Valid()
      modifies `state, Records()
      ensures Valid() && fresh(Records() - old(Records()))
      ensures Model() == old(Model())[provider := H.RecordSuccess(Of(old(Model()), provider), ttft)]
    {
      ghost var b := Model();
      var h := Get(provider);
      label got:
      h.Succeed(ttft);
      OneChanged@got(provider);
      PutTwice(b, provider, Of(b, provider), h.View());
    }

    method RecordFailure(provider: string, c: ErrorClass, retryAfter: int, now: int, clock: int)
      requires Valid()
      modifies `state, Records()
      ensures Valid() && fresh(Records() - old(Records()))
      ensures Model() == old(Model())[provider := H.RecordFailure(Of(old(Model()), provider), opts, c, retryAfter, TimeOr(now, clock))]
    {
      ghost var b, v := Model(), H.RecordFailure(Of(Model(), provider), opts, c, retryAfter, TimeOr(now, clock));
      var h := Get(provider);
      assert Model()[provider] == h.View();
      FailOn(provider, h, c, retryAfter, TimeOr(now, clock), v);
      PutTwice(b, provider, Of(b, provider), v);
    }

    method FailOn(provider: string, h: ProviderHealth, c: ErrorClass, retryAfter: int, now: int, ghost v: H.Health)
      requires Valid() && provider in state && state[provider] == h
      requires v == H.RecordFailure(h.View(), opts, c, retryAfter, now)
      modifies h
      ensures Model() == old(Model())[provider := v]
    {
      h.Fail(opts, c, retryAfter, now);
      OneChanged(provider);
    }

    method Latency(provider: string) returns (ttft: Option<int>)
      requires Valid()
      ensures ttft == H.Latency(Of(Model(), provider))
    {
      if provider !in state || state[provider].samples < H.MIN_LATENCY_SAMPLES {
        return None;
      }
      ttft := Some(state[provider].ewma);
    }
  }
}
