/** The request rate over any sliding minute, and what RetryAfter promises. */
module BudgetRates {
  import opened BudgetModel
  import opened BudgetRuns
  import opened BudgetConservation
  import opened BudgetTheorems

  predicate AdmittedFor(e: Entry, t: TenantID) { e.Admitted? && e.r.tenant == t }

  /** Admissions of t at a moment in the half-open interval from lo to hi. */
  function AdmissionsIn(log: Log, t: TenantID, lo: int, hi: int): nat {
    match log
    case Start => 0
    case Then(past, e) =>
      AdmissionsIn(past, t, lo, hi) + if AdmittedFor(e, t) && lo <= e.r.issuedAt < hi then 1 else 0
  }

  /** Admissions of t in the half-open minute that starts at a. */
  function InMinute(log: Log, t: TenantID, a: int): nat { AdmissionsIn(log, t, a, a + RATE_WINDOW) }

  function AdmissionsFrom(log: Log, t: TenantID, lo: int): nat {
    match log
    case Start => 0
    case Then(past, e) => AdmissionsFrom(past, t, lo) + if AdmittedFor(e, t) && lo <= e.r.issuedAt then 1 else 0
  }

  /** The counter is the admissions of its window; that window and the minute before it are
      both within the limit, and so is twice the limit in any minute. */
  ghost predicate RateOK(log: Log, c: Counters, t: TenantID, rpm: int) {
    && c.requests == AdmissionsFrom(log, t, c.requestsAt)
    && AdmissionsFrom(log, t, c.requestsAt + RATE_WINDOW) == 0
    && (rpm > 0 ==>
          && c.requests <= rpm
          && AdmissionsIn(log, t, c.requestsAt - RATE_WINDOW + 1, c.requestsAt) <= rpm
          && (forall a :: InMinute(log, t, a) <= 2 * rpm))
  }

  ghost predicate RatesInv(s: Sys) {
    forall t :: t in s.book.state && t in s.book.limits ==>
      RateOK(s.log, s.book.state[t], t, s.book.limits[t].requestsPerMinute)
  }

  lemma {:induction false} Narrower(log: Log, t: TenantID, lo: int, hi: int, w: int)
    ensures w <= lo ==> AdmissionsIn(log, t, lo, hi) <= AdmissionsFrom(log, t, lo) <= AdmissionsFrom(log, t, w)
    ensures AdmissionsIn(log, t, lo, hi) <= AdmissionsIn(log, t, lo, w) + AdmissionsFrom(log, t, w)
  {
    if log.Then? { Narrower(log.past, t, lo, hi, w); }
  }

  lemma {:induction false} Wider(log: Log, t: TenantID, lo: int, lo': int, hi: int)
    requires lo' <= lo
    ensures AdmissionsIn(log, t, lo, hi) <= AdmissionsIn(log, t, lo', hi)
  {
    if log.Then? { Wider(log.past, t, lo, lo', hi); }
  }

  lemma {:induction false} SilentAdmitsNone(log: Log, t: TenantID, lo: int)
    requires Silent(log, t)
    ensures AdmissionsFrom(log, t, lo) == 0
    ensures forall a, b :: AdmissionsIn(log, t, a, b) == 0
  {
    if log.Then? { SilentAdmitsNone(log.past, t, lo); }
  }

  lemma RollKeepsRate(log: Log, c: Counters, t: TenantID, rpm: int, now: int)
    requires RateOK(log, c, t, rpm)
    ensures RateOK(log, Roll(c, now), t, rpm)
  {
    if now - c.requestsAt >= RATE_WINDOW {
      Narrower(log, t, now, now, c.requestsAt + RATE_WINDOW);
      Narrower(log, t, now + RATE_WINDOW, now, c.requestsAt + RATE_WINDOW);
      Narrower(log, t, now - RATE_WINDOW + 1, now, c.requestsAt);
    }
  }

  lemma TouchKeepsRate(s: Sys, t: TenantID, now: int)
    requires Inv(s) && RatesInv(s) && t in s.book.limits
    ensures RateOK(s.log, CountersFor(s.book, t, now), t, s.book.limits[t].requestsPerMinute)
  {
    assert TenantOK(s, t);
    if t in s.book.state {
      RollKeepsRate(s.log, s.book.state[t], t, s.book.limits[t].requestsPerMinute, now);
    } else {
      SilentAdmitsNone(s.log, t, now);
      SilentAdmitsNone(s.log, t, now + RATE_WINDOW);
    }
  }

  lemma ClaimKeepsRate(log: Log, c: Counters, t: TenantID, rpm: int, r: Reservation)
    requires RateOK(log, c, t, rpm) && (rpm > 0 ==> c.requests < rpm)
    requires r.tenant == t && c.requestsAt <= r.issuedAt < c.requestsAt + RATE_WINDOW
    ensures RateOK(Then(log, Admitted(r)), Claim(c, r.estimate), t, rpm)
  {
    var log' := Then(log, Admitted(r));
    var w := c.requestsAt;
    forall a | rpm > 0 ensures InMinute(log', t, a) <= 2 * rpm {
      assert InMinute(log, t, a) <= 2 * rpm;
      if a <= r.issuedAt < a + RATE_WINDOW {
        Narrower(log', t, a, a + RATE_WINDOW, w);
        if a < w { Wider(log', t, a, w - RATE_WINDOW + 1, w); }
      }
    }
  }

  /** Entries about other tenants, and closings, count for nothing here. */
  lemma SameRate(log: Log, e: Entry, c: Counters, c': Counters, t: TenantID, rpm: int)
    requires RateOK(log, c, t, rpm) && !AdmittedFor(e, t) && c'.requests == c.requests && c'.requestsAt == c.requestsAt
    ensures RateOK(Then(log, e), c', t, rpm)
  {
    forall a ensures InMinute(Then(log, e), t, a) == InMinute(log, t, a) { }
  }

  /** A step leaves t's counters alone, or brings them up to date and then claims, or closes. */
  lemma StepOnTenant(s: Sys, e: Event, t: TenantID, c: Counters)
    requires !e.Restarting? && c == CountersFor(s.book, t, Step(s, e).clock)
    ensures var s' := Step(s, e);
            && s'.book.limits == s.book.limits
            && (s'.log == s.log || (s'.log.Then? && s'.log.past == s.log))
            && (t in s.book.state ==> t in s'.book.state)
            && (t in s'.book.state ==>
                  var c' := s'.book.state[t];
                  if s'.log != s.log && AdmittedFor(s'.log.last, t) then
                    && t in s.book.limits && Admits(s, e, t)
                    && (s.book.limits[t].requestsPerMinute > 0 ==> c.requests < s.book.limits[t].requestsPerMinute)
                    && c' == Claim(c, s'.log.last.r.estimate) && s'.log.last.r.issuedAt == s'.clock
                  else
                    || (t in s.book.state && c' == s.book.state[t])
                    || (c'.requests == c.requests && c'.requestsAt == c.requestsAt))
  {
    match e
    case Reserving(u, est, now) =>
    case Settling(r, _, _, now) =>
    case Releasing(r, now) =>
    case Reading(u, now) =>
    case _ =>
  }

  lemma StepKeepsRates(s: Sys, e: Event)
    requires Inv(s) && RatesInv(s) && Enabled(s, e)
    ensures RatesInv(Step(s, e))
  {
    if !e.Restarting? {
      forall u | u in Step(s, e).book.state && u in Step(s, e).book.limits
        ensures RateOK(Step(s, e).log, Step(s, e).book.state[u], u, Step(s, e).book.limits[u].requestsPerMinute)
      {
        StepKeepsRate(s, e, Step(s, e), u);
      }
    }
  }

  lemma StepKeepsRate(s: Sys, e: Event, s': Sys, u: TenantID)
    requires Inv(s) && RatesInv(s) && Enabled(s, e) && !e.Restarting? && s' == Step(s, e)
    requires u in s'.book.state && u in s'.book.limits
    ensures RateOK(s'.log, s'.book.state[u], u, s'.book.limits[u].requestsPerMinute)
  {
    var c := CountersFor(s.book, u, s'.clock);
    StepOnTenant(s, e, u, c);
    TouchKeepsRate(s, u, s'.clock);
    TouchIsCurrent(s, u, s'.clock);
    var rpm := s.book.limits[u].requestsPerMinute;
    if s'.log != s.log {
      if AdmittedFor(s'.log.last, u) {
        ClaimKeepsRate(s.log, c, u, rpm, s'.log.last.r);
      } else if u in s.book.state && s'.book.state[u] == s.book.state[u] {
        SameRate(s.log, s'.log.last, s.book.state[u], s'.book.state[u], u, rpm);
      } else {
        SameRate(s.log, s'.log.last, c, s'.book.state[u], u, rpm);
      }
    }
  }

  lemma {:induction false} RunKeepsRates(s: Sys, es: seq<Event>)
    requires Inv(s) && RatesInv(s) && Allowed(s, es)
    ensures Inv(Run(s, es)) && RatesInv(Run(s, es))
    decreases es
  {
    if es != [] {
      StepKeeps(s, es[0]);
      StepKeepsRates(s, es[0]);
      RunKeepsRates(Step(s, es[0]), es[1..]);
    }
  }

  /** In one process, any minute holds at most twice the configured requests per minute. */
  lemma SlidingMinute(limits: map<TenantID, Limits>, durable: bool, start: int, es: seq<Event>, t: TenantID, a: int)
    requires Allowed(Fresh(limits, durable, start), es)
    ensures var s := Run(Fresh(limits, durable, start), es);
            t in s.book.limits && s.book.limits[t].requestsPerMinute > 0 ==>
              InMinute(s.log, t, a) <= 2 * s.book.limits[t].requestsPerMinute
  {
    BootedIsGood(limits, durable, map[], start);
    RunKeepsRates(Fresh(limits, durable, start), es);
    var s := Run(Fresh(limits, durable, start), es);
    if t in s.book.limits { TouchKeepsRate(s, t, s.clock); }
  }

  // ----- RetryAfter

  predicate Admits(s: Sys, e: Event, t: TenantID) {
    e.Reserving? && e.t == t && Reserve(s.book, t, e.est, e.now).1.Granted?
  }

  /** Nothing is admitted for t, the process stays up, and no call comes later than until. */
  predicate WaitsFor(s: Sys, es: seq<Event>, t: TenantID, until: int)
    decreases es
  {
    es == [] ||
    (!Admits(s, es[0], t) && !es[0].Restarting? && Step(s, es[0]).clock <= until && WaitsFor(Step(s, es[0]), es[1..], t, until))
  }

  predicate ClearsBy(b: Book, t: TenantID, until: int) {
    t in b.state ==> b.state[t].requestsAt + RATE_WINDOW <= until || b.state[t].requests == 0
  }

  lemma StepClears(s: Sys, e: Event, t: TenantID, until: int)
    requires ClearsBy(s.book, t, until) && !Admits(s, e, t) && !e.Restarting?
    ensures ClearsBy(Step(s, e).book, t, until) && Step(s, e).book.limits == s.book.limits
  {
    var c := CountersFor(s.book, t, Step(s, e).clock);
    assert c.requestsAt + RATE_WINDOW <= until || c.requests == 0;
    StepOnTenant(s, e, t, c);
  }

  lemma {:induction false} WaitingClears(s: Sys, es: seq<Event>, t: TenantID, until: int)
    requires WaitsFor(s, es, t, until) && ClearsBy(s.book, t, until)
    ensures ClearsBy(Run(s, es).book, t, until) && Run(s, es).book.limits == s.book.limits
    decreases es
  {
    if es != [] {
      StepClears(s, es[0], t, until);
      WaitingClears(Step(s, es[0]), es[1..], t, until);
    }
  }

  /** A request refused for request rate that comes back after exactly RetryAfter is not refused
      for it again, if t is admitted nothing meanwhile. */
  lemma RetryAfterSuffices(s: Sys, t: TenantID, est: Estimate, now: int, es: seq<Event>, est': Estimate)
    requires Inv(s) && s.clock <= now
    requires var a := Reserve(s.book, t, est, now).1; a.Denied? && a.d.reason == RequestRate
    requires var d := Reserve(s.book, t, est, now).1.d.retryAfter;
             WaitsFor(Step(s, Reserving(t, est, now)), es, t, now + d)
    ensures var d := Reserve(s.book, t, est, now).1.d.retryAfter;
            var again := Reserve(Run(Step(s, Reserving(t, est, now)), es).book, t, est', now + d).1;
            0 < d <= RATE_WINDOW && (again.Denied? ==> again.d.reason != RequestRate)
  {
    var d := Reserve(s.book, t, est, now).1.d.retryAfter;
    var s1 := Step(s, Reserving(t, est, now));
    TouchIsCurrent(s, t, now);
    assert s1.book.state[t].requestsAt + RATE_WINDOW == now + d;
    WaitingClears(s1, es, t, now + d);
  }
}
