/** The money guarantees, as a caller of Spent and Committed sees them. */
module BudgetTheorems {
  import opened Common
  import opened BudgetModel
  import opened BudgetRuns
  import opened BudgetConservation

  /** A process that starts with an empty store. */
  function Fresh(limits: map<TenantID, Limits>, durable: bool, now: int): Sys {
    Booted(limits, durable, map[], now)
  }

  /** What Spent and Committed would report now. */
  function Shown(s: Sys, t: TenantID, now: int): Counters { CountersFor(s.book, t, now) }

  lemma FreshRunIsGood(limits: map<TenantID, Limits>, durable: bool, start: int, es: seq<Event>)
    requires Allowed(Fresh(limits, durable, start), es)
    ensures Inv(Run(Fresh(limits, durable, start), es))
  {
    BootedIsGood(limits, durable, map[], start);
    RunKeeps(Fresh(limits, durable, start), es);
  }

  /** Committed is the estimates of reservations neither settled nor released, and each spend
      figure is what its window opened with plus the costs settled since it opened. */
  lemma Conservation(limits: map<TenantID, Limits>, durable: bool, start: int, es: seq<Event>, t: TenantID, now: int)
    requires Allowed(Fresh(limits, durable, start), es)
    ensures var s := Run(Fresh(limits, durable, start), es);
            var c := Shown(s, t, now);
            && c.committed == Outstanding(s.log, ClosedIds(s.log), t) >= 0.0
            && c.dailySpent == BaseDaily(BaseOf(s, t), c.dailyStart) + SettledSince(s.log, t, c.dailyStart)
            && c.monthlySpent == BaseMonthly(BaseOf(s, t), c.monthlyStart) + SettledSince(s.log, t, c.monthlyStart)
  {
    var s := Run(Fresh(limits, durable, start), es);
    FreshRunIsGood(limits, durable, start, es);
    TouchKeeps(s, t, now);
    OutstandingNotNegative(s.log, s.book.nextID, s.book.done, t);
  }

  /** The floor under committed never changes a result. */
  lemma ClampNeverActs(limits: map<TenantID, Limits>, durable: bool, start: int, es: seq<Event>, r: Reservation, now: int)
    requires Allowed(Fresh(limits, durable, start), es)
    requires var s := Run(Fresh(limits, durable, start), es); Issued(s.log, r) && r.id !in s.book.done
    ensures var c := Shown(Run(Fresh(limits, durable, start), es), r.tenant, now);
            GiveBack(c, r.estimate).committed == c.committed - r.estimate.usd
  {
    FreshRunIsGood(limits, durable, start, es);
    FloorIsDead(Run(Fresh(limits, durable, start), es), r, now);
  }

  /** Let through exactly when the tenant is known, its store condition allows it, and every limit
      it has still holds with this request counted in; otherwise nothing but windows moves. */
  lemma AdmittedIffItFits(b: Book, t: TenantID, est: Estimate, now: int)
    ensures var (b', a) := Reserve(b, t, est, now);
            var c := CountersFor(b, t, now);
            && (a.Granted? <==>
                  && t in b.limits && (b.healthy || !b.limits[t].failClosed)
                  && WithinLimits(Claim(c, est), b.limits[t]))
            && (a.Granted? ==> a.r == Reservation(t, est, now, b'.nextID) && b'.state[t] == Claim(c, est))
            && (a.Denied? ==> b' == b || b' == StateFor(b, t, now))
  {
  }

  predicate WithinLimits(c: Counters, l: Limits) {
    && (l.requestsPerMinute > 0 ==> c.requests <= l.requestsPerMinute)
    && (l.tokensPerMinute > 0 ==> c.tokens <= l.tokensPerMinute)
    && (l.dailyUSD > 0.0 ==> c.dailySpent + c.committed <= l.dailyUSD)
    && (l.monthlyUSD > 0.0 ==> c.monthlySpent + c.committed <= l.monthlyUSD)
  }

  // ----- repeats

  /** A Settle or Release on a reservation already closed. */
  predicate Repeats(e: Event, closed: set<nat>) {
    (e.Settling? || e.Releasing?) && e.r.id in closed
  }

  function ClosedAfter(e: Event, closed: set<nat>): set<nat> {
    if e.Settling? || e.Releasing? then closed + {e.r.id} else if e.Restarting? then {} else closed
  }

  /** The same history without its repeats. */
  function Erase(es: seq<Event>, closed: set<nat>): seq<Event>
    decreases es
  {
    if es == [] then []
    else if Repeats(es[0], closed) then Erase(es[1..], closed)
    else [es[0]] + Erase(es[1..], ClosedAfter(es[0], closed))
  }

  lemma StepCloses(s: Sys, e: Event)
    ensures if Repeats(e, s.book.done) then Step(s, e) == s else Step(s, e).book.done == ClosedAfter(e, s.book.done)
  {
  }

  lemma {:induction false} RepeatsChangeNothing(s: Sys, es: seq<Event>)
    ensures Run(s, Erase(es, s.book.done)) == Run(s, es)
    decreases es
  {
    if es != [] {
      StepCloses(s, es[0]);
      RepeatsChangeNothing(Step(s, es[0]), es[1..]);
      if !Repeats(es[0], s.book.done) {
        var rest := Erase(es[1..], ClosedAfter(es[0], s.book.done));
        assert ([es[0]] + rest)[1..] == rest;
      }
    }
  }

  // ----- overshoot

  /** The history up to t's latest admission, that admission included. */
  function LastAdmission(log: Log, t: TenantID): Log {
    if log.Start? || (log.last.Admitted? && log.last.r.tenant == t) then log else LastAdmission(log.past, t)
  }

  predicate InFlight(log: Log, r: Reservation) {
    Issued(log, r) && r.id !in ClosedIds(log)
  }

  /** Sum of max(0, actual - estimate) over t's requests in flight at then and settled in log. */
  function Overdraft(log: Log, then_: Log, t: TenantID): real {
    match log
    case Start => 0.0
    case Then(past, e) =>
      Overdraft(past, then_, t) +
      if e.Settled? && e.r.tenant == t && InFlight(then_, e.r) then Max(0.0, e.usd - e.r.estimate.usd) else 0.0
  }

  lemma {:induction false} ClosedByThen(log: Log, then_: Log, t: TenantID)
    requires ClosedIds(log) <= ClosedIds(then_)
    ensures Overdraft(log, then_, t) == 0.0
  {
    if log.Then? { ClosedByThen(log.past, then_, t); }
  }

  lemma {:induction false} FlightAtLastAdmission(log: Log, t: TenantID)
    ensures forall r :: Issued(log, r) && r.tenant == t ==> Issued(LastAdmission(log, t), r)
    ensures ClosedIds(LastAdmission(log, t)) <= ClosedIds(log)
  {
    if log.Then? && !(log.last.Admitted? && log.last.r.tenant == t) { FlightAtLastAdmission(log.past, t); }
  }

  lemma {:induction false} UndershotIsOverdraft(log: Log, top: nat, t: TenantID)
    requires LogOK(log, top)
    ensures Undershot(log, t) == Overdraft(log, LastAdmission(log, t), t)
  {
    if log.Then? {
      if log.last.Admitted? && log.last.r.tenant == t {
        ClosedByThen(log, log, t);
      } else {
        UndershotIsOverdraft(log.past, if log.last.Admitted? then log.last.r.id - 1 else top, t);
        FlightAtLastAdmission(log.past, t);
      }
    }
  }

  /** The documented bound, for each cap by itself and across rollovers and restarts: a tenant
      passes its cap (or the restored figure, while the window it was restored into lasts) by at most
      the undershoot of the requests in flight at its latest admission that have settled since. */
  lemma OvershootBound(limits: map<TenantID, Limits>, durable: bool, start: int, es: seq<Event>, t: TenantID, now: int)
    requires Allowed(Fresh(limits, durable, start), es)
    requires t in Run(Fresh(limits, durable, start), es).book.limits
    ensures var s := Run(Fresh(limits, durable, start), es);
            var c := Shown(s, t, now);
            var l := s.book.limits[t];
            var over := Overdraft(s.log, LastAdmission(s.log, t), t);
            && (l.dailyUSD > 0.0 ==> c.dailySpent + c.committed <= DailyCap(l, BaseOf(s, t), c.dailyStart) + over)
            && (l.monthlyUSD > 0.0 ==> c.monthlySpent + c.committed <= MonthlyCap(l, BaseOf(s, t), c.monthlyStart) + over)
  {
    var s := Run(Fresh(limits, durable, start), es);
    FreshRunIsGood(limits, durable, start, es);
    TouchKeeps(s, t, now);
    UndershotIsOverdraft(s.log, s.book.nextID, t);
  }

  predicate NoRestart(es: seq<Event>) {
    forall i :: 0 <= i < |es| ==> !es[i].Restarting?
  }

  lemma {:induction false} OneProcess(s: Sys, es: seq<Event>)
    requires NoRestart(es)
    ensures Run(s, es).base == s.base && Run(s, es).book.limits == s.book.limits
    decreases es
  {
    if es != [] { OneProcess(Step(s, es[0]), es[1..]); }
  }

  /** In a single process the bound is against the configured caps alone, and spend is exactly
      the costs settled since the window opened. */
  lemma OvershootBoundFresh(limits: map<TenantID, Limits>, durable: bool, start: int, es: seq<Event>, t: TenantID, now: int)
    requires Allowed(Fresh(limits, durable, start), es) && NoRestart(es)
    ensures var s := Run(Fresh(limits, durable, start), es);
            var c := Shown(s, t, now);
            var over := Overdraft(s.log, LastAdmission(s.log, t), t);
            && c.dailySpent == SettledSince(s.log, t, c.dailyStart)
            && c.monthlySpent == SettledSince(s.log, t, c.monthlyStart)
            && (t in limits && limits[t].dailyUSD > 0.0 ==> c.dailySpent + c.committed <= limits[t].dailyUSD + over)
            && (t in limits && limits[t].monthlyUSD > 0.0 ==> c.monthlySpent + c.committed <= limits[t].monthlyUSD + over)
  {
    OneProcess(Fresh(limits, durable, start), es);
    Conservation(limits, durable, start, es, t, now);
    if t in limits { OvershootBound(limits, durable, start, es, t, now); }
  }
}
