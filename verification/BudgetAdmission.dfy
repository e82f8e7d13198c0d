/** Who is let through, told from the history: what each limit counts, why a refusal is given and
    until when, what makes the store degraded, and how long a window lasts. */
module BudgetAdmission {
  import opened BudgetModel
  import opened BudgetRuns
  import opened BudgetConservation
  import opened BudgetTheorems
  import B = BudgetRates
  import K = BudgetTokens

  // ----- the reason

  /** What a request by t adds up to: its admissions and tokens in the running windows, and money spent
      in them or committed. */
  datatype Figures = Figures(requests: int, tokens: int, daily: real, monthly: real)

  function FiguresOf(s: Sys, t: TenantID, c: Counters): Figures {
    var open := Outstanding(s.log, ClosedIds(s.log), t);
    Figures(B.AdmissionsFrom(s.log, t, c.requestsAt), K.WindowTokens(s.log, t, c.tokensAt),
            BaseDaily(BaseOf(s, t), c.dailyStart) + SettledSince(s.log, t, c.dailyStart) + open,
            BaseMonthly(BaseOf(s, t), c.monthlyStart) + SettledSince(s.log, t, c.monthlyStart) + open)
  }

  /** The limits a request of est would break, were it let through. */
  predicate Breaks(f: Figures, l: Limits, est: Estimate, why: DenyReason) {
    match why
    case RequestRate => 0 < l.requestsPerMinute < f.requests + 1
    case TokenRate => 0 < l.tokensPerMinute < f.tokens + est.Tokens()
    case DailyBudget => 0.0 < l.dailyUSD < f.daily + est.usd
    case MonthlyBudget => 0.0 < l.monthlyUSD < f.monthly + est.usd
    case _ => false
  }

  /** What why is tried after. */
  function Earlier(why: DenyReason): set<DenyReason> {
    match why
    case MonthlyBudget => {RequestRate, TokenRate, DailyBudget}
    case DailyBudget => {RequestRate, TokenRate}
    case TokenRate => {RequestRate}
    case _ => {}
  }

  /** When the wait a refusal names is over. */
  function Until(c: Counters, why: DenyReason, now: int): int {
    match why
    case RequestRate => c.requestsAt + RATE_WINDOW
    case TokenRate => c.tokensAt + RATE_WINDOW
    case _ => now
  }

  lemma HistoryTells(limits: map<TenantID, Limits>, durable: bool, start: int, es: seq<Event>, t: TenantID, now: int)
    requires Allowed(Fresh(limits, durable, start), es)
    ensures var s := Run(Fresh(limits, durable, start), es);
            var c := Shown(s, t, now);
            t in s.book.limits && K.Prompt(s.log, t, c.tokensAt) ==>
              FiguresOf(s, t, c) == Figures(c.requests, c.tokens, c.dailySpent + c.committed, c.monthlySpent + c.committed)
  {
    var s := Run(Fresh(limits, durable, start), es);
    BootedIsGood(limits, durable, map[], start);
    B.RunKeepsRates(Fresh(limits, durable, start), es);
    if t in s.book.limits {
      B.TouchKeepsRate(s, t, now);
      K.WindowHolds(limits, durable, start, es, t, now);
      Conservation(limits, durable, start, es, t, now);
    }
  }

  /** A tenant that is configured and not shut out by a degraded store is refused exactly when one of
      its limits would break, for the first that would, in the order the limits are asked; a rate names
      the end of its window as the wait, a budget none. */
  lemma RefusedExactly(limits: map<TenantID, Limits>, durable: bool, start: int, es: seq<Event>, t: TenantID, est: Estimate, now: int,
                       why: DenyReason)
    requires Allowed(Fresh(limits, durable, start), es)
    requires var s := Run(Fresh(limits, durable, start), es);
             && t in s.book.limits && (s.book.healthy || !s.book.limits[t].failClosed) && s.clock <= now
             && K.Prompt(s.log, t, Shown(s, t, now).tokensAt)
    ensures var s := Run(Fresh(limits, durable, start), es);
            var c, a, l := Shown(s, t, now), Reserve(s.book, t, est, now).1, s.book.limits[t];
            var f := FiguresOf(s, t, c);
            && ((a.Denied? && a.d.reason == why) <==> Breaks(f, l, est, why) && forall w :: w in Earlier(why) ==> !Breaks(f, l, est, w))
            && (a.Denied? ==> now + a.d.retryAfter == Until(c, a.d.reason, now))
  {
    var s := Run(Fresh(limits, durable, start), es);
    HistoryTells(limits, durable, start, es, t, now);
    FreshRunIsGood(limits, durable, start, es);
    TouchIsCurrent(s, t, now);
    RefusalOf(Shown(s, t, now), s.book.limits[t], est, now, why);
    ReserveRefuses(s.book, t, est, now);
  }

  lemma ReserveRefuses(b: Book, t: TenantID, est: Estimate, now: int)
    requires t in b.limits && (b.healthy || !b.limits[t].failClosed)
    ensures var a, no := Reserve(b, t, est, now).1, Refusal(CountersFor(b, t, now), b.limits[t], est, now);
            (a.Denied? <==> no.Some?) && (a.Denied? ==> a.d == no.value)
  {
  }

  lemma RefusalOf(c: Counters, l: Limits, est: Estimate, now: int, why: DenyReason)
    requires Current(c, now)
    ensures var f, no := Figures(c.requests, c.tokens, c.dailySpent + c.committed, c.monthlySpent + c.committed), Refusal(c, l, est, now);
            && ((no.Some? && no.value.reason == why) <==> Breaks(f, l, est, why) && forall w :: w in Earlier(why) ==> !Breaks(f, l, est, w))
            && (no.Some? ==> now + no.value.retryAfter == Until(c, no.value.reason, now))
  {
    assert RequestRate in Earlier(TokenRate) && TokenRate in Earlier(DailyBudget) && RequestRate in Earlier(DailyBudget);
    assert DailyBudget in Earlier(MonthlyBudget) && TokenRate in Earlier(MonthlyBudget) && RequestRate in Earlier(MonthlyBudget);
  }

  /** And the other two reasons. */
  lemma ShutOutExactly(b: Book, t: TenantID, est: Estimate, now: int)
    ensures var a := Reserve(b, t, est, now).1;
            && ((a.Denied? && a.d.reason == UnknownTenant) <==> t !in b.limits)
            && ((a.Denied? && a.d.reason == StoreDegraded) <==> t in b.limits && b.limits[t].failClosed && !b.healthy)
            && (a.Denied? && (a.d.reason == UnknownTenant || a.d.reason == StoreDegraded) ==>
                  a.d.retryAfter == 0 && Reserve(b, t, est, now).0 == b)
  {
  }

  // ----- the store's condition

  /** What the latest event that bears on the store said of it: a write of anything newer than what is
      stored, a mark, or a start. */
  function LastVerdict(s: Sys, es: seq<Event>): bool
    decreases es
  {
    if es == [] then s.book.healthy
    else
      var n := |es| - 1;
      match es[n]
      case Saving(snap, saves) =>
        if snap.number > At(Run(s, es[..n]).book.written, snap.row.tenant) then saves else LastVerdict(s, es[..n])
      case Marking(healthy) => healthy
      case Restarting(_, _) => true
      case _ => LastVerdict(s, es[..n])
  }

  lemma {:induction false} RunLast(s: Sys, es: seq<Event>)
    requires es != []
    ensures Run(s, es) == Step(Run(s, es[..|es| - 1]), es[|es| - 1])
    decreases es
  {
    var n := |es| - 1;
    if n > 0 {
      RunLast(Step(s, es[0]), es[1..]);
      assert es[1..][..n - 1] == es[..n][1..];
    } else {
      assert es[1..] == [] && es[..0] == [];
    }
  }

  lemma StepHealth(s: Sys, e: Event)
    ensures Step(s, e).book.healthy ==
              match e
              case Saving(snap, saves) => if snap.number > At(s.book.written, snap.row.tenant) then saves else s.book.healthy
              case Marking(healthy) => healthy
              case Restarting(_, _) => true
              case _ => s.book.healthy
  {
  }

  /** The store counts as healthy exactly when the latest verdict on it says so; stale writes are none. */
  lemma {:induction false} HealthIsLastVerdict(s: Sys, es: seq<Event>)
    ensures Run(s, es).book.healthy == LastVerdict(s, es)
    decreases es
  {
    if es != [] {
      var n := |es| - 1;
      HealthIsLastVerdict(s, es[..n]);
      RunLast(s, es);
      StepHealth(Run(s, es[..n]), es[n]);
    }
  }

  // ----- how long a window lasts

  /** c' is c some time later: no window has been left before its time. */
  predicate Lasted(c: Counters, c': Counters) {
    && (c'.dailyStart == c.dailyStart || c'.dailyStart >= c.dailyStart + DAILY_WINDOW)
    && (c'.monthlyStart == c.monthlyStart || c'.monthlyStart >= c.monthlyStart + MONTHLY_WINDOW)
    && (c'.requestsAt == c.requestsAt || c'.requestsAt >= c.requestsAt + RATE_WINDOW)
    && (c'.tokensAt == c.tokensAt || c'.tokensAt >= c.tokensAt + RATE_WINDOW)
  }

  lemma StepLasts(s: Sys, e: Event, t: TenantID)
    requires t in s.book.state && !e.Restarting?
    ensures t in Step(s, e).book.state && Lasted(s.book.state[t], Step(s, e).book.state[t])
  {
    TouchLasts(s.book, t, Step(s, e).clock);
    match e
    case Reserving(u, est, now) => ReserveLasts(s.book, u, est, now, t);
    case Settling(r, total, usd, now) => if r.id !in s.book.done { SettleLasts(s.book, r, total, usd, now, t); }
    case Releasing(r, now) => if r.id !in s.book.done { ReleaseLasts(s.book, r, now, t); }
    case _ =>
  }

  predicate SameWindows(c: Counters, c': Counters) {
    && c'.dailyStart == c.dailyStart && c'.monthlyStart == c.monthlyStart
    && c'.requestsAt == c.requestsAt && c'.tokensAt == c.tokensAt
  }

  lemma TouchLasts(b: Book, t: TenantID, now: int)
    requires t in b.state
    ensures Lasted(b.state[t], CountersFor(b, t, now))
  {
  }

  lemma ReserveLasts(b: Book, u: TenantID, est: Estimate, now: int, t: TenantID)
    requires t in b.state
    ensures var b' := Reserve(b, u, est, now).0;
            t in b'.state && (b'.state[t] == b.state[t] || SameWindows(CountersFor(b, t, now), b'.state[t]))
  {
  }

  lemma ReleaseLasts(b: Book, r: Reservation, now: int, t: TenantID)
    requires t in b.state && r.id !in b.done
    ensures var b' := Release(b, r, now);
            t in b'.state && (b'.state[t] == b.state[t] || SameWindows(CountersFor(b, t, now), b'.state[t]))
  {
  }

  lemma SettleLasts(b: Book, r: Reservation, total: int, usd: real, now: int, t: TenantID)
    requires t in b.state && r.id !in b.done
    ensures var b' := SettleMem(b, r, total, usd, now).0;
            t in b'.state && (b'.state[t] == b.state[t] || SameWindows(CountersFor(b, t, now), b'.state[t]))
  {
  }

  predicate StaysUp(es: seq<Event>) { forall i :: 0 <= i < |es| ==> !es[i].Restarting? }

  /** Within a process no window ends before it has lasted its whole length. */
  lemma {:induction false} WindowsLast(s: Sys, es: seq<Event>, t: TenantID)
    requires t in s.book.state && StaysUp(es)
    ensures t in Run(s, es).book.state && Lasted(s.book.state[t], Run(s, es).book.state[t])
    decreases es
  {
    if es != [] {
      StepLasts(s, es[0], t);
      WindowsLast(Step(s, es[0]), es[1..], t);
    }
  }
}
