/** Whole runs of the enforcer: any interleaving of reservations, settlements, releases,
    balance reads, store writes (late, out of order, failing) and restarts, with a history
    of what happened against which the counters are judged. */
module BudgetRuns {
  import opened Common
  import opened BudgetModel

  datatype Entry =
    | Admitted(r: Reservation)
    | Settled(r: Reservation, totalTokens: int, usd: real, at: int, row: SpendRow)
    | Released(r: Reservation)

  /** What one process did, oldest first. */
  datatype Log = Start | Then(past: Log, last: Entry)

  /** base is what the store held when the process started. A settlement that has left the
      accounting lock and not reached the store is pending. */
  datatype Sys = Sys(book: Book, clock: int, base: map<TenantID, SpendRow>, log: Log,
                     pending: set<Snapshot>, failed: set<Snapshot>)

  datatype Event =
    | Reserving(t: TenantID, est: Estimate, now: int)
    | Settling(r: Reservation, totalTokens: int, usd: real, now: int)
    | Saving(snap: Snapshot, saves: bool)
    | Releasing(r: Reservation, now: int)
    | Reading(t: TenantID, now: int)
    | Marking(healthy: bool)
    | Restarting(limits: map<TenantID, Limits>, now: int)

  function Booted(limits: map<TenantID, Limits>, durable: bool, store: map<TenantID, SpendRow>, now: int): Sys {
    Sys(Boot(limits, durable, store, now), now, if durable then store else map[], Start, {}, {})
  }

  function Step(s: Sys, e: Event): Sys {
    match e
    case Reserving(t, est, now) =>
      var (b, a) := Reserve(s.book, t, est, now);
      s.(book := b, clock := now, log := if a.Granted? then Then(s.log, Admitted(a.r)) else s.log)
    case Settling(r, tokens, usd, now) =>
      if r.id in s.book.done then s
      else
        var (b, snap) := SettleMem(s.book, r, tokens, usd, now);
        s.(book := b, clock := now, log := Then(s.log, Settled(r, tokens, usd, now, RowOf(r.tenant, b.state[r.tenant]))),
           pending := if snap.Some? then s.pending + {snap.value} else s.pending)
    case Saving(snap, saves) =>
      var (b, ok) := Persist(s.book, snap, saves);
      s.(book := b, pending := s.pending - {snap}, failed := if ok then s.failed else s.failed + {snap})
    case Releasing(r, now) =>
      if r.id in s.book.done then s
      else s.(book := Release(s.book, r, now), clock := now, log := Then(s.log, Released(r)))
    case Reading(t, now) => s.(book := StateFor(s.book, t, now), clock := now)
    case Marking(healthy) => s.(book := s.book.(healthy := healthy))
    case Restarting(limits, now) => Booted(limits, s.book.durable, s.book.store, now)
  }

  /** The clock does not run backwards, money is not negative, and only reservations this
      process issued, and snapshots it cut, are handed back to it. */
  predicate Enabled(s: Sys, e: Event) {
    match e
    case Reserving(t, est, now) => s.clock <= now && est.usd >= 0.0
    case Settling(r, tokens, usd, now) => s.clock <= now && usd >= 0.0 && Issued(s.log, r)
    case Saving(snap, saves) => snap in s.pending
    case Releasing(r, now) => s.clock <= now && Issued(s.log, r)
    case Reading(t, now) => s.clock <= now
    case Marking(healthy) => true
    case Restarting(limits, now) => s.clock <= now
  }

  function Run(s: Sys, es: seq<Event>): Sys
    decreases es
  {
    if es == [] then s else Run(Step(s, es[0]), es[1..])
  }

  predicate Allowed(s: Sys, es: seq<Event>)
    decreases es
  {
    es == [] || (Enabled(s, es[0]) && Allowed(Step(s, es[0]), es[1..]))
  }

  // ----- reading the history

  predicate Issued(log: Log, r: Reservation) {
    log.Then? && (log.last == Admitted(r) || Issued(log.past, r))
  }

  function ClosedIds(log: Log): set<nat> {
    match log
    case Start => {}
    case Then(past, e) => ClosedIds(past) + if e.Admitted? then {} else {e.r.id}
  }

  /** Estimates of t's reservations whose ids are not in closed. */
  function Outstanding(log: Log, closed: set<nat>, t: TenantID): real {
    match log
    case Start => 0.0
    case Then(past, e) =>
      Outstanding(past, closed, t) + if e.Admitted? && e.r.tenant == t && e.r.id !in closed then e.r.estimate.usd else 0.0
  }

  /** Cost of t's settlements made at or after from. */
  function SettledSince(log: Log, t: TenantID, from: int): real {
    match log
    case Start => 0.0
    case Then(past, e) =>
      SettledSince(past, t, from) + if e.Settled? && e.r.tenant == t && from <= e.at then e.usd else 0.0
  }

  predicate SettledBefore(log: Log, t: TenantID, bound: int) {
    match log
    case Start => true
    case Then(past, e) => SettledBefore(past, t, bound) && (e.Settled? && e.r.tenant == t ==> e.at < bound)
  }

  predicate Silent(log: Log, t: TenantID) {
    match log
    case Start => true
    case Then(past, e) => Silent(past, t) && e.r.tenant != t
  }

  /** How far actual costs exceeded estimates among t's settlements since its latest admission. */
  function Undershot(log: Log, t: TenantID): real {
    match log
    case Start => 0.0
    case Then(past, e) =>
      if e.r.tenant != t || e.Released? then Undershot(past, t)
      else if e.Admitted? then 0.0
      else Undershot(past, t) + Max(0.0, e.usd - e.r.estimate.usd)
  }

  /** Ids grow, and a reservation closes at most once, after it was issued. */
  predicate LogOK(log: Log, top: nat) {
    match log
    case Start => true
    case Then(past, Admitted(r)) => 0 < r.id <= top && r.estimate.usd >= 0.0 && LogOK(past, r.id - 1)
    case Then(past, e) =>
      LogOK(past, top) && Issued(past, e.r) && e.r.id !in ClosedIds(past) && (e.Settled? ==> e.usd >= 0.0)
  }

  // ----- what holds of one tenant

  function BaseDaily(base: Option<SpendRow>, start: int): real {
    if base.Some? && base.value.dailyStart == start then base.value.dailyUSD else 0.0
  }

  function BaseMonthly(base: Option<SpendRow>, start: int): real {
    if base.Some? && base.value.monthlyStart == start then base.value.monthlyUSD else 0.0
  }

  ghost predicate DailyOK(log: Log, base: Option<SpendRow>, c: Counters, t: TenantID) {
    && c.dailySpent == BaseDaily(base, c.dailyStart) + SettledSince(log, t, c.dailyStart)
    && c.dailySpent >= BaseDaily(base, c.dailyStart)
    && SettledBefore(log, t, c.dailyStart + DAILY_WINDOW)
    && (base.Some? ==> base.value.dailyUSD >= 0.0 && base.value.dailyStart <= c.dailyStart)
  }

  ghost predicate MonthlyOK(log: Log, base: Option<SpendRow>, c: Counters, t: TenantID) {
    && c.monthlySpent == BaseMonthly(base, c.monthlyStart) + SettledSince(log, t, c.monthlyStart)
    && c.monthlySpent >= BaseMonthly(base, c.monthlyStart)
    && SettledBefore(log, t, c.monthlyStart + MONTHLY_WINDOW)
    && (base.Some? ==> base.value.monthlyUSD >= 0.0 && base.value.monthlyStart <= c.monthlyStart)
  }

  /** The cap, or the restored figure while its window lasts. */
  function DailyCap(l: Limits, base: Option<SpendRow>, start: int): real { Max(l.dailyUSD, BaseDaily(base, start)) }

  function MonthlyCap(l: Limits, base: Option<SpendRow>, start: int): real { Max(l.monthlyUSD, BaseMonthly(base, start)) }

  /** While the restored figure alone is over a cap nothing is let through, so nothing is committed. */
  ghost predicate CapsOK(log: Log, base: Option<SpendRow>, c: Counters, t: TenantID, l: Limits) {
    && (l.dailyUSD > 0.0 ==>
          && c.dailySpent + c.committed <= DailyCap(l, base, c.dailyStart) + Undershot(log, t)
          && (BaseDaily(base, c.dailyStart) > l.dailyUSD ==> c.committed == 0.0))
    && (l.monthlyUSD > 0.0 ==>
          && c.monthlySpent + c.committed <= MonthlyCap(l, base, c.monthlyStart) + Undershot(log, t)
          && (BaseMonthly(base, c.monthlyStart) > l.monthlyUSD ==> c.committed == 0.0))
  }

  /** The row the process restored for t, if it restored one. */
  function BaseOf(s: Sys, t: TenantID): Option<SpendRow> {
    if t in s.base && t in s.book.limits then Some(s.base[t]) else None
  }

  ghost predicate TenantOK(s: Sys, t: TenantID) {
    if t in s.book.state then
      var c := s.book.state[t];
      && c.committed == Outstanding(s.log, s.book.done, t)
      && DailyOK(s.log, BaseOf(s, t), c, t)
      && MonthlyOK(s.log, BaseOf(s, t), c, t)
      && (t in s.book.limits ==> CapsOK(s.log, BaseOf(s, t), c, t, s.book.limits[t]))
    else Silent(s.log, t) && BaseOf(s, t) == None
  }

  predicate RowOK(row: SpendRow, clock: int) {
    row.dailyUSD >= 0.0 && row.monthlyUSD >= 0.0 && row.dailyStart <= clock && row.monthlyStart <= clock
  }

  predicate StartedBy(c: Counters, clock: int) {
    c.dailyStart <= clock && c.monthlyStart <= clock && c.requestsAt <= clock && c.tokensAt <= clock
  }

  ghost predicate Inv(s: Sys) {
    && LogOK(s.log, s.book.nextID)
    && s.book.done == ClosedIds(s.log)
    && (forall t :: t in s.book.store ==> RowOK(s.book.store[t], s.clock))
    && (forall p :: p in s.pending ==> RowOK(p.row, s.clock))
    && (forall t :: t in s.book.state ==> StartedBy(s.book.state[t], s.clock))
    && (forall t :: TenantOK(s, t))
  }

  // ----- lemmas on the history

  lemma {:induction false} SilentMeansZero(log: Log, t: TenantID, closed: set<nat>, from: int)
    requires Silent(log, t)
    ensures Outstanding(log, closed, t) == 0.0 && SettledSince(log, t, from) == 0.0
    ensures SettledBefore(log, t, from) && Undershot(log, t) == 0.0
  {
    if log.Then? { SilentMeansZero(log.past, t, closed, from); }
  }

  lemma {:induction false} NoneSince(log: Log, t: TenantID, from: int)
    requires SettledBefore(log, t, from)
    ensures SettledSince(log, t, from) == 0.0
  {
    if log.Then? { NoneSince(log.past, t, from); }
  }

  lemma {:induction false} BeforeLater(log: Log, t: TenantID, bound: int, later: int)
    requires SettledBefore(log, t, bound) && bound <= later
    ensures SettledBefore(log, t, later)
  {
    if log.Then? { BeforeLater(log.past, t, bound, later); }
  }

  lemma {:induction false} UndershotNotNegative(log: Log, t: TenantID)
    ensures Undershot(log, t) >= 0.0
  {
    if log.Then? { UndershotNotNegative(log.past, t); }
  }

  lemma {:induction false} OutstandingNotNegative(log: Log, top: nat, closed: set<nat>, t: TenantID)
    requires LogOK(log, top)
    ensures Outstanding(log, closed, t) >= 0.0
  {
    if log.Then? {
      OutstandingNotNegative(log.past, if log.last.Admitted? then log.last.r.id - 1 else top, closed, t);
    }
  }

  /** Closing an id no reservation in the log carries changes nothing. */
  lemma {:induction false} ForeignId(log: Log, top: nat, closed: set<nat>, id: nat, t: TenantID)
    requires LogOK(log, top) && top < id
    ensures Outstanding(log, closed + {id}, t) == Outstanding(log, closed, t)
    ensures id !in ClosedIds(log)
    ensures forall r :: Issued(log, r) ==> r.id <= top
  {
    if log.Then? {
      ForeignId(log.past, if log.last.Admitted? then log.last.r.id - 1 else top, closed, id, t);
    }
  }

  /** Closing an open reservation takes exactly its estimate off its tenant's total. */
  lemma {:induction false} ClosingOne(log: Log, top: nat, closed: set<nat>, r: Reservation, t: TenantID)
    requires LogOK(log, top) && Issued(log, r) && r.id !in closed
    ensures Outstanding(log, closed + {r.id}, t)
         == Outstanding(log, closed, t) - if r.tenant == t then r.estimate.usd else 0.0
    ensures 0.0 <= r.estimate.usd
  {
    var below := if log.last.Admitted? then log.last.r.id - 1 else top;
    if log.last == Admitted(r) {
      ForeignId(log.past, below, closed, r.id, t);
    } else {
      ClosingOne(log.past, top, closed, r, t) by {
        if log.last.Admitted? { LogOKHigher(log.past, below, top); }
      }
      if log.last.Admitted? {
        ForeignId(log.past, below, closed, log.last.r.id, t);
      }
    }
  }

  lemma {:induction false} LogOKHigher(log: Log, top: nat, higher: nat)
    requires LogOK(log, top) && top <= higher
    ensures LogOK(log, higher)
  {
    if log.Then? && !log.last.Admitted? { LogOKHigher(log.past, top, higher); }
  }
}
