/** The value-level reading of internal/budget/enforcer.go: what each call does to
    the accounting, as functions. Money is real, time is int nanoseconds. */
module BudgetModel {
  import opened Common

  type TenantID = string

  const SECOND: int := 1_000_000_000
  const RATE_WINDOW: int := 60 * SECOND
  const DAILY_WINDOW: int := 24 * 3600 * SECOND
  const MONTHLY_WINDOW: int := 30 * DAILY_WINDOW

  /** A zero (or negative) figure means the limit is off. */
  datatype Limits = Limits(requestsPerMinute: int, tokensPerMinute: int,
                           dailyUSD: real, monthlyUSD: real, failClosed: bool)

  datatype Estimate = Estimate(promptTokens: int, completionTokens: int, usd: real) {
    function Tokens(): int { promptTokens + completionTokens }
  }

  datatype Reservation = Reservation(tenant: TenantID, estimate: Estimate, issuedAt: int, id: nat)

  datatype DenyReason = RequestRate | TokenRate | DailyBudget | MonthlyBudget | StoreDegraded | UnknownTenant

  datatype Denial = Denial(reason: DenyReason, retryAfter: int)

  datatype Admission = Granted(r: Reservation) | Denied(d: Denial)

  /** One tenant's counters; each window carries its own start. */
  datatype Counters = Counters(
    dailySpent: real, dailyStart: int, monthlySpent: real, monthlyStart: int, committed: real,
    requests: int, requestsAt: int, tokens: int, tokensAt: int)

  /** The durable part of one tenant's counters. */
  datatype SpendRow = SpendRow(tenant: TenantID, dailyUSD: real, dailyStart: int,
                               monthlyUSD: real, monthlyStart: int)

  /** A row on its way to the store, with the number taken when it was cut. */
  datatype Snapshot = Snapshot(row: SpendRow, number: nat)

  /** Everything a MemEnforcer holds, and the rows in its store. */
  datatype Book = Book(
    limits: map<TenantID, Limits>, state: map<TenantID, Counters>, healthy: bool,
    nextID: nat, done: set<nat>, durable: bool,
    seqNo: map<TenantID, nat>, written: map<TenantID, nat>, store: map<TenantID, SpendRow>)

  /** Reading a Go map: an absent key is zero. */
  function At(m: map<TenantID, nat>, t: TenantID): nat { if t in m then m[t] else 0 }

  // ----- windows

  function Opened(now: int): Counters {
    Counters(0.0, now, 0.0, now, 0.0, 0, now, 0, now)
  }

  function RollDaily(c: Counters, now: int): Counters {
    if now - c.dailyStart >= DAILY_WINDOW then c.(dailySpent := 0.0, dailyStart := now) else c
  }

  function RollMonthly(c: Counters, now: int): Counters {
    if now - c.monthlyStart >= MONTHLY_WINDOW then c.(monthlySpent := 0.0, monthlyStart := now) else c
  }

  function RollRequests(c: Counters, now: int): Counters {
    if now - c.requestsAt >= RATE_WINDOW then c.(requests := 0, requestsAt := now) else c
  }

  function RollTokens(c: Counters, now: int): Counters {
    if now - c.tokensAt >= RATE_WINDOW then c.(tokens := 0, tokensAt := now) else c
  }

  function Roll(c: Counters, now: int): Counters {
    RollTokens(RollRequests(RollMonthly(RollDaily(c, now), now), now), now)
  }

  function CountersFor(b: Book, t: TenantID, now: int): Counters {
    if t in b.state then Roll(b.state[t], now) else Opened(now)
  }

  function Update(b: Book, t: TenantID, c: Counters): Book {
    b.(state := b.state[t := c])
  }

  lemma UpdateTwice(b: Book, t: TenantID, c: Counters, d: Counters)
    ensures Update(Update(b, t, c), t, d) == Update(b, t, d)
  {
    assert b.state[t := c][t := d] == b.state[t := d];
  }

  function StateFor(b: Book, t: TenantID, now: int): Book {
    Update(b, t, CountersFor(b, t, now))
  }

  // ----- admission

  /** How long the rate window has left; never zero or less. */
  function RemainingIn(start: int, now: int): (left: int)
    ensures left > 0
    ensures start <= now < start + RATE_WINDOW ==> now + left == start + RATE_WINDOW
  {
    var left := RATE_WINDOW - (now - start);
    if left <= 0 then SECOND else left
  }

  function CheckRates(c: Counters, l: Limits, est: Estimate, now: int): Option<Denial> {
    if l.requestsPerMinute > 0 && c.requests >= l.requestsPerMinute then
      Some(Denial(RequestRate, RemainingIn(c.requestsAt, now)))
    else if l.tokensPerMinute > 0 && c.tokens + est.Tokens() > l.tokensPerMinute then
      Some(Denial(TokenRate, RemainingIn(c.tokensAt, now)))
    else None
  }

  function CheckBudgets(c: Counters, l: Limits, est: Estimate): Option<Denial> {
    if l.dailyUSD > 0.0 && c.dailySpent + c.committed + est.usd > l.dailyUSD then
      Some(Denial(DailyBudget, 0))
    else if l.monthlyUSD > 0.0 && c.monthlySpent + c.committed + est.usd > l.monthlyUSD then
      Some(Denial(MonthlyBudget, 0))
    else None
  }

  /** The first limit that refuses, in the order the code asks them. */
  function Refusal(c: Counters, l: Limits, est: Estimate, now: int): Option<Denial> {
    var rate := CheckRates(c, l, est, now);
    if rate.Some? then rate else CheckBudgets(c, l, est)
  }

  function Claim(c: Counters, est: Estimate): Counters {
    c.(committed := c.committed + est.usd, requests := c.requests + 1, tokens := c.tokens + est.Tokens())
  }

  function Reserve(b: Book, t: TenantID, est: Estimate, now: int): (Book, Admission) {
    if t !in b.limits then (b, Denied(Denial(UnknownTenant, 0)))
    else if !b.healthy && b.limits[t].failClosed then (b, Denied(Denial(StoreDegraded, 0)))
    else
      var b1 := StateFor(b, t, now);
      var refusal := Refusal(b1.state[t], b.limits[t], est, now);
      if refusal.Some? then (b1, Denied(refusal.value))
      else
        (Update(b1, t, Claim(b1.state[t], est)).(nextID := b.nextID + 1),
         Granted(Reservation(t, est, now, b.nextID + 1)))
  }

  // ----- closing a reservation

  /** The claim goes back, floored at zero as the code floors it. */
  function GiveBack(c: Counters, est: Estimate): Counters {
    c.(committed := if c.committed - est.usd < 0.0 then 0.0 else c.committed - est.usd)
  }

  function Charge(c: Counters, usd: real): Counters {
    c.(dailySpent := c.dailySpent + usd, monthlySpent := c.monthlySpent + usd)
  }

  function Reconcile(c: Counters, delta: int): Counters {
    c.(tokens := if delta == 0 then c.tokens else MaxInt(0, c.tokens + delta))
  }

  function RowOf(t: TenantID, c: Counters): SpendRow {
    SpendRow(t, c.dailySpent, c.dailyStart, c.monthlySpent, c.monthlyStart)
  }

  function SettledCounters(c: Counters, r: Reservation, totalTokens: int, usd: real): Counters {
    Reconcile(Charge(GiveBack(c, r.estimate), usd), totalTokens - r.estimate.Tokens())
  }

  function Close(b: Book, id: nat): Book { b.(done := b.done + {id}) }

  /** The half of Settle that runs under the accounting lock. */
  function SettleMem(b: Book, r: Reservation, totalTokens: int, usd: real, now: int): (Book, Option<Snapshot>) {
    if r.id in b.done then (b, None)
    else Cut(Close(Update(b, r.tenant, SettledCounters(CountersFor(b, r.tenant, now), r, totalTokens, usd)), r.id), r.tenant)
  }

  /** With a store, t's figures leave as the next numbered snapshot. */
  function Cut(b: Book, t: TenantID): (Book, Option<Snapshot>)
    requires t in b.state
  {
    if !b.durable then (b, None)
    else
      var n := At(b.seqNo, t) + 1;
      (b.(seqNo := b.seqNo[t := n]), Some(Snapshot(RowOf(t, b.state[t]), n)))
  }

  lemma SettleMemIsCut(b: Book, r: Reservation, totalTokens: int, usd: real, now: int, closed: Book)
    requires r.id !in b.done
    requires closed == Close(Update(b, r.tenant, SettledCounters(CountersFor(b, r.tenant, now), r, totalTokens, usd)), r.id)
    ensures SettleMem(b, r, totalTokens, usd, now) == Cut(closed, r.tenant)
  {
  }

  /** The other half: one snapshot reaches the store, is dropped as stale, or fails. */
  function Persist(b: Book, snap: Snapshot, saves: bool): (Book, bool) {
    var t := snap.row.tenant;
    if snap.number <= At(b.written, t) then (b, true)
    else if !saves then (b.(healthy := false), false)
    else (b.(store := b.store[t := snap.row], written := b.written[t := snap.number], healthy := true), true)
  }

  function Release(b: Book, r: Reservation, now: int): Book {
    if r.id in b.done then b
    else Close(Update(b, r.tenant, GiveBack(CountersFor(b, r.tenant, now), r.estimate)), r.id)
  }

  // ----- starting a process

  function Restored(row: SpendRow, now: int): Counters {
    Counters(row.dailyUSD, row.dailyStart, row.monthlyUSD, row.monthlyStart, 0.0, 0, now, 0, now)
  }

  function Boot(limits: map<TenantID, Limits>, durable: bool, store: map<TenantID, SpendRow>, now: int): Book {
    Book(limits,
         if durable then map t | t in store && t in limits :: Restored(store[t], now) else map[],
         true, 0, {}, durable, map[], map[], store)
  }
}
