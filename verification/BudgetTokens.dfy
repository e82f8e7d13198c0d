/** The token window: what it holds after any run, told from the history, and what reconciling an
    estimate with what was really used does to it. */
module BudgetTokens {
  import opened Common
  import opened BudgetModel
  import opened BudgetRuns
  import opened BudgetConservation
  import opened BudgetTheorems

  // ----- reading the history

  /** Tokens t's settlements used, counting requests admitted at or after from. */
  function UsedTokens(log: Log, t: TenantID, from: int): int {
    match log
    case Start => 0
    case Then(past, e) =>
      UsedTokens(past, t, from) + if e.Settled? && e.r.tenant == t && from <= e.r.issuedAt then e.totalTokens else 0
  }

  function SettledIds(log: Log): set<nat> {
    match log
    case Start => {}
    case Then(past, e) => SettledIds(past) + if e.Settled? then {e.r.id} else {}
  }

  /** Estimated tokens of t's requests admitted at or after from and not among settled; a released
      one keeps its estimate. */
  function EstimatedTokens(log: Log, settled: set<nat>, t: TenantID, from: int): int {
    match log
    case Start => 0
    case Then(past, e) =>
      EstimatedTokens(past, settled, t, from)
      + if e.Admitted? && e.r.tenant == t && from <= e.r.issuedAt && e.r.id !in settled then e.r.estimate.Tokens() else 0
  }

  /** What the requests admitted at or after from come to: what they used if settled, else what they
      were estimated at. */
  function WindowTokens(log: Log, t: TenantID, from: int): int {
    UsedTokens(log, t, from) + EstimatedTokens(log, SettledIds(log), t, from)
  }

  /** No count is negative, and no settlement made at or after from is of a request admitted before. */
  predicate Prompt(log: Log, t: TenantID, from: int) {
    match log
    case Start => true
    case Then(past, e) =>
      && Prompt(past, t, from)
      && (e.r.tenant == t && e.Admitted? ==> e.r.estimate.Tokens() >= 0)
      && (e.r.tenant == t && e.Settled? ==> e.totalTokens >= 0 && (from <= e.at ==> from <= e.r.issuedAt))
  }

  /** The counter as a running figure: estimates as they are admitted, differences as they are
      settled, never below zero after one. */
  function Running(log: Log, t: TenantID, from: int): int {
    match log
    case Start => 0
    case Then(past, e) =>
      var sofar := Running(past, t, from);
      if e.r.tenant != t then sofar
      else match e
        case Admitted(r) => if from <= r.issuedAt then sofar + r.estimate.Tokens() else sofar
        case Settled(r, total, _, at, _) => if from <= at then Reconciled(sofar, r.estimate.Tokens(), total) else sofar
        case Released(_) => sofar
  }

  function Reconciled(sofar: int, estimated: int, total: int): int {
    if total == estimated || sofar + total >= estimated then sofar + total - estimated else 0
  }

  predicate Before(e: Entry, bound: int) {
    match e
    case Admitted(r) => r.issuedAt < bound
    case Settled(r, _, _, at, _) => at < bound
    case Released(_) => true
  }

  predicate AllBefore(log: Log, t: TenantID, bound: int) {
    log.Then? ==> AllBefore(log.past, t, bound) && (log.last.r.tenant == t ==> Before(log.last, bound))
  }

  /** Requests are admitted by clock, and settled after they were admitted. */
  predicate Ordered(log: Log, clock: int) {
    log.Then? ==>
      && Ordered(log.past, clock) && Before(log.last, clock + 1)
      && (log.last.Settled? ==> log.last.r.issuedAt <= log.last.at)
  }

  // ----- the counter is the running figure

  ghost predicate TokensOK(log: Log, c: Counters, t: TenantID) {
    c.tokens == Running(log, t, c.tokensAt) && AllBefore(log, t, c.tokensAt + RATE_WINDOW)
  }

  ghost predicate TokensInv(s: Sys) {
    Ordered(s.log, s.clock) && forall t :: t in s.book.state ==> TokensOK(s.log, s.book.state[t], t)
  }

  lemma {:induction false} NothingSince(log: Log, t: TenantID, from: int)
    requires AllBefore(log, t, from)
    ensures Running(log, t, from) == 0
  {
    if log.Then? { NothingSince(log.past, t, from); }
  }

  lemma {:induction false} AllBeforeLater(log: Log, t: TenantID, bound: int, later: int)
    requires AllBefore(log, t, bound) && bound <= later
    ensures AllBefore(log, t, later)
  {
    if log.Then? { AllBeforeLater(log.past, t, bound, later); }
  }

  lemma {:induction false} SilentBefore(log: Log, t: TenantID, bound: int)
    requires Silent(log, t)
    ensures AllBefore(log, t, bound)
  {
    if log.Then? { SilentBefore(log.past, t, bound); }
  }

  lemma {:induction false} OrderedLater(log: Log, clock: int, later: int)
    requires Ordered(log, clock) && clock <= later
    ensures Ordered(log, later)
  {
    if log.Then? { OrderedLater(log.past, clock, later); }
  }

  lemma {:induction false} IssuedInOrder(log: Log, clock: int, r: Reservation)
    requires Ordered(log, clock) && Issued(log, r)
    ensures r.issuedAt <= clock
  {
    if log.last != Admitted(r) { IssuedInOrder(log.past, clock, r); }
  }

  lemma RollKeepsTokens(log: Log, c: Counters, t: TenantID, now: int)
    requires TokensOK(log, c, t)
    ensures TokensOK(log, Roll(c, now), t)
  {
    if now - c.tokensAt >= RATE_WINDOW {
      AllBeforeLater(log, t, c.tokensAt + RATE_WINDOW, now);
      NothingSince(log, t, now);
      AllBeforeLater(log, t, now, now + RATE_WINDOW);
    }
  }

  lemma TouchKeepsTokens(s: Sys, t: TenantID, now: int)
    requires Inv(s) && TokensInv(s)
    ensures TokensOK(s.log, CountersFor(s.book, t, now), t)
  {
    assert TenantOK(s, t);
    if t in s.book.state {
      RollKeepsTokens(s.log, s.book.state[t], t, now);
    } else {
      SilentBefore(s.log, t, now);
      NothingSince(s.log, t, now);
      SilentBefore(s.log, t, now + RATE_WINDOW);
    }
  }

  /** What one entry of its own tenant does to the counter. */
  predicate Moves(e: Entry, c: Counters, c': Counters, now: int) {
    && c'.tokensAt == c.tokensAt
    && match e
       case Admitted(r) => r.issuedAt == now && c'.tokens == c.tokens + r.estimate.Tokens()
       case Settled(r, total, _, at, _) => at == now && c'.tokens == Reconciled(c.tokens, r.estimate.Tokens(), total)
       case Released(_) => c'.tokens == c.tokens
  }

  lemma {:induction false} Grows(log: Log, e: Entry)
    ensures Then(log, e) != log
  {
    if log.Then? { Grows(log.past, log.last); }
  }

  lemma SettledState(b: Book, r: Reservation, total: int, usd: real, now: int)
    requires r.id !in b.done
    ensures var c, b' := CountersFor(b, r.tenant, now), SettleMem(b, r, total, usd, now).0;
            && b'.state.Keys == b.state.Keys + {r.tenant} && (forall u :: u in b.state && u != r.tenant ==> b'.state[u] == b.state[u])
            && b'.state[r.tenant].tokensAt == c.tokensAt
            && b'.state[r.tenant].tokens == Reconciled(c.tokens, r.estimate.Tokens(), total)
  {
  }

  /** A step leaves t's token window as it was or up to date, unless it is an entry about t. */
  lemma StepOnTokens(s: Sys, e: Event, t: TenantID, c: Counters)
    requires !e.Restarting? && c == CountersFor(s.book, t, Step(s, e).clock)
    ensures var s' := Step(s, e);
            && (s'.log == s.log || (s'.log.Then? && s'.log.past == s.log))
            && (t in s'.book.state ==>
                  var c' := s'.book.state[t];
                  if s'.log != s.log && s'.log.last.r.tenant == t then Moves(s'.log.last, c, c', s'.clock)
                  else
                    || (t in s.book.state && c' == s.book.state[t])
                    || (c'.tokens == c.tokens && c'.tokensAt == c.tokensAt))
  {
    if Step(s, e).log.Then? { Grows(Step(s, e).log.past, Step(s, e).log.last); }
    match e
    case Reserving(u, est, now) =>
    case Settling(r, total, usd, now) =>
      if r.id !in s.book.done { SettledState(s.book, r, total, usd, now); }
    case Releasing(r, now) =>
    case Reading(u, now) =>
    case _ =>
  }

  lemma OthersKeepTokens(log: Log, log': Log, c: Counters, c': Counters, t: TenantID)
    requires TokensOK(log, c, t) && c'.tokens == c.tokens && c'.tokensAt == c.tokensAt
    requires log' == log || (log'.Then? && log'.past == log && log'.last.r.tenant != t)
    ensures TokensOK(log', c', t)
  {
  }

  lemma EntryKeepsTokens(log: Log, e: Entry, c: Counters, c': Counters, t: TenantID, now: int)
    requires TokensOK(log, c, t) && e.r.tenant == t && Moves(e, c, c', now) && c.tokensAt <= now < c.tokensAt + RATE_WINDOW
    ensures TokensOK(Then(log, e), c', t)
  {
  }

  lemma StepKeepsTokens(s: Sys, e: Event, s': Sys, t: TenantID)
    requires Inv(s) && TokensInv(s) && Enabled(s, e) && !e.Restarting? && s' == Step(s, e) && t in s'.book.state
    ensures TokensOK(s'.log, s'.book.state[t], t)
  {
    var c := CountersFor(s.book, t, s'.clock);
    StepOnTokens(s, e, t, c);
    TouchKeepsTokens(s, t, s'.clock);
    TouchIsCurrent(s, t, s'.clock);
    if s'.log != s.log && s'.log.last.r.tenant == t {
      EntryKeepsTokens(s.log, s'.log.last, c, s'.book.state[t], t, s'.clock);
    } else if t in s.book.state && s'.book.state[t] == s.book.state[t] {
      OthersKeepTokens(s.log, s'.log, s.book.state[t], s.book.state[t], t);
    } else {
      OthersKeepTokens(s.log, s'.log, c, s'.book.state[t], t);
    }
  }

  lemma StepKeepsOrder(s: Sys, e: Event)
    requires Enabled(s, e) && Ordered(s.log, s.clock) && !e.Restarting?
    ensures Ordered(Step(s, e).log, Step(s, e).clock)
  {
    OrderedLater(s.log, s.clock, Step(s, e).clock);
    if e.Settling? { IssuedInOrder(s.log, s.clock, e.r); }
  }

  lemma {:induction false} RunKeepsTokens(s: Sys, es: seq<Event>)
    requires Inv(s) && TokensInv(s) && Allowed(s, es)
    ensures Inv(Run(s, es)) && TokensInv(Run(s, es))
    decreases es
  {
    if es != [] {
      var s' := Step(s, es[0]);
      StepKeeps(s, es[0]);
      if !es[0].Restarting? {
        StepKeepsOrder(s, es[0]);
        forall t | t in s'.book.state ensures TokensOK(s'.log, s'.book.state[t], t) { StepKeepsTokens(s, es[0], s', t); }
      } else {
        NewBooks(s, es[0].limits, es[0].now);
      }
      RunKeepsTokens(s', es[1..]);
    }
  }

  lemma NewBooks(s: Sys, limits: map<TenantID, Limits>, now: int)
    ensures TokensInv(Booted(limits, s.book.durable, s.book.store, now))
  {
  }

  // ----- the running figure is the window's total

  lemma {:induction false} EstimatesNotNegative(log: Log, settled: set<nat>, t: TenantID, from: int)
    requires Prompt(log, t, from)
    ensures EstimatedTokens(log, settled, t, from) >= 0 && UsedTokens(log, t, from) >= 0
  {
    if log.Then? { EstimatesNotNegative(log.past, settled, t, from); }
  }

  lemma {:induction false} ForeignEstimate(log: Log, top: nat, settled: set<nat>, id: nat, t: TenantID, from: int)
    requires LogOK(log, top) && top < id
    ensures EstimatedTokens(log, settled + {id}, t, from) == EstimatedTokens(log, settled, t, from)
    ensures id !in SettledIds(log)
  {
    if log.Then? {
      ForeignId(log, top, {}, id, t);
      ForeignEstimate(log.past, if log.last.Admitted? then log.last.r.id - 1 else top, settled, id, t, from);
    }
  }

  /** Settling a request takes exactly its estimate off the estimates of its window. */
  lemma {:induction false} SettlingOne(log: Log, top: nat, settled: set<nat>, r: Reservation, t: TenantID, from: int)
    requires LogOK(log, top) && Issued(log, r) && r.id !in settled
    ensures EstimatedTokens(log, settled + {r.id}, t, from)
         == EstimatedTokens(log, settled, t, from) - if r.tenant == t && from <= r.issuedAt then r.estimate.Tokens() else 0
  {
    var below := if log.last.Admitted? then log.last.r.id - 1 else top;
    if log.last == Admitted(r) {
      ForeignEstimate(log.past, below, settled, r.id, t, from);
    } else {
      SettlingOne(log.past, top, settled, r, t, from) by {
        if log.last.Admitted? { LogOKHigher(log.past, below, top); }
      }
      if log.last.Admitted? { ForeignId(log.past, below, {}, log.last.r.id, t); }
    }
  }

  lemma {:induction false} SettledAreClosed(log: Log)
    ensures SettledIds(log) <= ClosedIds(log)
  {
    if log.Then? { SettledAreClosed(log.past); }
  }

  lemma {:induction false} RunningIsTotal(log: Log, top: nat, t: TenantID, from: int, clock: int)
    requires LogOK(log, top) && Ordered(log, clock) && Prompt(log, t, from)
    ensures Running(log, t, from) == WindowTokens(log, t, from)
  {
    if log.Then? {
      var e, past := log.last, log.past;
      var below := if e.Admitted? then e.r.id - 1 else top;
      assert !e.Settled? ==> SettledIds(log) == SettledIds(past);
      RunningIsTotal(past, below, t, from, clock);
      if e.Settled? {
        SettledAreClosed(past);
        SettlingOne(past, top, SettledIds(past), e.r, t, from);
        EstimatesNotNegative(past, SettledIds(log), t, from);
      } else if e.Admitted? {
        ForeignEstimate(past, below, {}, e.r.id, t, from);
      }
    }
  }

  // ----- main results

  /** At any moment of any run, the token window holds what its requests used, or were estimated at
      if not settled, as long as no settlement in it is of an earlier window's request. */
  lemma WindowHolds(limits: map<TenantID, Limits>, durable: bool, start: int, es: seq<Event>, t: TenantID, now: int)
    requires Allowed(Fresh(limits, durable, start), es)
    ensures var s := Run(Fresh(limits, durable, start), es);
            var c := Shown(s, t, now);
            Prompt(s.log, t, c.tokensAt) ==> c.tokens == WindowTokens(s.log, t, c.tokensAt)
  {
    BootedIsGood(limits, durable, map[], start);
    RunKeepsTokens(Fresh(limits, durable, start), es);
    var s := Run(Fresh(limits, durable, start), es);
    var c := Shown(s, t, now);
    TouchKeepsTokens(s, t, now);
    if Prompt(s.log, t, c.tokensAt) { RunningIsTotal(s.log, s.book.nextID, t, c.tokensAt, s.clock); }
  }

  /** A request is refused for tokens exactly when the request rate lets it through and its estimate
      does not fit beside what the window holds. */
  lemma RefusedForTokens(limits: map<TenantID, Limits>, durable: bool, start: int, es: seq<Event>, t: TenantID, est: Estimate, now: int)
    requires Allowed(Fresh(limits, durable, start), es)
    requires var s := Run(Fresh(limits, durable, start), es);
             && t in s.book.limits && (s.book.healthy || !s.book.limits[t].failClosed)
             && Prompt(s.log, t, Shown(s, t, now).tokensAt)
    ensures var s := Run(Fresh(limits, durable, start), es);
            var l, c, a := s.book.limits[t], Shown(s, t, now), Reserve(s.book, t, est, now).1;
            (a.Denied? && a.d.reason == TokenRate)
            <==> && l.tokensPerMinute > 0 && WindowTokens(s.log, t, c.tokensAt) + est.Tokens() > l.tokensPerMinute
                 && (l.requestsPerMinute > 0 ==> c.requests < l.requestsPerMinute)
  {
    WindowHolds(limits, durable, start, es, t, now);
  }

  /** Admitted and settled inside one window with nothing between, a request leaves the window at
      what it held before and what was really used. */
  lemma OneWindow(b: Book, t: TenantID, est: Estimate, now: int, total: int, usd: real, later: int)
    requires Reserve(b, t, est, now).1.Granted? && b.nextID + 1 !in b.done
    requires now <= later < CountersFor(b, t, now).tokensAt + RATE_WINDOW
    requires CountersFor(b, t, now).tokens >= 0 && total >= 0
    ensures var (b1, a) := Reserve(b, t, est, now);
            var b2 := SettleMem(b1, a.r, total, usd, later).0;
            b2.state[t].tokens == CountersFor(b, t, now).tokens + total
  {
  }

  /** Whichever window a settlement falls in: an overrun is charged to that window in full, and a
      saving is taken off what it holds, as far as that goes. */
  lemma LaterWindow(b: Book, r: Reservation, total: int, usd: real, now: int)
    requires r.id !in b.done && CountersFor(b, r.tenant, now).tokens >= 0
    ensures var held := CountersFor(b, r.tenant, now).tokens;
            var left := SettleMem(b, r, total, usd, now).0.state[r.tenant].tokens;
            if total >= r.estimate.Tokens() then left - held == total - r.estimate.Tokens()
            else held - left == MinInt(held, r.estimate.Tokens() - total)
  {
  }
}
