/** Money over whole runs: committed and spent are exactly what the history says, repeats
    do nothing, and a cap is exceeded only by how far estimates undershot. */
module BudgetConservation {
  import opened Common
  import opened BudgetModel
  import opened BudgetRuns

  // ----- one tenant's counters, one update at a time

  /** What every update preserves; closed is the set of ids no longer open. */
  ghost predicate Good(log: Log, closed: set<nat>, base: Option<SpendRow>, c: Counters, t: TenantID) {
    && c.committed == Outstanding(log, closed, t)
    && DailyOK(log, base, c, t)
    && MonthlyOK(log, base, c, t)
  }

  lemma RollKeeps(log: Log, closed: set<nat>, base: Option<SpendRow>, c: Counters, t: TenantID, now: int)
    requires Good(log, closed, base, c, t)
    ensures Good(log, closed, base, Roll(c, now), t)
    ensures forall l :: CapsOK(log, base, c, t, l) ==> CapsOK(log, base, Roll(c, now), t, l)
  {
    UndershotNotNegative(log, t);
    if now - c.dailyStart >= DAILY_WINDOW {
      BeforeLater(log, t, c.dailyStart + DAILY_WINDOW, now);
      NoneSince(log, t, now);
      BeforeLater(log, t, now, now + DAILY_WINDOW);
    }
    if now - c.monthlyStart >= MONTHLY_WINDOW {
      BeforeLater(log, t, c.monthlyStart + MONTHLY_WINDOW, now);
      NoneSince(log, t, now);
      BeforeLater(log, t, now, now + MONTHLY_WINDOW);
    }
  }

  lemma OpenKeeps(log: Log, closed: set<nat>, t: TenantID, now: int)
    requires Silent(log, t)
    ensures Good(log, closed, None, Opened(now), t)
    ensures forall l :: CapsOK(log, None, Opened(now), t, l)
  {
    SilentMeansZero(log, t, closed, now);
    SilentMeansZero(log, t, closed, now + DAILY_WINDOW);
    SilentMeansZero(log, t, closed, now + MONTHLY_WINDOW);
  }

  /** Bringing t's counters up to date, whether or not t has been seen. */
  lemma TouchKeeps(s: Sys, t: TenantID, now: int)
    requires Inv(s)
    ensures Good(s.log, s.book.done, BaseOf(s, t), CountersFor(s.book, t, now), t)
    ensures t in s.book.limits ==>
              CapsOK(s.log, BaseOf(s, t), CountersFor(s.book, t, now), t, s.book.limits[t])
  {
    assert TenantOK(s, t);
    if t in s.book.state {
      RollKeeps(s.log, s.book.done, BaseOf(s, t), s.book.state[t], t, now);
    } else {
      OpenKeeps(s.log, s.book.done, t, now);
    }
  }

  lemma OthersKeep(s: Sys, s': Sys, u: TenantID)
    requires TenantOK(s, u) && (u in s.book.state <==> u in s'.book.state)
    requires u in s.book.state ==> s.book.state[u] == s'.book.state[u]
    requires s'.base == s.base && s'.book.limits == s.book.limits
    requires s'.log == s.log || (s'.log.Then? && s'.log.past == s.log && s'.log.last.r.tenant != u)
    requires Outstanding(s'.log, s'.book.done, u) == Outstanding(s.log, s.book.done, u)
    ensures TenantOK(s', u)
  {
  }

  // ----- one step

  lemma ReadingKeeps(s: Sys, t: TenantID, now: int)
    requires Inv(s) && s.clock <= now
    ensures Inv(Step(s, Reading(t, now)))
  {
    var s' := Step(s, Reading(t, now));
    TouchKeeps(s, t, now);
    forall u ensures TenantOK(s', u) {
      assert TenantOK(s, u);
      if u != t { OthersKeep(s, s', u); }
    }
  }

  lemma ClaimKeeps(log: Log, base: Option<SpendRow>, c: Counters, r: Reservation, closed: set<nat>, l: Limits)
    requires Good(log, closed, base, c, r.tenant) && r.id !in closed && CheckBudgets(c, l, r.estimate).None?
    requires c.committed >= 0.0 && r.estimate.usd >= 0.0
    ensures Good(Then(log, Admitted(r)), closed, base, Claim(c, r.estimate), r.tenant)
    ensures CapsOK(Then(log, Admitted(r)), base, Claim(c, r.estimate), r.tenant, l)
  {
  }

  lemma GrantKeeps(s: Sys, s': Sys, t: TenantID, est: Estimate, r: Reservation, c: Counters)
    requires Inv(s) && est.usd >= 0.0 && t in s.book.limits && r.tenant == t && r.estimate == est
    requires r.id == s.book.nextID + 1 && StartedBy(c, s'.clock) && s.clock <= s'.clock
    requires Good(s.log, s.book.done, BaseOf(s, t), c, t) && CheckBudgets(c, s.book.limits[t], est).None?
    requires s'.book == Update(s.book, t, Claim(c, est)).(nextID := r.id)
    requires s'.log == Then(s.log, Admitted(r)) && s'.base == s.base && s'.pending == s.pending
    ensures Inv(s')
  {
    ForeignId(s.log, s.book.nextID, {}, r.id, t);
    OutstandingNotNegative(s.log, s.book.nextID, s.book.done, t);
    ClaimKeeps(s.log, BaseOf(s, t), c, r, s.book.done, s.book.limits[t]);
    forall u ensures TenantOK(s', u) {
      assert TenantOK(s, u);
      if u != t { OthersKeep(s, s', u); }
    }
  }

  lemma ReservingKeeps(s: Sys, t: TenantID, est: Estimate, now: int)
    requires Inv(s) && est.usd >= 0.0 && s.clock <= now
    ensures Inv(Step(s, Reserving(t, est, now)))
  {
    var s' := Step(s, Reserving(t, est, now));
    var a := Reserve(s.book, t, est, now).1;
    if a.Granted? {
      var c := CountersFor(s.book, t, now);
      TouchKeeps(s, t, now);
      TouchIsCurrent(s, t, now);
      UpdateTwice(s.book, t, c, Claim(c, est));
      GrantKeeps(s, s', t, est, a.r, c);
    } else if t in s.book.limits && (s.book.healthy || !s.book.limits[t].failClosed) {
      ReadingKeeps(s, t, now);
    } else {
      forall u ensures TenantOK(s', u) { assert TenantOK(s, u); }
    }
  }

  /** The claim given back is never more than what is committed: the floor never acts. */
  lemma FloorIsDead(s: Sys, r: Reservation, now: int)
    requires Inv(s) && Issued(s.log, r) && r.id !in s.book.done
    ensures CountersFor(s.book, r.tenant, now).committed - r.estimate.usd
         == Outstanding(s.log, s.book.done + {r.id}, r.tenant) >= 0.0
  {
    TouchKeeps(s, r.tenant, now);
    ClosingOne(s.log, s.book.nextID, s.book.done, r, r.tenant);
    OutstandingNotNegative(s.log, s.book.nextID, s.book.done + {r.id}, r.tenant);
  }

  /** Counters brought up to now hold windows that now lies in. */
  predicate Current(c: Counters, now: int) {
    && c.dailyStart <= now < c.dailyStart + DAILY_WINDOW
    && c.monthlyStart <= now < c.monthlyStart + MONTHLY_WINDOW
    && c.requestsAt <= now < c.requestsAt + RATE_WINDOW
    && c.tokensAt <= now < c.tokensAt + RATE_WINDOW
  }

  lemma TouchIsCurrent(s: Sys, t: TenantID, now: int)
    requires s.clock <= now && (t in s.book.state ==> StartedBy(s.book.state[t], s.clock))
    ensures Current(CountersFor(s.book, t, now), now)
  {
  }

  lemma ChargeKeeps(log: Log, base: Option<SpendRow>, c: Counters, r: Reservation, total: int, usd: real, now: int,
                    closed: set<nat>, closed': set<nat>)
    requires Good(log, closed, base, c, r.tenant) && Current(c, now) && usd >= 0.0 && r.estimate.usd >= 0.0
    requires c.committed - r.estimate.usd == Outstanding(log, closed', r.tenant) >= 0.0
    ensures var c' := SettledCounters(c, r, total, usd);
            forall row :: Good(Then(log, Settled(r, total, usd, now, row)), closed', base, c', r.tenant)
    ensures var c' := SettledCounters(c, r, total, usd);
            forall row, l :: CapsOK(log, base, c, r.tenant, l) ==>
                             CapsOK(Then(log, Settled(r, total, usd, now, row)), base, c', r.tenant, l)
  {
  }

  lemma SettlingKeeps(s: Sys, r: Reservation, tokens: int, usd: real, now: int)
    requires Inv(s) && usd >= 0.0 && Issued(s.log, r) && s.clock <= now
    ensures Inv(Step(s, Settling(r, tokens, usd, now)))
  {
    if r.id !in s.book.done {
      var s' := Step(s, Settling(r, tokens, usd, now));
      var t := r.tenant;
      var c := CountersFor(s.book, t, now);
      TouchKeeps(s, t, now);
      FloorIsDead(s, r, now);
      TouchIsCurrent(s, t, now);
      ClosingOne(s.log, s.book.nextID, s.book.done, r, t);
      ChargeKeeps(s.log, BaseOf(s, t), c, r, tokens, usd, now, s.book.done, s'.book.done);
      forall u ensures TenantOK(s', u) {
        assert TenantOK(s, u);
        ClosingOne(s.log, s.book.nextID, s.book.done, r, u);
        if u != t { OthersKeep(s, s', u); }
      }
    }
  }

  lemma GiveBackKeeps(log: Log, base: Option<SpendRow>, c: Counters, r: Reservation, closed: set<nat>, closed': set<nat>)
    requires Good(log, closed, base, c, r.tenant) && r.estimate.usd >= 0.0
    requires c.committed - r.estimate.usd == Outstanding(log, closed', r.tenant) >= 0.0
    ensures Good(Then(log, Released(r)), closed', base, GiveBack(c, r.estimate), r.tenant)
    ensures forall l :: CapsOK(log, base, c, r.tenant, l) ==>
                        CapsOK(Then(log, Released(r)), base, GiveBack(c, r.estimate), r.tenant, l)
  {
  }

  lemma ReleasingKeeps(s: Sys, r: Reservation, now: int)
    requires Inv(s) && Issued(s.log, r) && s.clock <= now
    ensures Inv(Step(s, Releasing(r, now)))
  {
    if r.id !in s.book.done {
      var s' := Step(s, Releasing(r, now));
      var t := r.tenant;
      TouchKeeps(s, t, now);
      FloorIsDead(s, r, now);
      TouchIsCurrent(s, t, now);
      ClosingOne(s.log, s.book.nextID, s.book.done, r, t);
      GiveBackKeeps(s.log, BaseOf(s, t), CountersFor(s.book, t, now), r, s.book.done, s'.book.done);
      forall u ensures TenantOK(s', u) {
        assert TenantOK(s, u);
        ClosingOne(s.log, s.book.nextID, s.book.done, r, u);
        if u != t { OthersKeep(s, s', u); }
      }
    }
  }

  lemma BootedIsGood(limits: map<TenantID, Limits>, durable: bool, store: map<TenantID, SpendRow>, now: int)
    requires forall t :: t in store ==> RowOK(store[t], now)
    ensures Inv(Booted(limits, durable, store, now))
  {
    var s := Booted(limits, durable, store, now);
    forall t ensures TenantOK(s, t) { }
  }

  lemma StepKeeps(s: Sys, e: Event)
    requires Inv(s) && Enabled(s, e)
    ensures Inv(Step(s, e))
  {
    match e
    case Reserving(t, est, now) => ReservingKeeps(s, t, est, now);
    case Settling(r, tokens, usd, now) => SettlingKeeps(s, r, tokens, usd, now);
    case Releasing(r, now) => ReleasingKeeps(s, r, now);
    case Reading(t, now) => ReadingKeeps(s, t, now);
    case Restarting(limits, now) => BootedIsGood(limits, s.book.durable, s.book.store, now);
    case _ => SavingOrMarkingKeeps(s, e);
  }

  lemma SavingOrMarkingKeeps(s: Sys, e: Event)
    requires Inv(s) && Enabled(s, e) && (e.Saving? || e.Marking?)
    ensures Inv(Step(s, e))
  {
    var s' := Step(s, e);
    StoreOnly(s, e);
    forall u ensures TenantOK(s', u) { SameBooks(s, s', u); }
  }

  lemma StoreOnly(s: Sys, e: Event)
    requires e.Saving? || e.Marking?
    ensures var s' := Step(s, e);
            && s'.book.state == s.book.state && s'.book.done == s.book.done && s'.book.limits == s.book.limits
            && s'.book.nextID == s.book.nextID && s'.log == s.log && s'.base == s.base && s'.clock == s.clock
  {
  }

  lemma SameBooks(s: Sys, s': Sys, u: TenantID)
    requires Inv(s) && s'.book.state == s.book.state && s'.book.done == s.book.done && s'.book.limits == s.book.limits
    requires s'.log == s.log && s'.base == s.base
    ensures TenantOK(s', u)
  {
    assert TenantOK(s, u);
  }

  /** Everything in Inv holds in every reachable state, across restarts. */
  lemma {:induction false} RunKeeps(s: Sys, es: seq<Event>)
    requires Inv(s) && Allowed(s, es)
    ensures Inv(Run(s, es))
    decreases es
  {
    if es != [] {
      StepKeeps(s, es[0]);
      RunKeeps(Step(s, es[0]), es[1..]);
    }
  }
}
