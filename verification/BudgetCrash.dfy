/** What the durable mirror guarantees of every reachable state, and of a restart from it. */
module BudgetCrash {
  import opened Common
  import opened BudgetModel
  import opened BudgetRuns
  import opened BudgetConservation
  import opened BudgetTheorems
  import opened BudgetDurability

  lemma DurableRun(limits: map<TenantID, Limits>, start: int, es: seq<Event>)
    requires Allowed(Fresh(limits, true, start), es)
    ensures DurInv(Run(Fresh(limits, true, start), es))
  {
    BootedIsDurable(limits, map[], start);
    RunDurable(Fresh(limits, true, start), es);
  }

  /** The stored row is always the snapshot numbered written[t], and every later snapshot is
      either still on its way or was reported as failed. */
  lemma StoredRowIsTheWrittenSnapshot(limits: map<TenantID, Limits>, start: int, es: seq<Event>, t: TenantID)
    requires Allowed(Fresh(limits, true, start), es)
    ensures var s := Run(Fresh(limits, true, start), es);
            && At(s.book.written, t) <= Count(s.log, t)
            && Lookup(s.book.store, t) == Numbered(s, t, At(s.book.written, t))
            && (forall k :: At(s.book.written, t) < k <= Count(s.log, t) ==> AwaitsWrite(s, t, k))
  {
    DurableRun(limits, start, es);
    assert StoreFollows(Run(Fresh(limits, true, start), es), t);
  }

  /** Within one process the number written never falls, whatever order the writes arrive in. */
  lemma {:induction false} WrittenNeverFalls(s: Sys, es: seq<Event>, t: TenantID)
    requires NoRestart(es)
    ensures At(s.book.written, t) <= At(Run(s, es).book.written, t)
    decreases es
  {
    if es != [] {
      WrittenNeverFalls(Step(s, es[0]), es[1..], t);
    }
  }

  function Restarted(s: Sys, limits: map<TenantID, Limits>, now: int): Sys {
    Step(s, Restarting(limits, now))
  }

  /** No daily window of t has turned over since snapshot k was cut. */
  ghost predicate SameDay(s: Sys, t: TenantID, k: nat, now: int) {
    forall j :: k <= j <= Count(s.log, t) && Numbered(s, t, j).Some? ==>
      Numbered(s, t, j).value.dailyStart == Shown(s, t, now).dailyStart
  }

  ghost predicate SameMonth(s: Sys, t: TenantID, k: nat, now: int) {
    forall j :: k <= j <= Count(s.log, t) && Numbered(s, t, j).Some? ==>
      Numbered(s, t, j).value.monthlyStart == Shown(s, t, now).monthlyStart
  }

  /** What the next process shows is the stored row, its windows brought up to date. */
  lemma RestartShowsTheRow(s: Sys, limits: map<TenantID, Limits>, t: TenantID, now: int, later: int)
    requires s.book.durable && t in limits
    ensures var c := Shown(Restarted(s, limits, now), t, later);
            match Lookup(s.book.store, t)
            case None => c.dailySpent == 0.0 == c.monthlySpent && c.committed == 0.0
            case Some(row) =>
              && c.dailySpent == (if later - row.dailyStart >= DAILY_WINDOW then 0.0 else row.dailyUSD)
              && c.monthlySpent == (if later - row.monthlyStart >= MONTHLY_WINDOW then 0.0 else row.monthlyUSD)
              && c.committed == 0.0
  {
  }

  /** A crash loses exactly the settlements numbered above what was written. */
  lemma CrashLosesTheUnwritten(limits: map<TenantID, Limits>, start: int, es: seq<Event>,
                               t: TenantID, limits': map<TenantID, Limits>, now: int)
    requires Allowed(Fresh(limits, true, start), es)
    requires var s := Run(Fresh(limits, true, start), es);
             s.clock <= now && t in s.book.limits && t in limits'
    ensures var s := Run(Fresh(limits, true, start), es);
            var k := At(s.book.written, t);
            var lost := CostAfter(s.log, t, k);
            && (SameDay(s, t, k, now) ==>
                  Shown(s, t, now).dailySpent == Shown(Restarted(s, limits', now), t, now).dailySpent + lost)
            && (SameMonth(s, t, k, now) ==>
                  Shown(s, t, now).monthlySpent == Shown(Restarted(s, limits', now), t, now).monthlySpent + lost)
            && Shown(Restarted(s, limits', now), t, now).committed == 0.0
  {
    var s := Run(Fresh(limits, true, start), es);
    DurableRun(limits, start, es);
    FreshRunIsGood(limits, true, start, es);
    assert StoreFollows(s, t) && LossOK(s, t);
    RestartShowsTheRow(s, limits', t, now, now);
    TouchAccounts(s, t, now);
    TouchIsCurrent(s, t, now);
    var k := At(s.book.written, t);
    var row := Numbered(s, t, k);
    var c := Shown(s, t, now);
    if row.Some? {
      assert Explains(row.value.dailyUSD, row.value.dailyStart, c.dailySpent, c.dailyStart, DAILY_WINDOW, CostAfter(s.log, t, k), k == Count(s.log, t));
    } else {
      if k > 0 { RowExists(s.log, Lookup(s.base, t), t, k); }
      NoBase(s.log, Lookup(s.base, t), t);
      NoCostAfterLast(s.log, t, Count(s.log, t));
      assert Count(s.log, t) > 0 ==> Numbered(s, t, 1).Some?;
    }
  }

  lemma {:induction false} NoBase(log: Log, base: Option<SpendRow>, t: TenantID)
    ensures RowAt(log, base, t, 0) == base
  {
    if log.Then? { NoBase(log.past, base, t); }
  }

  /** With the newest snapshot neither pending nor failed, a restart forgets no settled money:
      both spend figures are what they would have been without it, now and at any later time. */
  lemma CleanRestartLosesNothing(limits: map<TenantID, Limits>, start: int, es: seq<Event>,
                                 t: TenantID, limits': map<TenantID, Limits>, now: int, later: int)
    requires Allowed(Fresh(limits, true, start), es)
    requires var s := Run(Fresh(limits, true, start), es);
             s.clock <= now <= later && t in s.book.limits && t in limits' && !AwaitsWrite(s, t, Count(s.log, t))
    ensures var s := Run(Fresh(limits, true, start), es);
            && Shown(Restarted(s, limits', now), t, later).dailySpent == Shown(s, t, later).dailySpent
            && Shown(Restarted(s, limits', now), t, later).monthlySpent == Shown(s, t, later).monthlySpent
  {
    var s := Run(Fresh(limits, true, start), es);
    DurableRun(limits, start, es);
    FreshRunIsGood(limits, true, start, es);
    assert StoreFollows(s, t) && LossOK(s, t);
    RestartShowsTheRow(s, limits', t, now, later);
    TouchAccounts(s, t, later);
    TouchIsCurrent(s, t, later);
    var n := Count(s.log, t);
    var c := Shown(s, t, later);
    NoCostAfterLast(s.log, t, n);
    assert At(s.book.written, t) == n;
    var row := Numbered(s, t, n);
    if row.Some? {
      assert Explains(row.value.dailyUSD, row.value.dailyStart, c.dailySpent, c.dailyStart, DAILY_WINDOW, 0.0, true);
    } else {
      if n > 0 { RowExists(s.log, Lookup(s.base, t), t, n); }
      NoBase(s.log, Lookup(s.base, t), t);
    }
  }

  lemma {:induction false} UnconfiguredNeverSettles(log: Log, limits: map<TenantID, Limits>, t: TenantID)
    requires OnlyConfigured(log, limits) && t !in limits
    ensures Count(log, t) == 0
  {
    if log.Then? { UnconfiguredNeverSettles(log.past, limits, t); }
  }

  /** A tenant dropped from the configuration and put back meets the row it left behind, whatever
      ran in between. */
  lemma PutBackKeepsItsRow(limits: map<TenantID, Limits>, start: int, es: seq<Event>, t: TenantID,
                           without: map<TenantID, Limits>, out: int, between: seq<Event>,
                           again: map<TenantID, Limits>, back: int)
    requires Allowed(Fresh(limits, true, start), es) && t !in without && t in again
    requires var gone := Restarted(Run(Fresh(limits, true, start), es), without, out);
             Allowed(gone, between) && NoRestart(between)
    ensures var s := Run(Fresh(limits, true, start), es);
            var s2 := Run(Restarted(s, without, out), between);
            BaseOf(Restarted(s2, again, back), t) == Lookup(s.book.store, t)
  {
    var s := Run(Fresh(limits, true, start), es);
    DurableRun(limits, start, es);
    var gone := Restarted(s, without, out);
    BootedIsDurable(without, s.book.store, out);
    RunDurable(gone, between);
    OneProcess(gone, between);
    var s2 := Run(gone, between);
    UnconfiguredNeverSettles(s2.log, without, t);
    assert StoreFollows(s2, t);
    NoBase(s2.log, Lookup(s2.base, t), t);
  }
}
