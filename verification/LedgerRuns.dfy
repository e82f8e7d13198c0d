/** The request path over whole runs: any number of requests between their reservation, their
    settlement and their ledger row, interleaved in any order, with failing writes. The figures
    Spent shows and the rows of the ledger are proved to tell the same story. */
module LedgerRuns {
  import opened Common
  import M = BudgetModel
  import R = BudgetRuns
  import K = BudgetConservation
  import T = BudgetTheorems

  /** A settlement whose row has not been written yet. */
  datatype Debt = Debt(r: M.Reservation, usd: real, at: int)

  /** A written row; stamp is the time on it. */
  datatype Row = Row(debt: Debt, stamp: int)

  /** open: requests let through and not closed. lost: rows whose write failed. */
  datatype Gateway = Gateway(sys: R.Sys, open: set<M.Reservation>, debts: seq<Debt>, rows: seq<Row>, lost: seq<Debt>)

  datatype Moment =
    | Hit
    | Begins(t: M.TenantID, est: M.Estimate, now: int)
    | Settles(r: M.Reservation, totalTokens: int, usd: real, now: int)
    | Saves(snap: M.Snapshot, saves: bool)
    | Records(i: nat, stamp: int, writes: bool)
    | Aborts(r: M.Reservation, now: int)
    | Reads(t: M.TenantID, now: int)
    | Marks(healthy: bool)

  /** What a moment is to the enforcer; a hit and a ledger write are nothing to it. */
  function Enforcing(m: Moment): Option<R.Event> {
    match m
    case Hit => None
    case Begins(t, est, now) => Some(R.Reserving(t, est, now))
    case Settles(r, tokens, usd, now) => Some(R.Settling(r, tokens, usd, now))
    case Saves(snap, saves) => Some(R.Saving(snap, saves))
    case Records(_, _, _) => None
    case Aborts(r, now) => Some(R.Releasing(r, now))
    case Reads(t, now) => Some(R.Reading(t, now))
    case Marks(healthy) => Some(R.Marking(healthy))
  }

  function Without(debts: seq<Debt>, i: nat): seq<Debt>
    requires i < |debts|
  {
    debts[..i] + debts[i + 1..]
  }

  /** A request is open from its admission to its one settlement or abort. */
  predicate Enabled(g: Gateway, m: Moment) {
    match m
    case Hit => true
    case Begins(t, est, now) => g.sys.clock <= now && est.usd >= 0.0
    case Settles(r, tokens, usd, now) => g.sys.clock <= now && usd >= 0.0 && r in g.open
    case Saves(snap, saves) => snap in g.sys.pending
    case Records(i, stamp, writes) => i < |g.debts| && g.sys.clock <= stamp
    case Aborts(r, now) => g.sys.clock <= now && r in g.open
    case Reads(t, now) => g.sys.clock <= now
    case Marks(healthy) => true
  }

  function Step(g: Gateway, m: Moment): Gateway {
    var sys := if Enforcing(m).Some? then R.Step(g.sys, Enforcing(m).value) else g.sys;
    match m
    case Begins(t, est, now) =>
      var a := M.Reserve(g.sys.book, t, est, now).1;
      g.(sys := sys, open := if a.Granted? then g.open + {a.r} else g.open)
    case Settles(r, tokens, usd, now) => g.(sys := sys, open := g.open - {r}, debts := g.debts + [Debt(r, usd, now)])
    case Aborts(r, now) => g.(sys := sys, open := g.open - {r})
    case Records(i, stamp, writes) =>
      if i >= |g.debts| then g
      else
        var d := g.debts[i];
        g.(sys := sys.(clock := stamp), debts := Without(g.debts, i),
           rows := if writes then g.rows + [Row(d, stamp)] else g.rows, lost := if writes then g.lost else g.lost + [d])
    case _ => g.(sys := sys)
  }

  function Run(g: Gateway, ms: seq<Moment>): Gateway
    decreases ms
  {
    if ms == [] then g else Run(Step(g, ms[0]), ms[1..])
  }

  predicate Allowed(g: Gateway, ms: seq<Moment>)
    decreases ms
  {
    ms == [] || (Enabled(g, ms[0]) && Allowed(Step(g, ms[0]), ms[1..]))
  }

  function Opened(limits: map<M.TenantID, M.Limits>, durable: bool, start: int): Gateway {
    Gateway(T.Fresh(limits, durable, start), {}, [], [], [])
  }

  // ----- reading the books

  /** What t's settlements made at or after from come to, among debts. */
  function Owed(debts: seq<Debt>, t: M.TenantID, from: int): real {
    if debts == [] then 0.0
    else (if debts[0].r.tenant == t && from <= debts[0].at then debts[0].usd else 0.0) + Owed(debts[1..], t, from)
  }

  function Debts(rows: seq<Row>): seq<Debt> {
    if rows == [] then [] else [rows[0].debt] + Debts(rows[1..])
  }

  /** What t's rows come to, all of them. */
  function Billed(rows: seq<Row>, t: M.TenantID): real {
    if rows == [] then 0.0
    else (if rows[0].debt.r.tenant == t then rows[0].debt.usd else 0.0) + Billed(rows[1..], t)
  }

  /** What an operator adds up: t's rows stamped at or after from. */
  function Stamped(rows: seq<Row>, t: M.TenantID, from: int): real {
    if rows == [] then 0.0
    else (if rows[0].debt.r.tenant == t && from <= rows[0].stamp then rows[0].debt.usd else 0.0) + Stamped(rows[1..], t, from)
  }

  /** t's rows settled before from and stamped after it. */
  function Straddling(rows: seq<Row>, t: M.TenantID, from: int): real {
    if rows == [] then 0.0
    else (if rows[0].debt.r.tenant == t && rows[0].debt.at < from <= rows[0].stamp then rows[0].debt.usd else 0.0)
         + Straddling(rows[1..], t, from)
  }

  /** How many of debts are for the reservation with this id. */
  function Times(debts: seq<Debt>, id: nat): nat {
    if debts == [] then 0 else (if debts[0].r.id == id then 1 else 0) + Times(debts[1..], id)
  }

  function SettledTimes(log: R.Log, id: nat): nat {
    match log
    case Start => 0
    case Then(past, e) => SettledTimes(past, id) + if e.Settled? && e.r.id == id then 1 else 0
  }

  // ----- the invariant

  /** What t was billed at or after from, wherever the record of it has got to. */
  function Accounted(g: Gateway, t: M.TenantID, from: int): real {
    Owed(Debts(g.rows), t, from) + Owed(g.debts, t, from) + Owed(g.lost, t, from)
  }

  function AccountedTimes(g: Gateway, id: nat): nat { Times(Debts(g.rows), id) + Times(g.debts, id) + Times(g.lost, id) }

  predicate Recent(debts: seq<Debt>, start: int, clock: int) {
    forall i :: 0 <= i < |debts| ==> start <= debts[i].at <= clock && debts[i].usd >= 0.0
  }

  predicate RowsRecent(rows: seq<Row>, start: int, clock: int) {
    forall i :: 0 <= i < |rows| ==> start <= rows[i].debt.at <= rows[i].stamp <= clock && rows[i].debt.usd >= 0.0
  }

  ghost predicate OpenOK(s: R.Sys, open: set<M.Reservation>) {
    forall r :: r in open <==> R.Issued(s.log, r) && r.id !in s.book.done
  }

  ghost predicate SumsOK(g: Gateway) {
    && (forall t, from :: R.SettledSince(g.sys.log, t, from) == Accounted(g, t, from))
    && (forall id :: AccountedTimes(g, id) == SettledTimes(g.sys.log, id))
  }

  predicate AllSince(log: R.Log, t: M.TenantID, from: int) {
    match log
    case Start => true
    case Then(past, e) => AllSince(past, t, from) && (e.Settled? && e.r.tenant == t ==> from <= e.at)
  }

  /** Until a window has gone by since the start, t's windows hold everything t was billed. */
  predicate FirstWindows(log: R.Log, c: M.Counters, t: M.TenantID, start: int) {
    && start <= c.dailyStart && start <= c.monthlyStart
    && (AllSince(log, t, c.dailyStart) || start + M.DAILY_WINDOW <= c.dailyStart)
    && (AllSince(log, t, c.monthlyStart) || start + M.MONTHLY_WINDOW <= c.monthlyStart)
  }

  ghost predicate Inv(g: Gateway, start: int) {
    && R.Inv(g.sys) && g.sys.base == map[] && start <= g.sys.clock
    && OpenOK(g.sys, g.open) && SumsOK(g)
    && Recent(g.debts, start, g.sys.clock) && RowsRecent(g.rows, start, g.sys.clock)
    && (forall t :: t in g.sys.book.state ==> FirstWindows(g.sys.log, g.sys.book.state[t], t, start))
  }

  // ----- sums

  lemma {:induction false} OwedAppend(a: seq<Debt>, b: seq<Debt>, t: M.TenantID, from: int)
    ensures Owed(a + b, t, from) == Owed(a, t, from) + Owed(b, t, from)
  {
    if a == [] {
      assert a + b == b;
    } else {
      OwedAppend(a[1..], b, t, from);
      assert (a + b)[1..] == a[1..] + b;
    }
  }

  lemma {:induction false} TimesAppend(a: seq<Debt>, b: seq<Debt>, id: nat)
    ensures Times(a + b, id) == Times(a, id) + Times(b, id)
  {
    if a == [] {
      assert a + b == b;
    } else {
      TimesAppend(a[1..], b, id);
      assert (a + b)[1..] == a[1..] + b;
    }
  }

  lemma {:induction false} DebtsAppend(rows: seq<Row>, row: Row)
    ensures Debts(rows + [row]) == Debts(rows) + [row.debt]
  {
    if rows == [] {
      assert rows + [row] == [row];
    } else {
      DebtsAppend(rows[1..], row);
      assert (rows + [row])[1..] == rows[1..] + [row];
    }
  }

  /** Taking one debt out of the list takes out what it owes. */
  lemma Taken(debts: seq<Debt>, i: nat, t: M.TenantID, from: int, id: nat)
    requires i < |debts|
    ensures Owed(debts, t, from) == Owed(Without(debts, i), t, from) + Owed([debts[i]], t, from)
    ensures Times(debts, id) == Times(Without(debts, i), id) + Times([debts[i]], id)
  {
    var a, d, b := debts[..i], [debts[i]], debts[i + 1..];
    assert debts == a + d + b;
    OwedAppend(a + d, b, t, from);
    OwedAppend(a, d, t, from);
    OwedAppend(a, b, t, from);
    TimesAppend(a + d, b, id);
    TimesAppend(a, d, id);
    TimesAppend(a, b, id);
  }

  // ----- reservations

  /** An id names one reservation. */
  lemma {:induction false} OneId(log: R.Log, top: nat, a: M.Reservation, b: M.Reservation)
    requires R.LogOK(log, top) && R.Issued(log, a) && R.Issued(log, b) && a.id == b.id
    ensures a == b
  {
    var below := if log.last.Admitted? then log.last.r.id - 1 else top;
    if R.Issued(log.past, a) && R.Issued(log.past, b) {
      OneId(log.past, below, a, b);
    } else {
      R.ForeignId(log.past, below, {}, log.last.r.id, log.last.r.tenant);
    }
  }

  lemma OpenAfterGrant(s: R.Sys, s': R.Sys, open: set<M.Reservation>, r: M.Reservation)
    requires R.Inv(s) && OpenOK(s, open) && r.id == s.book.nextID + 1
    requires s'.log == R.Then(s.log, R.Admitted(r)) && s'.book.done == s.book.done
    ensures OpenOK(s', open + {r})
  {
    R.ForeignId(s.log, s.book.nextID, {}, r.id, r.tenant);
  }

  lemma OpenAfterClose(s: R.Sys, s': R.Sys, open: set<M.Reservation>, r: M.Reservation)
    requires R.Inv(s) && OpenOK(s, open) && r in open
    requires s'.log.Then? && s'.log.past == s.log && !s'.log.last.Admitted? && s'.book.done == s.book.done + {r.id}
    ensures OpenOK(s', open - {r})
  {
    forall x ensures x in open - {r} <==> R.Issued(s'.log, x) && x.id !in s'.book.done {
      if R.Issued(s.log, x) && x.id == r.id { OneId(s.log, s.book.nextID, x, r); }
    }
  }

  // ----- windows

  lemma {:induction false} SilentSince(log: R.Log, t: M.TenantID, from: int)
    requires R.Silent(log, t)
    ensures AllSince(log, t, from)
  {
    if log.Then? { SilentSince(log.past, t, from); }
  }

  lemma TouchFirst(g: Gateway, t: M.TenantID, now: int, start: int)
    requires Inv(g, start) && g.sys.clock <= now
    ensures FirstWindows(g.sys.log, M.CountersFor(g.sys.book, t, now), t, start)
  {
    assert R.TenantOK(g.sys, t);
    if t !in g.sys.book.state { SilentSince(g.sys.log, t, now); }
  }

  // ----- one moment

  /** Whatever the request path does to the enforcer is something the enforcer allows. */
  lemma EnforcerAllows(g: Gateway, m: Moment, start: int)
    requires Inv(g, start) && Enabled(g, m) && Enforcing(m).Some?
    ensures R.Enabled(g.sys, Enforcing(m).value)
    ensures m.Settles? || m.Aborts? ==> m.r.id !in g.sys.book.done
  {
  }

  lemma BeginsKeeps(g: Gateway, t: M.TenantID, est: M.Estimate, now: int, start: int)
    requires Inv(g, start) && Enabled(g, Begins(t, est, now))
    ensures Inv(Step(g, Begins(t, est, now)), start)
  {
    var a := M.Reserve(g.sys.book, t, est, now).1;
    if a.Granted? {
      K.ReservingKeeps(g.sys, t, est, now);
      BeginsGranted(g, Step(g, Begins(t, est, now)), a.r, start);
    } else {
      BeginsDenied(g, t, est, now, start);
    }
  }

  lemma BeginsDenied(g: Gateway, t: M.TenantID, est: M.Estimate, now: int, start: int)
    requires Inv(g, start) && Enabled(g, Begins(t, est, now)) && M.Reserve(g.sys.book, t, est, now).1.Denied?
    ensures Inv(Step(g, Begins(t, est, now)), start)
  {
    if t in g.sys.book.limits && (g.sys.book.healthy || !g.sys.book.limits[t].failClosed) {
      ReadsKeeps(g, t, now, start);
    } else {
      ClockOn(g.sys, now);
    }
  }

  lemma BeginsGranted(g: Gateway, g': Gateway, r: M.Reservation, start: int)
    requires Inv(g, start) && R.Inv(g'.sys) && g.sys.clock <= g'.sys.clock && r.id == g.sys.book.nextID + 1
    requires g'.sys.log == R.Then(g.sys.log, R.Admitted(r)) && g'.sys.base == g.sys.base
    requires g'.sys.book.done == g.sys.book.done && g' == g.(sys := g'.sys, open := g.open + {r})
    requires g'.sys.book.state
          == g.sys.book.state[r.tenant := M.Claim(M.CountersFor(g.sys.book, r.tenant, g'.sys.clock), r.estimate)]
    ensures Inv(g', start)
  {
    TouchFirst(g, r.tenant, g'.sys.clock, start);
    OpenAfterGrant(g.sys, g'.sys, g.open, r);
  }

  lemma SumsAfterSettle(g: Gateway, g': Gateway, d: Debt, tokens: int, row: M.SpendRow)
    requires SumsOK(g) && g'.sys.log == R.Then(g.sys.log, R.Settled(d.r, tokens, d.usd, d.at, row))
    requires g'.rows == g.rows && g'.lost == g.lost && g'.debts == g.debts + [d]
    ensures SumsOK(g')
  {
    forall t, from ensures R.SettledSince(g'.sys.log, t, from) == Accounted(g', t, from) {
      OwedAppend(g.debts, [d], t, from);
    }
    forall id ensures AccountedTimes(g', id) == SettledTimes(g'.sys.log, id) {
      TimesAppend(g.debts, [d], id);
    }
  }

  lemma SettlesKeeps(g: Gateway, r: M.Reservation, tokens: int, usd: real, now: int, start: int)
    requires Inv(g, start) && Enabled(g, Settles(r, tokens, usd, now))
    ensures Inv(Step(g, Settles(r, tokens, usd, now)), start)
  {
    var g' := Step(g, Settles(r, tokens, usd, now));
    K.SettlingKeeps(g.sys, r, tokens, usd, now);
    TouchFirst(g, r.tenant, now, start);
    K.TouchIsCurrent(g.sys, r.tenant, now);
    OpenAfterClose(g.sys, g'.sys, g.open, r);
    SumsAfterSettle(g, g', Debt(r, usd, now), tokens, g'.sys.log.last.row);
  }

  lemma AbortsKeeps(g: Gateway, r: M.Reservation, now: int, start: int)
    requires Inv(g, start) && Enabled(g, Aborts(r, now))
    ensures Inv(Step(g, Aborts(r, now)), start)
  {
    var g' := Step(g, Aborts(r, now));
    K.ReleasingKeeps(g.sys, r, now);
    TouchFirst(g, r.tenant, now, start);
    OpenAfterClose(g.sys, g'.sys, g.open, r);
  }

  lemma SumsAfterRecord(g: Gateway, g': Gateway, i: nat, stamp: int, writes: bool)
    requires SumsOK(g) && i < |g.debts| && g'.sys.log == g.sys.log && g'.debts == Without(g.debts, i)
    requires g'.rows == if writes then g.rows + [Row(g.debts[i], stamp)] else g.rows
    requires g'.lost == if writes then g.lost else g.lost + [g.debts[i]]
    ensures SumsOK(g')
  {
    forall t, from ensures R.SettledSince(g'.sys.log, t, from) == Accounted(g', t, from) {
      Moved(g, g', i, stamp, writes, t, from, 0);
    }
    forall id ensures AccountedTimes(g', id) == SettledTimes(g'.sys.log, id) {
      Moved(g, g', i, stamp, writes, "", 0, id);
    }
  }

  /** A debt that becomes a row, or is lost, is accounted for as before. */
  lemma Moved(g: Gateway, g': Gateway, i: nat, stamp: int, writes: bool, t: M.TenantID, from: int, id: nat)
    requires i < |g.debts| && g'.debts == Without(g.debts, i)
    requires g'.rows == if writes then g.rows + [Row(g.debts[i], stamp)] else g.rows
    requires g'.lost == if writes then g.lost else g.lost + [g.debts[i]]
    ensures Accounted(g', t, from) == Accounted(g, t, from) && AccountedTimes(g', id) == AccountedTimes(g, id)
  {
    var d := [g.debts[i]];
    Taken(g.debts, i, t, from, id);
    DebtsAppend(g.rows, Row(g.debts[i], stamp));
    if writes {
      OwedAppend(Debts(g.rows), d, t, from);
      TimesAppend(Debts(g.rows), d, id);
    } else {
      OwedAppend(g.lost, d, t, from);
      TimesAppend(g.lost, d, id);
    }
  }

  lemma ClockOn(s: R.Sys, clock: int)
    requires R.Inv(s) && s.clock <= clock
    ensures R.Inv(s.(clock := clock))
  {
    forall t ensures R.TenantOK(s.(clock := clock), t) { assert R.TenantOK(s, t); }
  }

  lemma RecordsKeeps(g: Gateway, i: nat, stamp: int, writes: bool, start: int)
    requires Inv(g, start) && Enabled(g, Records(i, stamp, writes))
    ensures Inv(Step(g, Records(i, stamp, writes)), start)
  {
    SumsAfterRecord(g, Step(g, Records(i, stamp, writes)), i, stamp, writes);
    ClockOn(g.sys, stamp);
  }

  lemma SavesKeeps(g: Gateway, e: R.Event, start: int)
    requires Inv(g, start) && R.Enabled(g.sys, e) && (e.Saving? || e.Marking?)
    ensures Inv(g.(sys := R.Step(g.sys, e)), start)
  {
    K.StepKeeps(g.sys, e);
  }

  lemma ReadsKeeps(g: Gateway, t: M.TenantID, now: int, start: int)
    requires Inv(g, start) && g.sys.clock <= now
    ensures Inv(g.(sys := R.Step(g.sys, R.Reading(t, now))), start)
  {
    K.ReadingKeeps(g.sys, t, now);
    TouchFirst(g, t, now, start);
  }

  lemma StepKeeps(g: Gateway, m: Moment, start: int)
    requires Inv(g, start) && Enabled(g, m)
    ensures Inv(Step(g, m), start)
  {
    match m
    case Begins(t, est, now) => BeginsKeeps(g, t, est, now, start);
    case Settles(r, tokens, usd, now) => SettlesKeeps(g, r, tokens, usd, now, start);
    case Aborts(r, now) => AbortsKeeps(g, r, now, start);
    case Records(i, stamp, writes) => RecordsKeeps(g, i, stamp, writes, start);
    case Reads(t, now) => ReadsKeeps(g, t, now, start);
    case Saves(snap, saves) => SavesKeeps(g, R.Saving(snap, saves), start);
    case Marks(healthy) => SavesKeeps(g, R.Marking(healthy), start);
    case Hit =>
  }

  lemma {:induction false} RunKeeps(g: Gateway, ms: seq<Moment>, start: int)
    requires Inv(g, start) && Allowed(g, ms)
    ensures Inv(Run(g, ms), start)
    decreases ms
  {
    if ms != [] {
      StepKeeps(g, ms[0], start);
      RunKeeps(Step(g, ms[0]), ms[1..], start);
    }
  }

  lemma OpenedIsGood(limits: map<M.TenantID, M.Limits>, durable: bool, start: int)
    ensures Inv(Opened(limits, durable, start), start)
  {
    K.BootedIsGood(limits, durable, map[], start);
  }

  // ----- what the ledger says of the books, in any state such a run reaches

  /** What Spent shows is, to the cent, t's rows settled in the window, and what is still on its
      way to the ledger or was lost there. */
  lemma LedgerAccountsForSpend(g: Gateway, start: int, t: M.TenantID, now: int)
    requires Inv(g, start)
    ensures var c := T.Shown(g.sys, t, now);
            c.dailySpent == Accounted(g, t, c.dailyStart) && c.monthlySpent == Accounted(g, t, c.monthlyStart)
  {
    K.TouchKeeps(g.sys, t, now);
  }

  /** Every settlement is one row, one row to come or one lost row, and no other row exists; every
      request let through is open or closed, never both. */
  lemma ClosedExactlyOnce(g: Gateway, start: int)
    requires Inv(g, start)
    ensures forall id :: AccountedTimes(g, id) == SettledTimes(g.sys.log, id) <= 1
    ensures forall r :: R.Issued(g.sys.log, r) ==> (r in g.open <==> r.id !in R.ClosedIds(g.sys.log))
  {
    SettledOnce(g.sys.log, g.sys.book.nextID);
  }

  lemma {:induction false} SettledOnce(log: R.Log, top: nat)
    requires R.LogOK(log, top)
    ensures forall id :: SettledTimes(log, id) <= if id in R.ClosedIds(log) then 1 else 0
  {
    if log.Then? { SettledOnce(log.past, if log.last.Admitted? then log.last.r.id - 1 else top); }
  }

  /** With none of t's requests open nothing of t's is committed. */
  lemma NothingOpenNothingCommitted(g: Gateway, start: int, t: M.TenantID, now: int)
    requires Inv(g, start) && forall r :: r in g.open ==> r.tenant != t
    ensures T.Shown(g.sys, t, now).committed == 0.0
  {
    K.TouchKeeps(g.sys, t, now);
    AllClosed(g.sys.log, g.sys.book.done, t);
  }

  lemma {:induction false} AllClosed(log: R.Log, closed: set<nat>, t: M.TenantID)
    requires forall r :: R.Issued(log, r) && r.tenant == t ==> r.id in closed
    ensures R.Outstanding(log, closed, t) == 0.0
  {
    if log.Then? {
      AllClosed(log.past, closed, t);
      assert log.last.Admitted? ==> R.Issued(log, log.last.r);
    }
  }

  /** t's rows settled before from. */
  function Earlier(rows: seq<Row>, t: M.TenantID, from: int): real {
    if rows == [] then 0.0
    else (if rows[0].debt.r.tenant == t && rows[0].debt.at < from then rows[0].debt.usd else 0.0) + Earlier(rows[1..], t, from)
  }

  lemma {:induction false} BilledSplit(rows: seq<Row>, t: M.TenantID, from: int, start: int, clock: int)
    requires RowsRecent(rows, start, clock)
    ensures Billed(rows, t) == Owed(Debts(rows), t, from) + Earlier(rows, t, from) && Earlier(rows, t, from) >= 0.0
  {
    if rows != [] {
      assert forall i :: 0 <= i < |rows[1..]| ==> rows[1..][i] == rows[i + 1];
      BilledSplit(rows[1..], t, from, start, clock);
      assert Debts(rows)[1..] == Debts(rows[1..]);
    }
  }

  /** Once every row has been written, the ledger adds up to Spent and what was billed before its
      window: to Spent itself exactly when nothing was. */
  lemma LedgerAgrees(g: Gateway, start: int, t: M.TenantID, now: int)
    requires Inv(g, start) && g.debts == [] == g.lost
    ensures var c := T.Shown(g.sys, t, now);
            && Billed(g.rows, t) == c.dailySpent + Earlier(g.rows, t, c.dailyStart)
            && Billed(g.rows, t) == c.monthlySpent + Earlier(g.rows, t, c.monthlyStart)
            && Earlier(g.rows, t, c.dailyStart) >= 0.0 && Earlier(g.rows, t, c.monthlyStart) >= 0.0
  {
    var c := T.Shown(g.sys, t, now);
    LedgerAccountsForSpend(g, start, t, now);
    BilledSplit(g.rows, t, c.dailyStart, start, g.sys.clock);
    BilledSplit(g.rows, t, c.monthlyStart, start, g.sys.clock);
  }

  /** Inside the first day nothing was billed before the windows. */
  lemma FirstDayAgrees(g: Gateway, start: int, t: M.TenantID, now: int)
    requires Inv(g, start) && g.debts == [] == g.lost && g.sys.clock <= now < start + M.DAILY_WINDOW
    ensures Billed(g.rows, t) == T.Shown(g.sys, t, now).dailySpent == T.Shown(g.sys, t, now).monthlySpent
  {
    var c := T.Shown(g.sys, t, now);
    LedgerAccountsForSpend(g, start, t, now);
    TouchFirst(g, t, now, start);
    K.TouchIsCurrent(g.sys, t, now);
    SinceEither(g.sys.log, t, c.dailyStart, start);
    SinceEither(g.sys.log, t, c.monthlyStart, start);
    AllBilled(g.rows, t, start, g.sys.clock);
  }

  /** Nothing settled before either of two times: both windows hold the same. */
  lemma {:induction false} SinceEither(log: R.Log, t: M.TenantID, from: int, earlier: int)
    requires AllSince(log, t, from) && earlier <= from
    ensures R.SettledSince(log, t, from) == R.SettledSince(log, t, earlier)
  {
    if log.Then? { SinceEither(log.past, t, from, earlier); }
  }

  lemma {:induction false} AllBilled(rows: seq<Row>, t: M.TenantID, start: int, clock: int)
    requires RowsRecent(rows, start, clock)
    ensures Owed(Debts(rows), t, start) == Billed(rows, t)
  {
    if rows != [] {
      assert forall i :: 0 <= i < |rows[1..]| ==> rows[1..][i] == rows[i + 1];
      AllBilled(rows[1..], t, start, clock);
      assert Debts(rows)[1..] == Debts(rows[1..]);
    }
  }

  /** Added up by the time on its rows, a complete ledger can only overstate a window: by the
      rows settled before the window opened and stamped in it. */
  lemma StampsOverstate(g: Gateway, start: int, t: M.TenantID, now: int)
    requires Inv(g, start) && g.debts == [] == g.lost
    ensures var c := T.Shown(g.sys, t, now);
            && Stamped(g.rows, t, c.dailyStart) == c.dailySpent + Straddling(g.rows, t, c.dailyStart)
            && Stamped(g.rows, t, c.monthlyStart) == c.monthlySpent + Straddling(g.rows, t, c.monthlyStart)
            && Straddling(g.rows, t, c.dailyStart) >= 0.0 && Straddling(g.rows, t, c.monthlyStart) >= 0.0
  {
    var c := T.Shown(g.sys, t, now);
    LedgerAccountsForSpend(g, start, t, now);
    StampedSplit(g.rows, t, c.dailyStart, start, g.sys.clock);
    StampedSplit(g.rows, t, c.monthlyStart, start, g.sys.clock);
  }

  lemma {:induction false} StampedSplit(rows: seq<Row>, t: M.TenantID, from: int, start: int, clock: int)
    requires RowsRecent(rows, start, clock)
    ensures Stamped(rows, t, from) == Owed(Debts(rows), t, from) + Straddling(rows, t, from) && Straddling(rows, t, from) >= 0.0
  {
    if rows != [] {
      assert forall i :: 0 <= i < |rows[1..]| ==> rows[1..][i] == rows[i + 1];
      StampedSplit(rows[1..], t, from, start, clock);
      assert Debts(rows)[1..] == Debts(rows[1..]);
    }
  }

  /** One request, by a tenant without limits: let through as the process starts, settled at usd
      before its day is over, its row written once the next has begun. */
  function Straddler(start: int, at: int, usd: real): seq<Moment> {
    [LetThrough(start), Settles(Late(start), 0, usd, at), Records(0, start + M.DAILY_WINDOW, true)]
  }

  const NO_ESTIMATE := M.Estimate(0, 0, 0.0)

  function LetThrough(start: int): Moment { Begins("t", NO_ESTIMATE, start) }

  function Late(start: int): M.Reservation { M.Reservation("t", NO_ESTIMATE, start, 1) }

  function Before(start: int): Gateway { Opened(map["t" := M.Limits(0, 0, 0.0, 0.0, false)], false, start) }

  lemma StraddlerBegins(start: int)
    ensures var g := Step(Before(start), LetThrough(start));
            && Enabled(Before(start), LetThrough(start))
            && StraddlerReady(g, Late(start), start)
  {
    var b := Before(start).sys.book;
    assert M.Reserve(b, "t", NO_ESTIMATE, start).1 == M.Granted(Late(start));
  }

  predicate StraddlerReady(g: Gateway, r: M.Reservation, start: int) {
    && Empty(g) && g.open == {r} && g.sys.clock == start && g.sys.book.done == {} && DayBegan(g, start) && r.tenant == "t"
  }

  predicate Empty(g: Gateway) { g.debts == [] == g.lost && g.rows == [] }

  predicate DayBegan(g: Gateway, start: int) { "t" in g.sys.book.state && g.sys.book.state["t"].dailyStart == start }

  lemma SettledWhen(b: M.Book, r: M.Reservation, tokens: int, usd: real, now: int)
    requires r.id !in b.done
    ensures var b' := M.SettleMem(b, r, tokens, usd, now).0;
            r.tenant in b'.state && b'.state[r.tenant].dailyStart == M.CountersFor(b, r.tenant, now).dailyStart
  {
    M.SettleMemIsCut(b, r, tokens, usd, now,
      M.Close(M.Update(b, r.tenant, M.SettledCounters(M.CountersFor(b, r.tenant, now), r, tokens, usd)), r.id));
  }

  lemma SameDay(c: M.Counters, now: int)
    requires now - c.dailyStart < M.DAILY_WINDOW
    ensures M.Roll(c, now).dailyStart == c.dailyStart
  {
  }

  lemma NextDay(c: M.Counters, now: int)
    requires now - c.dailyStart >= M.DAILY_WINDOW
    ensures M.Roll(c, now).dailyStart == now && M.Roll(c, now).dailySpent == 0.0
  {
  }

  lemma SettlesStep(g: Gateway, r: M.Reservation, tokens: int, usd: real, now: int)
    requires r.id !in g.sys.book.done
    ensures var g' := Step(g, Settles(r, tokens, usd, now));
            && (g.debts == [] ==> g'.debts == [Debt(r, usd, now)]) && g'.rows == g.rows && g'.lost == g.lost
            && g'.sys.clock == now && g'.sys.book == M.SettleMem(g.sys.book, r, tokens, usd, now).0
  {
  }

  lemma StillToday(b: M.Book, r: M.Reservation, start: int, usd: real, at: int)
    requires r.id !in b.done && r.tenant in b.state && b.state[r.tenant].dailyStart == start && at < start + M.DAILY_WINDOW
    ensures var b' := M.SettleMem(b, r, 0, usd, at).0;
            r.tenant in b'.state && b'.state[r.tenant].dailyStart == start
  {
    SettledWhen(b, r, 0, usd, at);
    SameDay(b.state[r.tenant], at);
  }

  lemma StraddlerSettles(g: Gateway, d: Debt, start: int)
    requires Empty(g) && d.r in g.open && g.sys.clock <= d.at < start + M.DAILY_WINDOW && d.usd >= 0.0
    requires d.r.id !in g.sys.book.done && d.r.tenant == "t" && DayBegan(g, start)
    ensures Enabled(g, Settles(d.r, 0, d.usd, d.at))
    ensures var g' := Step(g, Settles(d.r, 0, d.usd, d.at));
            g'.debts == [d] && g'.rows == [] && g'.lost == [] && g'.sys.clock == d.at && DayBegan(g', start)
  {
    StillToday(g.sys.book, d.r, start, d.usd, d.at);
    SettlesStep(g, d.r, 0, d.usd, d.at);
  }

  lemma OneRow(d: Debt, stamp: int, t: M.TenantID, from: int)
    requires d.r.tenant == t && d.at < from <= stamp
    ensures Stamped([Row(d, stamp)], t, from) == d.usd == Straddling([Row(d, stamp)], t, from)
  {
  }

  /** Every row is written, and usd is stamped in a day for which Spent shows none of it. */
  predicate Overstated(g: Gateway, start: int, usd: real) {
    var c := T.Shown(g.sys, "t", start + M.DAILY_WINDOW);
    && g.debts == [] == g.lost && c.dailySpent == 0.0
    && Stamped(g.rows, "t", c.dailyStart) == usd == Straddling(g.rows, "t", c.dailyStart)
  }

  lemma StraddlerRecords(g: Gateway, d: Debt, start: int)
    requires g.debts == [d] && g.rows == [] && g.lost == [] && DayBegan(g, start)
    requires g.sys.clock == d.at < start + M.DAILY_WINDOW && d.r.tenant == "t"
    ensures Enabled(g, Records(0, start + M.DAILY_WINDOW, true))
    ensures Overstated(Step(g, Records(0, start + M.DAILY_WINDOW, true)), start, d.usd)
  {
    NextDay(g.sys.book.state["t"], start + M.DAILY_WINDOW);
    OneRow(d, start + M.DAILY_WINDOW, "t", start + M.DAILY_WINDOW);
  }

  lemma StraddlerOverstates(g: Gateway, d: Debt, start: int)
    requires StraddlerReady(g, d.r, start) && start <= d.at < start + M.DAILY_WINDOW && d.usd >= 0.0
    ensures var bill, row := Settles(d.r, 0, d.usd, d.at), Records(0, start + M.DAILY_WINDOW, true);
            && Enabled(g, bill) && Enabled(Step(g, bill), row)
            && Overstated(Step(Step(g, bill), row), start, d.usd)
  {
    StraddlerSettles(g, d, start);
    StraddlerRecords(Step(g, Settles(d.r, 0, d.usd, d.at)), d, start);
  }

  /** The excess is real, and can be any amount: one request reaches it. */
  lemma StampsDoOverstate(start: int, at: int, usd: real)
    requires usd >= 0.0 && start <= at < start + M.DAILY_WINDOW
    ensures Allowed(Before(start), Straddler(start, at, usd))
    ensures Overstated(Run(Before(start), Straddler(start, at, usd)), start, usd)
  {
    var ms := Straddler(start, at, usd);
    StraddlerBegins(start);
    StraddlerOverstates(Step(Before(start), LetThrough(start)), Debt(Late(start), usd, at), start);
    RunOfThree(Before(start), ms[0], ms[1], ms[2]);
  }

  lemma RunOfThree(g: Gateway, a: Moment, b: Moment, c: Moment)
    ensures Run(g, [a, b, c]) == Step(Step(Step(g, a), b), c)
    ensures Allowed(g, [a, b, c]) <==> Enabled(g, a) && Enabled(Step(g, a), b) && Enabled(Step(Step(g, a), b), c)
  {
    RunOfOne(Step(Step(g, a), b), c);
    assert [b, c][1..] == [c];
    assert Run(Step(g, a), [b, c]) == Run(Step(Step(g, a), b), [c]);
    assert Allowed(Step(g, a), [b, c]) == (Enabled(Step(g, a), b) && Allowed(Step(Step(g, a), b), [c]));
    assert [a, b, c][1..] == [b, c];
  }

  lemma RunOfOne(g: Gateway, m: Moment)
    ensures Run(g, [m]) == Step(g, m) && Allowed(g, [m]) == Enabled(g, m)
  {
    assert [m][1..] == [];
    assert Run(Step(g, m), []) == Step(g, m);
  }
}
