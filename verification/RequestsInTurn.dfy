/** One request after another. What the handlers leave behind is then exactly what Handle says, so
    the books and the rows of any list of handled requests agree. */
module RequestsInTurn {
  import opened Common
  import opened Guard
  import opened Handlers
  import opened Requests
  import M = BudgetModel
  import L = LedgerRuns
  import A = Answers

  /** Books and rows after vs, in that order, each handled before the next begins. */
  function HandleAll(terms: Terms, routes: map<string, string>, book: Option<M.Book>, rows: seq<LedgerRow>,
                     vs: seq<Visit>): (Option<M.Book>, seq<LedgerRow>)
    decreases vs
  {
    if vs == [] then (book, rows)
    else
      var o := Handle(terms, routes, book, rows, vs[0]);
      HandleAll(terms, routes, o.book, o.rows, vs[1..])
  }

  /** Each request begins after the one before it is written, and its own times are in order. */
  predicate InOrder(clock: int, vs: seq<Visit>)
    decreases vs
  {
    vs == [] || (clock <= vs[0].start <= vs[0].at.now <= vs[0].at.stamp && InOrder(vs[0].at.stamp, vs[1..]))
  }

  function EndOf(clock: int, vs: seq<Visit>): int
    decreases vs
  {
    if vs == [] then clock else EndOf(vs[0].at.stamp, vs[1..])
  }

  /** What t's rows come to. */
  function Total(rows: seq<LedgerRow>, t: M.TenantID): real {
    if rows == [] then 0.0 else (if rows[0].tenant == t then rows[0].usd else 0.0) + Total(rows[1..], t)
  }

  /** A row of the ledger and the settlement it records. */
  predicate Records(row: LedgerRow, entry: L.Row) {
    && row.tenant == entry.debt.r.tenant && row.usd == entry.debt.usd && row.stamp == entry.stamp
    && row.requestID == entry.debt.r.id
  }

  predicate Match(rows: seq<LedgerRow>, entries: seq<L.Row>) {
    |rows| == |entries| && forall i :: 0 <= i < |rows| ==> Records(rows[i], entries[i])
  }

  lemma {:induction false} MatchTotals(rows: seq<LedgerRow>, entries: seq<L.Row>, t: M.TenantID)
    requires Match(rows, entries)
    ensures Total(rows, t) == L.Billed(entries, t)
  {
    if rows != [] {
      assert Records(rows[0], entries[0]);
      MatchTotals(rows[1..], entries[1..], t);
    }
  }

  lemma {:induction false} OncePerRequest(rows: seq<LedgerRow>, entries: seq<L.Row>)
    requires Match(rows, entries) && forall id :: L.Times(L.Debts(entries), id) <= 1
    ensures forall i, j :: 0 <= i < j < |rows| ==> rows[i].requestID != rows[j].requestID
  {
    if rows != [] {
      forall id ensures L.Times(L.Debts(entries[1..]), id) <= 1 {
        assert L.Debts(entries)[1..] == L.Debts(entries[1..]);
        assert L.Times(L.Debts(entries), id) <= 1;
      }
      OncePerRequest(rows[1..], entries[1..]);
      forall j | 0 < j < |rows| ensures rows[0].requestID != rows[j].requestID {
        assert Records(rows[0], entries[0]) && Records(rows[j], entries[j]);
        Counted(entries, 0, j);
      }
      forall i, j | 0 < i < j < |rows| ensures rows[i].requestID != rows[j].requestID {
        assert rows[i] == rows[1..][i - 1] && rows[j] == rows[1..][j - 1];
      }
    }
  }

  /** Two entries for one id count twice. */
  lemma {:induction false} Counted(entries: seq<L.Row>, i: nat, j: nat)
    requires i <= j < |entries|
    ensures L.Times(L.Debts(entries), entries[j].debt.r.id) >= 1
    ensures i < j && entries[i].debt.r.id == entries[j].debt.r.id ==> L.Times(L.Debts(entries), entries[j].debt.r.id) >= 2
  {
    assert L.Debts(entries)[1..] == L.Debts(entries[1..]);
    if i > 0 {
      Counted(entries[1..], i - 1, j - 1);
    } else if j > 0 {
      Counted(entries[1..], j - 1, j - 1);
    }
  }

  // ----- one handler going on

  /** The gateway and the handler after its next step. */
  function Go(terms: Terms, routes: map<string, string>, g: L.Gateway, task: Task): (L.Gateway, Task) {
    (Requests.Moved(g, MomentOf(terms, routes, g, task)), TaskAfter(terms, routes, g, task))
  }

  /** After its next n steps. */
  function Goes(terms: Terms, routes: map<string, string>, g: L.Gateway, task: Task, n: nat): (L.Gateway, Task)
    decreases n
  {
    if n == 0 then (g, task) else var (g', task') := Go(terms, routes, g, task); Goes(terms, routes, g', task', n - 1)
  }

  /** Its times are behind the clock at none of them. */
  predicate OnTime(terms: Terms, routes: map<string, string>, g: L.Gateway, task: Task, n: nat)
    decreases n
  {
    n == 0 || ((TimeOf(task).Some? ==> g.sys.clock <= TimeOf(task).value)
               && var (g', task') := Go(terms, routes, g, task); OnTime(terms, routes, g', task', n - 1))
  }

  function Turns(i: nat, n: nat): seq<Turn> { if n == 0 then [] else [Work(i)] + Turns(i, n - 1) }

  lemma {:induction false} TurnsGo(terms: Terms, routes: map<string, string>, f: Floor, i: nat, n: nat)
    requires i < |f.tasks|
    ensures var (g, task) := Goes(terms, routes, f.g, f.tasks[i], n);
            Run(terms, routes, f, Turns(i, n)) == Floor(g, f.tasks[i := task])
    ensures OnTime(terms, routes, f.g, f.tasks[i], n) ==> AllTimely(terms, routes, f, Turns(i, n))
    decreases n
  {
    if n == 0 {
      assert f.tasks[i := f.tasks[i]] == f.tasks;
    } else {
      var f' := Step(terms, routes, f, Work(i));
      TurnsGo(terms, routes, f', i, n - 1);
      assert Turns(i, n)[1..] == Turns(i, n - 1);
      assert f'.tasks[i := Goes(terms, routes, f'.g, f'.tasks[i], n - 1).1] == f.tasks[i := Goes(terms, routes, f.g, f.tasks[i], n).1];
    }
  }

  lemma {:induction false} OverStays(terms: Terms, routes: map<string, string>, g: L.Gateway, task: Task, n: nat)
    requires task.Over?
    ensures Goes(terms, routes, g, task, n) == (g, task) && OnTime(terms, routes, g, task, n)
  {
    if n > 0 { OverStays(terms, routes, g, task, n - 1); }
  }

  // ----- the steps of one handler with nobody else about

  lemma SettleGoes(terms: Terms, routes: map<string, string>, g: L.Gateway, v: Visit, r: M.Reservation)
    requires Used(v).Some? && r.id !in g.sys.book.done && g.debts == []
    ensures var (g', task) := Go(terms, routes, g, Holding(v, r));
            var (book, snap) := M.SettleMem(g.sys.book, r, Used(v).value.total, Charge(terms, routes, v), v.at.now);
            var d := L.Debt(r, Charge(terms, routes, v), v.at.now);
            && g'.sys.book == book && g'.debts == [d] && g'.rows == g.rows && g'.sys.clock == v.at.now
            && task == if snap.Some? then Saving(v, d, snap.value) else Recording(v, d)
  {
    L.SettlesStep(g, r, Used(v).value.total, Charge(terms, routes, v), v.at.now);
  }

  lemma SaveGoes(terms: Terms, routes: map<string, string>, g: L.Gateway, v: Visit, d: L.Debt, snap: M.Snapshot)
    ensures var (g', task) := Go(terms, routes, g, Saving(v, d, snap));
            && g'.sys.book == M.Persist(g.sys.book, snap, v.at.saves).0 && g'.debts == g.debts && g'.rows == g.rows
            && g'.sys.clock == g.sys.clock && task == Recording(v, d)
  {
  }

  lemma RecordGoes(terms: Terms, routes: map<string, string>, g: L.Gateway, v: Visit, d: L.Debt)
    requires g.debts == [d]
    ensures var (g', task) := Go(terms, routes, g, Recording(v, d));
            && g'.sys.book == g.sys.book && g'.debts == [] && g'.sys.clock == v.at.stamp && task == Over(v, ReplyTo(v))
            && g'.rows == g.rows + if terms.keepsLedger && v.at.writes then [L.Row(d, v.at.stamp)] else []
  {
  }

  /** From its settlement to its row. */
  lemma SettlingThrough(terms: Terms, routes: map<string, string>, g: L.Gateway, v: Visit, r: M.Reservation)
    requires Used(v).Some? && r.id !in g.sys.book.done && g.debts == [] && g.sys.clock <= v.at.now <= v.at.stamp
    ensures var (g', task) := Goes(terms, routes, g, Holding(v, r), 3);
            var usd := Charge(terms, routes, v);
            && g'.sys.book == SettleNow(g.sys.book, r, Used(v).value.total, usd, v.at) && g'.debts == []
            && g'.rows == g.rows + (if terms.keepsLedger && v.at.writes then [L.Row(L.Debt(r, usd, v.at.now), v.at.stamp)] else [])
            && g'.sys.clock == v.at.stamp && task == Over(v, ReplyTo(v))
    ensures OnTime(terms, routes, g, Holding(v, r), 3)
  {
    var (g1, t1) := Go(terms, routes, g, Holding(v, r));
    SettleGoes(terms, routes, g, v, r);
    var (g2, t2) := Go(terms, routes, g1, t1);
    if t1.Saving? {
      SaveGoes(terms, routes, g1, v, t1.d, t1.snap);
      RecordGoes(terms, routes, g2, v, t1.d);
    } else {
      RecordGoes(terms, routes, g1, v, t1.d);
      OverStays(terms, routes, g2, t2, 1);
    }
  }

  lemma MatchOneMore(rows: seq<LedgerRow>, entries: seq<L.Row>, row: LedgerRow, entry: L.Row)
    requires Match(rows, entries) && Records(row, entry)
    ensures Match(rows + [row], entries + [entry])
  {
  }

  /** However a request let through ends, its handler closes it as Closed says. */
  lemma ClosingThrough(terms: Terms, routes: map<string, string>, g: L.Gateway, rows: seq<LedgerRow>, v: Visit, r: M.Reservation)
    requires Routed(routes, v) && r.id !in g.sys.book.done && g.debts == [] && Match(rows, g.rows)
    requires g.sys.clock <= v.at.now <= v.at.stamp
    ensures var (g', task) := Goes(terms, routes, g, Holding(v, r), 3);
            var (book, rows') := Closed(terms, Some(g.sys.book), rows, v, routes[v.q.model], Some(r));
            && Some(g'.sys.book) == book && Match(rows', g'.rows) && g'.debts == [] && g'.sys.clock <= v.at.stamp
            && task == Over(v, ReplyTo(v))
    ensures OnTime(terms, routes, g, Holding(v, r), 3)
  {
    if Used(v).None? {
      var (g', task) := Go(terms, routes, g, Holding(v, r));
      OverStays(terms, routes, g', task, 2);
    } else {
      SettlingThrough(terms, routes, g, v, r);
      if terms.keepsLedger && v.at.writes {
        MatchOneMore(rows, g.rows, RowsFor(terms, r, v, routes[v.q.model])[0],
                     L.Row(L.Debt(r, Charge(terms, routes, v), v.at.now), v.at.stamp));
      }
    }
  }

  predicate LetIn(terms: Terms, routes: map<string, string>, v: Visit) {
    Routed(routes, v) && !Serveable(v.q, v.hit, v.flushes) && terms.estimator.Some?
  }

  /** A request that meets no budget changes nothing. */
  lemma PassesBy(terms: Terms, routes: map<string, string>, g: L.Gateway, rows: seq<LedgerRow>, v: Visit)
    requires !LetIn(terms, routes, v)
    ensures var (g', task) := Go(terms, routes, g, Arriving(v));
            var o := Handle(terms, routes, Some(g.sys.book), rows, v);
            && g' == g && task == Over(v, o.reply) && o.book == Some(g.sys.book) && o.rows == rows
  {
  }

  /** One that meets it takes a reservation, or is refused. */
  lemma MeetsBudget(terms: Terms, routes: map<string, string>, g: L.Gateway, v: Visit)
    requires LetIn(terms, routes, v)
    ensures var (g', task) := Go(terms, routes, g, Arriving(v));
            var (book, a) := M.Reserve(g.sys.book, v.q.tenant, terms.estimator.value(v.q.model, v.q.raw), v.start);
            && g'.sys.book == book && g'.debts == g.debts && g'.rows == g.rows && g'.sys.clock == v.start
            && task == (match a case Granted(r) => Holding(v, r) case Denied(d) => Over(v, Refused(d)))
            && (a.Granted? ==> a.r.id == g.sys.book.nextID + 1 && book.done == g.sys.book.done)
  {
  }

  /** With nobody else about, four steps of a handler leave behind what Handle says. */
  lemma OneVisit(terms: Terms, routes: map<string, string>, g: L.Gateway, rows: seq<LedgerRow>, v: Visit)
    requires g.sys.book.nextID + 1 !in g.sys.book.done && g.debts == [] && Match(rows, g.rows)
    requires g.sys.clock <= v.start <= v.at.now <= v.at.stamp
    ensures var (g', task) := Goes(terms, routes, g, Arriving(v), 4);
            var o := Handle(terms, routes, Some(g.sys.book), rows, v);
            && Some(g'.sys.book) == o.book && Match(o.rows, g'.rows) && g'.debts == [] && g'.sys.clock <= v.at.stamp
            && task == Over(v, o.reply)
    ensures OnTime(terms, routes, g, Arriving(v), 4)
  {
    var (g1, t1) := Go(terms, routes, g, Arriving(v));
    if !LetIn(terms, routes, v) {
      PassesBy(terms, routes, g, rows, v);
      OverStays(terms, routes, g1, t1, 3);
    } else {
      MeetsBudget(terms, routes, g, v);
      if t1.Holding? { ClosingThrough(terms, routes, g1, rows, v, t1.r); } else { OverStays(terms, routes, g1, t1, 3); }
    }
  }

  // ----- all of them

  /** The schedule that runs the handlers from the i-th on one after another. */
  function Serial(i: nat, n: nat): seq<Turn>
    decreases n - i
  {
    if i >= n then [] else Turns(i, 4) + Serial(i + 1, n)
  }

  lemma {:induction false} RunAppend(terms: Terms, routes: map<string, string>, f: Floor, a: seq<Turn>, b: seq<Turn>)
    ensures Run(terms, routes, f, a + b) == Run(terms, routes, Run(terms, routes, f, a), b)
    ensures AllTimely(terms, routes, f, a) && AllTimely(terms, routes, Run(terms, routes, f, a), b) ==> AllTimely(terms, routes, f, a + b)
    decreases a
  {
    if a == [] {
      assert a + b == b;
    } else {
      RunAppend(terms, routes, Step(terms, routes, f, a[0]), a[1..], b);
      assert (a + b)[1..] == a[1..] + b;
    }
  }

  /** Up to the i-th all are done, from it on all are still to come. */
  predicate Halfway(tasks: seq<Task>, vs: seq<Visit>, i: nat) {
    && i <= |vs| == |tasks|
    && (forall j :: 0 <= j < i ==> tasks[j].Over?) && (forall j :: i <= j < |vs| ==> tasks[j] == Arriving(vs[j]))
  }

  lemma FreshId(f: Floor, start: int)
    requires Requests.Inv(f, start)
    ensures f.g.sys.book.nextID + 1 !in f.g.sys.book.done
  {
    Requests.IdsBelow(f.g, start);
  }

  /** Handlers run one after another do what HandleAll says. */
  lemma {:induction false} InTurn(terms: Terms, routes: map<string, string>, f: Floor, rows: seq<LedgerRow>,
                                  vs: seq<Visit>, i: nat, start: int)
    requires Sound(terms) && Requests.Inv(f, start) && Halfway(f.tasks, vs, i) && f.g.debts == [] && Match(rows, f.g.rows)
    requires InOrder(f.g.sys.clock, vs[i..])
    ensures AllTimely(terms, routes, f, Serial(i, |vs|))
    ensures var f' := Run(terms, routes, f, Serial(i, |vs|));
            var (book, rows') := HandleAll(terms, routes, Some(f.g.sys.book), rows, vs[i..]);
            && AllOver(f') && book == Some(f'.g.sys.book) && Match(rows', f'.g.rows)
            && f'.g.sys.clock <= EndOf(f.g.sys.clock, vs[i..])
    decreases |vs| - i
  {
    if i < |vs| {
      var v := vs[i];
      FreshId(f, start);
      OneVisit(terms, routes, f.g, rows, v);
      TurnsGo(terms, routes, f, i, 4);
      RunKeeps(terms, routes, f, Turns(i, 4), start);
      var f1 := Run(terms, routes, f, Turns(i, 4));
      assert vs[i..][1..] == vs[i + 1..];
      Later(f1.g.sys.clock, v.at.stamp, vs[i + 1..]);
      InTurn(terms, routes, f1, Handle(terms, routes, Some(f.g.sys.book), rows, v).rows, vs, i + 1, start);
      RunAppend(terms, routes, f, Turns(i, 4), Serial(i + 1, |vs|));
    }
  }

  /** An earlier clock is in order too, and ends no later. */
  lemma Later(clock: int, bound: int, vs: seq<Visit>)
    requires clock <= bound && InOrder(bound, vs)
    ensures InOrder(clock, vs) && EndOf(clock, vs) <= EndOf(bound, vs)
  {
  }

  /** For any list of requests, whatever caches, upstreams, clients and stores do to them: after the
      last, nothing is committed; each has at most one row; a tenant's rows come to at least what
      Spent shows, and inside the first day to exactly that. */
  lemma RequestsBalance(terms: Terms, routes: map<string, string>, limits: map<M.TenantID, M.Limits>, durable: bool,
                        start: int, vs: seq<Visit>, t: M.TenantID, now: int)
    requires Sound(terms) && InOrder(start, vs) && EndOf(start, vs) <= now
    requires terms.keepsLedger && forall i :: 0 <= i < |vs| ==> vs[i].at.writes
    ensures var (book, rows) := HandleAll(terms, routes, Some(M.Boot(limits, durable, map[], start)), [], vs);
            && book.Some? && (forall i, j :: 0 <= i < j < |rows| ==> rows[i].requestID != rows[j].requestID)
            && var c := M.CountersFor(book.value, t, now);
            && c.committed == 0.0 && c.dailySpent <= Total(rows, t) && c.monthlySpent <= Total(rows, t)
            && (now < start + M.DAILY_WINDOW ==> c.dailySpent == Total(rows, t) == c.monthlySpent)
  {
    var f0 := Requests.Opened(limits, durable, start, vs);
    Requests.OpenedIsGood(limits, durable, start, vs);
    assert vs[0..] == vs;
    InTurn(terms, routes, f0, [], vs, 0, start);
    var f := Run(terms, routes, f0, Serial(0, |vs|));
    var rows := HandleAll(terms, routes, Some(f0.g.sys.book), [], vs).1;
    BooksBalance(terms, routes, limits, durable, start, vs, Serial(0, |vs|), t, now);
    MatchTotals(rows, f.g.rows, t);
    OncePerRequest(rows, f.g.rows);
  }

  /** Every row of any list of requests bills its own counts at its own price. */
  lemma {:induction false} RowsReprice(terms: Terms, routes: map<string, string>, book: Option<M.Book>, rows: seq<LedgerRow>, vs: seq<Visit>)
    requires forall i :: 0 <= i < |rows| ==> A.Reprices(terms, rows[i])
    ensures var rows' := HandleAll(terms, routes, book, rows, vs).1;
            forall i :: 0 <= i < |rows'| ==> A.Reprices(terms, rows'[i])
    decreases vs
  {
    if vs != [] {
      var o := Handle(terms, routes, book, rows, vs[0]);
      A.RowBillsIt(terms, routes, book, rows, vs[0]);
      forall i | 0 <= i < |o.rows| ensures A.Reprices(terms, o.rows[i]) {
        if i < |rows| && o.rows != rows { assert o.rows[i] == o.rows[..|rows|][i]; }
      }
      RowsReprice(terms, routes, o.book, o.rows, vs[1..]);
      assert HandleAll(terms, routes, book, rows, vs) == HandleAll(terms, routes, o.book, o.rows, vs[1..]);
    } else {
      assert HandleAll(terms, routes, book, rows, vs) == (book, rows);
    }
  }
}
