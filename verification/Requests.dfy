/** Requests in flight together. Each is a handler with a place it has got to: nothing here assumes
    that a reservation is open or closed once; it follows from where the handlers are. Every step of
    every handler is shown to be a moment of LedgerRuns, so what is proved there holds of any
    schedule of any requests. */
module Requests {
  import opened Common
  import opened Pricing
  import opened Guard
  import opened Handlers
  import M = BudgetModel
  import R = BudgetRuns
  import T = BudgetTheorems
  import L = LedgerRuns

  /** Where a handler is: before the cache, waiting for the upstream with its reservation, with the
      store or the ledger still to write, or done. */
  datatype Task =
    | Arriving(v: Visit)
    | Holding(v: Visit, r: M.Reservation)
    | Saving(v: Visit, d: L.Debt, snap: M.Snapshot)
    | Recording(v: Visit, d: L.Debt)
    | Over(v: Visit, reply: Reply)
  {
    predicate Owes() { Saving? || Recording? }
    predicate Active() { Holding? || Owes() }
    function Id(): nat
      requires Active()
    {
      if Holding? then r.id else d.r.id
    }
  }

  datatype Floor = Floor(g: L.Gateway, tasks: seq<Task>)

  /** A handler goes on; somebody reads a balance; the store's health is set. */
  datatype Turn = Work(i: nat) | Peek(t: M.TenantID, now: int) | Mark(healthy: bool)

  function IndexOf(debts: seq<L.Debt>, d: L.Debt): nat {
    if debts == [] || debts[0] == d then 0 else 1 + IndexOf(debts[1..], d)
  }

  /** What a handler's next step is to the books and the ledger; None for nothing at all. */
  function MomentOf(terms: Terms, routes: map<string, string>, g: L.Gateway, task: Task): Option<L.Moment> {
    match task
    case Arriving(v) =>
      if !Routed(routes, v) || (terms.estimator.None? && !Serveable(v.q, v.hit, v.flushes)) then None
      else if Serveable(v.q, v.hit, v.flushes) then Some(L.Hit)
      else Some(L.Begins(v.q.tenant, terms.estimator.value(v.q.model, v.q.raw), v.start))
    case Holding(v, r) =>
      if Used(v).None? then Some(L.Aborts(r, v.at.now))
      else Some(L.Settles(r, Used(v).value.total, Charge(terms, routes, v), v.at.now))
    case Saving(v, _, snap) => Some(L.Saves(snap, v.at.saves))
    case Recording(v, d) => Some(L.Records(IndexOf(g.debts, d), v.at.stamp, terms.keepsLedger && v.at.writes))
    case Over(_, _) => None
  }

  function Charge(terms: Terms, routes: map<string, string>, v: Visit): real {
    if v.q.model in routes then Charged(terms, v, routes[v.q.model]) else 0.0
  }

  /** Where the handler is after that step. */
  function TaskAfter(terms: Terms, routes: map<string, string>, g: L.Gateway, task: Task): Task {
    match task
    case Arriving(v) =>
      if !Routed(routes, v) then Over(v, NotServed)
      else if Serveable(v.q, v.hit, v.flushes) then Over(v, FromCache)
      else if terms.estimator.None? then Over(v, ReplyTo(v))
      else
        (match M.Reserve(g.sys.book, v.q.tenant, terms.estimator.value(v.q.model, v.q.raw), v.start).1
         case Granted(r) => Holding(v, r)
         case Denied(d) => Over(v, Refused(d)))
    case Holding(v, r) =>
      if Used(v).None? then Over(v, ReplyTo(v))
      else
        var usd := Charge(terms, routes, v);
        var d := L.Debt(r, usd, v.at.now);
        var snap := M.SettleMem(g.sys.book, r, Used(v).value.total, usd, v.at.now).1;
        if snap.Some? then Saving(v, d, snap.value) else Recording(v, d)
    case Saving(v, d, _) => Recording(v, d)
    case Recording(v, _) => Over(v, ReplyTo(v))
    case Over(_, _) => task
  }

  function Moved(g: L.Gateway, m: Option<L.Moment>): L.Gateway { if m.Some? then L.Step(g, m.value) else g }

  function Step(terms: Terms, routes: map<string, string>, f: Floor, turn: Turn): Floor {
    match turn
    case Work(i) =>
      if i >= |f.tasks| then f
      else
        Floor(Moved(f.g, MomentOf(terms, routes, f.g, f.tasks[i])), f.tasks[i := TaskAfter(terms, routes, f.g, f.tasks[i])])
    case Peek(t, now) => f.(g := L.Step(f.g, L.Reads(t, now)))
    case Mark(healthy) => f.(g := L.Step(f.g, L.Marks(healthy)))
  }

  /** The time a step happens at, if it looks at the clock. */
  function TimeOf(task: Task): Option<int> {
    match task
    case Arriving(v) => Some(v.start)
    case Holding(v, _) => Some(v.at.now)
    case Saving(_, _, _) => None
    case Recording(v, _) => Some(v.at.stamp)
    case Over(_, _) => None
  }

  /** All that is asked of a schedule: the clock does not run backwards. */
  predicate Timely(f: Floor, turn: Turn) {
    match turn
    case Work(i) => i < |f.tasks| && TimeOf(f.tasks[i]).Some? ==> f.g.sys.clock <= TimeOf(f.tasks[i]).value
    case Peek(_, now) => f.g.sys.clock <= now
    case Mark(_) => true
  }

  function Run(terms: Terms, routes: map<string, string>, f: Floor, turns: seq<Turn>): Floor
    decreases turns
  {
    if turns == [] then f else Run(terms, routes, Step(terms, routes, f, turns[0]), turns[1..])
  }

  predicate AllTimely(terms: Terms, routes: map<string, string>, f: Floor, turns: seq<Turn>)
    decreases turns
  {
    turns == [] || (Timely(f, turns[0]) && AllTimely(terms, routes, Step(terms, routes, f, turns[0]), turns[1..]))
  }

  function Arrivals(vs: seq<Visit>): (ts: seq<Task>)
    ensures |ts| == |vs| && forall i :: 0 <= i < |vs| ==> ts[i] == Arriving(vs[i])
  {
    seq(|vs|, i requires 0 <= i < |vs| => Arriving(vs[i]))
  }

  function Opened(limits: map<M.TenantID, M.Limits>, durable: bool, start: int, vs: seq<Visit>): Floor {
    Floor(L.Opened(limits, durable, start), Arrivals(vs))
  }

  /** The price table is valid, and estimates are priced from one that is. */
  ghost predicate Sound(terms: Terms) {
    && (terms.prices.Some? ==> RatesOK(terms.prices.value))
    && (terms.estimator.Some? ==> forall model, raw :: PricedEstimate(terms.estimator.value(model, raw)))
  }

  ghost predicate PricedEstimate(est: M.Estimate) {
    exists table: Option<Table>, resolve, model ::
      (table.Some? ==> RatesOK(table.value)) && est.usd == EstimateUSD(table, resolve, model, est.promptTokens, est.completionTokens)
  }

  lemma PricedIsNotNegative(est: M.Estimate)
    requires PricedEstimate(est)
    ensures est.usd >= 0.0
  {
    var table: Option<Table>, resolve, model :|
      (table.Some? ==> RatesOK(table.value)) && est.usd == EstimateUSD(table, resolve, model, est.promptTokens, est.completionTokens);
    EstimateNeverNegative(table, resolve, model, est.promptTokens, est.completionTokens);
  }

  lemma ChargeIsNotNegative(terms: Terms, routes: map<string, string>, v: Visit)
    requires Sound(terms)
    ensures Charge(terms, routes, v) >= 0.0
  {
    if v.q.model in routes && Used(v).Some? {
      var (model, provider) := Billed(v, routes[v.q.model]);
      PriceNeverNegative(terms, provider, model, Used(v).value);
    }
  }

  // ----- where the handlers are, and what is open

  /** Ids in use are below the next one, and no two handlers share one. */
  predicate IdsOK(tasks: seq<Task>, top: nat) {
    && (forall i :: 0 <= i < |tasks| && tasks[i].Active() ==> tasks[i].Id() <= top)
    && (forall i, j :: 0 <= i < j < |tasks| && tasks[i].Active() && tasks[j].Active() ==> tasks[i].Id() != tasks[j].Id())
  }

  predicate HeldBy(tasks: seq<Task>, r: M.Reservation) { exists i :: 0 <= i < |tasks| && tasks[i].Holding? && tasks[i].r == r }

  predicate OwedBy(tasks: seq<Task>, d: L.Debt) { exists i :: 0 <= i < |tasks| && tasks[i].Owes() && tasks[i].d == d }

  /** Open reservations are those some handler holds. */
  ghost predicate OpenOK(tasks: seq<Task>, open: set<M.Reservation>) { forall r :: r in open <==> HeldBy(tasks, r) }

  /** Unwritten rows are those some handler owes, each once. */
  ghost predicate DebtsOK(tasks: seq<Task>, debts: seq<L.Debt>) {
    && (forall d :: d in debts <==> OwedBy(tasks, d))
    && (forall i, j :: 0 <= i < j < |debts| ==> debts[i].r.id != debts[j].r.id)
  }

  /** A handler about to save has its snapshot pending, and it is nobody else's. */
  predicate SnapsOK(tasks: seq<Task>, pending: set<M.Snapshot>, seqNo: map<M.TenantID, nat>) {
    && (forall i :: 0 <= i < |tasks| && tasks[i].Saving? ==> tasks[i].snap in pending)
    && (forall i, j :: 0 <= i < j < |tasks| && tasks[i].Saving? && tasks[j].Saving? ==> tasks[i].snap != tasks[j].snap)
    && (forall p :: p in pending ==> p.number <= M.At(seqNo, p.row.tenant))
  }

  ghost predicate Inv(f: Floor, start: int) {
    && L.Inv(f.g, start)
    && IdsOK(f.tasks, f.g.sys.book.nextID)
    && OpenOK(f.tasks, f.g.open) && DebtsOK(f.tasks, f.g.debts)
    && SnapsOK(f.tasks, f.g.sys.pending, f.g.sys.book.seqNo)
  }

  lemma {:induction false} IndexFound(debts: seq<L.Debt>, d: L.Debt)
    requires d in debts
    ensures IndexOf(debts, d) < |debts| && debts[IndexOf(debts, d)] == d
  {
    if debts[0] != d { IndexFound(debts[1..], d); }
  }

  /** The step of a handler is something the ledger runs allow. */
  lemma MomentAllowed(terms: Terms, routes: map<string, string>, f: Floor, i: nat, start: int)
    requires Inv(f, start) && Sound(terms) && i < |f.tasks| && Timely(f, Work(i))
    ensures var m := MomentOf(terms, routes, f.g, f.tasks[i]); m.Some? ==> L.Enabled(f.g, m.value)
  {
    var task := f.tasks[i];
    match task
    case Arriving(v) =>
      if terms.estimator.Some? { PricedIsNotNegative(terms.estimator.value(v.q.model, v.q.raw)); }
    case Holding(v, r) =>
      assert HeldBy(f.tasks, r);
      ChargeIsNotNegative(terms, routes, v);
    case Recording(v, d) =>
      assert OwedBy(f.tasks, d);
      IndexFound(f.g.debts, d);
    case _ =>
  }

  // ----- one handler's place changes

  lemma HeldElsewhere(tasks: seq<Task>, i: nat, task: Task, r: M.Reservation)
    requires i < |tasks|
    ensures HeldBy(tasks[i := task], r) <==>
              (task.Holding? && task.r == r) || (exists j :: 0 <= j < |tasks| && j != i && tasks[j].Holding? && tasks[j].r == r)
  {
    var after := tasks[i := task];
    if task.Holding? && task.r == r { assert after[i] == task; }
    if j :| 0 <= j < |tasks| && j != i && tasks[j].Holding? && tasks[j].r == r { assert after[j] == tasks[j]; }
  }

  lemma OwedElsewhere(tasks: seq<Task>, i: nat, task: Task, d: L.Debt)
    requires i < |tasks|
    ensures OwedBy(tasks[i := task], d) <==>
              (task.Owes() && task.d == d) || (exists j :: 0 <= j < |tasks| && j != i && tasks[j].Owes() && tasks[j].d == d)
  {
    var after := tasks[i := task];
    if task.Owes() && task.d == d { assert after[i] == task; }
    if j :| 0 <= j < |tasks| && j != i && tasks[j].Owes() && tasks[j].d == d { assert after[j] == tasks[j]; }
  }

  /** Holding on to, taking or giving up a reservation. */
  lemma OpenAfter(tasks: seq<Task>, open: set<M.Reservation>, i: nat, task: Task, top: nat)
    requires i < |tasks| && OpenOK(tasks, open) && IdsOK(tasks, top) && IdsOK(tasks[i := task], top)
    ensures var given := if tasks[i].Holding? then open - {tasks[i].r} else open;
            OpenOK(tasks[i := task], if task.Holding? then given + {task.r} else given)
  {
    var given := if tasks[i].Holding? then open - {tasks[i].r} else open;
    var after := if task.Holding? then given + {task.r} else given;
    forall r ensures r in after <==> HeldBy(tasks[i := task], r) {
      HeldElsewhere(tasks, i, task, r);
      HeldElsewhere(tasks, i, tasks[i], r);
      assert tasks[i := tasks[i]] == tasks;
      if tasks[i].Holding? && tasks[i].r == r {
        assert forall j :: 0 <= j < |tasks| && j != i && tasks[j].Holding? ==> tasks[j].Id() != tasks[i].Id();
      }
    }
  }

  /** What a handler owes stays owed while it goes on owing it. */
  lemma DebtsSame(tasks: seq<Task>, debts: seq<L.Debt>, i: nat, task: Task)
    requires i < |tasks| && DebtsOK(tasks, debts) && tasks[i].Owes() == task.Owes() && (task.Owes() ==> tasks[i].d == task.d)
    ensures DebtsOK(tasks[i := task], debts)
  {
    assert tasks[i := tasks[i]] == tasks;
    forall d ensures OwedBy(tasks[i := task], d) <==> OwedBy(tasks, d) {
      OwedElsewhere(tasks, i, task, d);
      OwedElsewhere(tasks, i, tasks[i], d);
    }
  }

  lemma DebtsTaken(tasks: seq<Task>, debts: seq<L.Debt>, i: nat, task: Task)
    requires i < |tasks| && DebtsOK(tasks, debts) && !tasks[i].Owes() && task.Owes()
    requires forall d :: d in debts ==> d.r.id != task.d.r.id
    ensures DebtsOK(tasks[i := task], debts + [task.d])
  {
    assert tasks[i := tasks[i]] == tasks;
    forall d ensures OwedBy(tasks[i := task], d) <==> d in debts + [task.d] {
      OwedElsewhere(tasks, i, task, d);
      OwedElsewhere(tasks, i, tasks[i], d);
    }
  }

  lemma DebtsPaid(tasks: seq<Task>, debts: seq<L.Debt>, i: nat, task: Task, k: nat, top: nat)
    requires i < |tasks| && DebtsOK(tasks, debts) && IdsOK(tasks, top) && tasks[i].Owes() && !task.Owes()
    requires k < |debts| && debts[k] == tasks[i].d
    ensures DebtsOK(tasks[i := task], L.Without(debts, k))
  {
    var left := L.Without(debts, k);
    assert tasks[i := tasks[i]] == tasks;
    forall j | 0 <= j < |left| ensures left[j] == debts[if j < k then j else j + 1] { }
    forall d ensures OwedBy(tasks[i := task], d) <==> d in left {
      OwedElsewhere(tasks, i, task, d);
      OwedElsewhere(tasks, i, tasks[i], d);
      if d == tasks[i].d {
        assert forall j :: 0 <= j < |tasks| && j != i && tasks[j].Owes() ==> tasks[j].Id() != tasks[i].Id();
      } else if d in debts {
        var j :| 0 <= j < |debts| && debts[j] == d;
        assert left[if j < k then j else j - 1] == d;
      }
    }
  }

  lemma IdsAfter(tasks: seq<Task>, top: nat, i: nat, task: Task, top': nat)
    requires i < |tasks| && IdsOK(tasks, top) && top <= top'
    requires task.Active() ==> (tasks[i].Active() && task.Id() == tasks[i].Id()) || top < task.Id() <= top'
    ensures IdsOK(tasks[i := task], top')
  {
  }

  lemma SnapsAfter(tasks: seq<Task>, pending: set<M.Snapshot>, seqNo: map<M.TenantID, nat>, i: nat, task: Task,
                   pending': set<M.Snapshot>, seqNo': map<M.TenantID, nat>)
    requires i < |tasks| && SnapsOK(tasks, pending, seqNo)
    requires pending' == (if tasks[i].Saving? then pending - {tasks[i].snap} else pending) + (if task.Saving? then {task.snap} else {})
    requires task.Saving? ==> task.snap.number == M.At(seqNo, task.snap.row.tenant) + 1 == M.At(seqNo', task.snap.row.tenant)
    requires forall t :: M.At(seqNo, t) <= M.At(seqNo', t)
    ensures SnapsOK(tasks[i := task], pending', seqNo')
  {
  }

  // ----- every step keeps the invariant

  /** Ids the books have issued, and closed, are at most the next one. */
  lemma IdsBelow(g: L.Gateway, start: int)
    requires L.Inv(g, start)
    ensures forall r :: r in g.open ==> r.id <= g.sys.book.nextID
    ensures forall id :: id in g.sys.book.done ==> id <= g.sys.book.nextID
  {
    R.ForeignId(g.sys.log, g.sys.book.nextID, {}, g.sys.book.nextID + 1, "");
    ClosedBelow(g.sys.log, g.sys.book.nextID);
  }

  lemma {:induction false} ClosedBelow(log: R.Log, top: nat)
    requires R.LogOK(log, top)
    ensures forall id :: id in R.ClosedIds(log) ==> id <= top
  {
    if log.Then? {
      ClosedBelow(log.past, if log.last.Admitted? then log.last.r.id - 1 else top);
      if !log.last.Admitted? { R.ForeignId(log.past, top, {}, top + 1, ""); }
    }
  }

  /** A row still to be written is a closed reservation's. */
  lemma DebtsAreClosed(g: L.Gateway, start: int)
    requires L.Inv(g, start)
    ensures forall d :: d in g.debts ==> d.r.id in g.sys.book.done
  {
    L.SettledOnce(g.sys.log, g.sys.book.nextID);
    forall d | d in g.debts ensures d.r.id in g.sys.book.done {
      OwedIsCounted(g.debts, d);
      assert L.AccountedTimes(g, d.r.id) == L.SettledTimes(g.sys.log, d.r.id);
    }
  }

  lemma {:induction false} OwedIsCounted(debts: seq<L.Debt>, d: L.Debt)
    requires d in debts
    ensures L.Times(debts, d.r.id) >= 1
  {
    if debts[0] != d { OwedIsCounted(debts[1..], d); }
  }

  /** A step that only moves the books' windows, or nothing. */
  lemma IdleKeeps(f: Floor, i: nat, task: Task, g': L.Gateway, start: int)
    requires Inv(f, start) && L.Inv(g', start) && i < |f.tasks| && !f.tasks[i].Active() && !task.Active()
    requires g'.open == f.g.open && g'.debts == f.g.debts && g'.sys.pending == f.g.sys.pending
    requires g'.sys.book.seqNo == f.g.sys.book.seqNo && g'.sys.book.nextID == f.g.sys.book.nextID
    ensures Inv(Floor(g', f.tasks[i := task]), start)
  {
    IdsAfter(f.tasks, f.g.sys.book.nextID, i, task, g'.sys.book.nextID);
    OpenAfter(f.tasks, f.g.open, i, task, f.g.sys.book.nextID);
    DebtsSame(f.tasks, f.g.debts, i, task);
    SnapsAfter(f.tasks, f.g.sys.pending, f.g.sys.book.seqNo, i, task, g'.sys.pending, g'.sys.book.seqNo);
  }

  lemma GrantedKeeps(f: Floor, i: nat, task: Task, g': L.Gateway, start: int)
    requires Inv(f, start) && L.Inv(g', start) && i < |f.tasks| && !f.tasks[i].Active() && task.Holding?
    requires g'.open == f.g.open + {task.r} && g'.debts == f.g.debts && g'.sys.pending == f.g.sys.pending
    requires g'.sys.book.seqNo == f.g.sys.book.seqNo && task.r.id == f.g.sys.book.nextID + 1 == g'.sys.book.nextID
    ensures Inv(Floor(g', f.tasks[i := task]), start)
  {
    IdsAfter(f.tasks, f.g.sys.book.nextID, i, task, g'.sys.book.nextID);
    OpenAfter(f.tasks, f.g.open, i, task, g'.sys.book.nextID);
    DebtsSame(f.tasks, f.g.debts, i, task);
    SnapsAfter(f.tasks, f.g.sys.pending, f.g.sys.book.seqNo, i, task, g'.sys.pending, g'.sys.book.seqNo);
  }

  lemma AbortedKeeps(f: Floor, i: nat, task: Task, g': L.Gateway, start: int)
    requires Inv(f, start) && L.Inv(g', start) && i < |f.tasks| && f.tasks[i].Holding? && task.Over?
    requires g'.open == f.g.open - {f.tasks[i].r} && g'.debts == f.g.debts && g'.sys.pending == f.g.sys.pending
    requires g'.sys.book.seqNo == f.g.sys.book.seqNo && g'.sys.book.nextID == f.g.sys.book.nextID
    ensures Inv(Floor(g', f.tasks[i := task]), start)
  {
    IdsAfter(f.tasks, f.g.sys.book.nextID, i, task, g'.sys.book.nextID);
    OpenAfter(f.tasks, f.g.open, i, task, f.g.sys.book.nextID);
    DebtsSame(f.tasks, f.g.debts, i, task);
    SnapsAfter(f.tasks, f.g.sys.pending, f.g.sys.book.seqNo, i, task, g'.sys.pending, g'.sys.book.seqNo);
  }

  lemma SettledKeeps(f: Floor, i: nat, task: Task, g': L.Gateway, start: int)
    requires Inv(f, start) && L.Inv(g', start) && i < |f.tasks| && f.tasks[i].Holding? && task.Owes() && task.d.r == f.tasks[i].r
    requires g'.open == f.g.open - {f.tasks[i].r} && g'.debts == f.g.debts + [task.d]
    requires g'.sys.pending == f.g.sys.pending + if task.Saving? then {task.snap} else {}
    requires task.Saving? ==> task.snap.number == M.At(f.g.sys.book.seqNo, task.snap.row.tenant) + 1
    requires g'.sys.book.seqNo == if task.Saving? then f.g.sys.book.seqNo[task.snap.row.tenant := task.snap.number] else f.g.sys.book.seqNo
    requires g'.sys.book.nextID == f.g.sys.book.nextID
    ensures Inv(Floor(g', f.tasks[i := task]), start)
  {
    IdsAfter(f.tasks, f.g.sys.book.nextID, i, task, g'.sys.book.nextID);
    OpenAfter(f.tasks, f.g.open, i, task, f.g.sys.book.nextID);
    DebtsAreClosed(f.g, start);
    assert HeldBy(f.tasks, f.tasks[i].r);
    DebtsTaken(f.tasks, f.g.debts, i, task);
    SnapsAfter(f.tasks, f.g.sys.pending, f.g.sys.book.seqNo, i, task, g'.sys.pending, g'.sys.book.seqNo);
  }

  lemma SavedKeeps(f: Floor, i: nat, task: Task, g': L.Gateway, start: int)
    requires Inv(f, start) && L.Inv(g', start) && i < |f.tasks| && f.tasks[i].Saving? && task.Recording? && task.d == f.tasks[i].d
    requires g'.open == f.g.open && g'.debts == f.g.debts && g'.sys.pending == f.g.sys.pending - {f.tasks[i].snap}
    requires g'.sys.book.seqNo == f.g.sys.book.seqNo && g'.sys.book.nextID == f.g.sys.book.nextID
    ensures Inv(Floor(g', f.tasks[i := task]), start)
  {
    IdsAfter(f.tasks, f.g.sys.book.nextID, i, task, g'.sys.book.nextID);
    OpenAfter(f.tasks, f.g.open, i, task, f.g.sys.book.nextID);
    DebtsSame(f.tasks, f.g.debts, i, task);
    SnapsAfter(f.tasks, f.g.sys.pending, f.g.sys.book.seqNo, i, task, g'.sys.pending, g'.sys.book.seqNo);
  }

  lemma RecordedKeeps(f: Floor, i: nat, task: Task, g': L.Gateway, k: nat, start: int)
    requires Inv(f, start) && L.Inv(g', start) && i < |f.tasks| && f.tasks[i].Recording? && task.Over?
    requires k < |f.g.debts| && f.g.debts[k] == f.tasks[i].d
    requires g'.open == f.g.open && g'.debts == L.Without(f.g.debts, k) && g'.sys.pending == f.g.sys.pending
    requires g'.sys.book.seqNo == f.g.sys.book.seqNo && g'.sys.book.nextID == f.g.sys.book.nextID
    ensures Inv(Floor(g', f.tasks[i := task]), start)
  {
    IdsAfter(f.tasks, f.g.sys.book.nextID, i, task, g'.sys.book.nextID);
    OpenAfter(f.tasks, f.g.open, i, task, f.g.sys.book.nextID);
    DebtsPaid(f.tasks, f.g.debts, i, task, k, f.g.sys.book.nextID);
    SnapsAfter(f.tasks, f.g.sys.pending, f.g.sys.book.seqNo, i, task, g'.sys.pending, g'.sys.book.seqNo);
  }

  lemma ArrivingKeeps(terms: Terms, routes: map<string, string>, f: Floor, i: nat, start: int)
    requires Inv(f, start) && Sound(terms) && i < |f.tasks| && f.tasks[i].Arriving? && Timely(f, Work(i))
    ensures Inv(Step(terms, routes, f, Work(i)), start)
  {
    MomentAllowed(terms, routes, f, i, start);
    var v, m := f.tasks[i].v, MomentOf(terms, routes, f.g, f.tasks[i]);
    var g', task := Moved(f.g, m), TaskAfter(terms, routes, f.g, f.tasks[i]);
    if m.Some? { L.StepKeeps(f.g, m.value, start); }
    if task.Holding? { GrantedKeeps(f, i, task, g', start); } else { IdleKeeps(f, i, task, g', start); }
  }

  lemma AbortingKeeps(terms: Terms, routes: map<string, string>, f: Floor, i: nat, start: int)
    requires Inv(f, start) && Sound(terms) && i < |f.tasks| && f.tasks[i].Holding? && Timely(f, Work(i))
    requires Used(f.tasks[i].v).None?
    ensures Inv(Step(terms, routes, f, Work(i)), start)
  {
    MomentAllowed(terms, routes, f, i, start);
    var m := L.Aborts(f.tasks[i].r, f.tasks[i].v.at.now);
    L.StepKeeps(f.g, m, start);
    L.EnforcerAllows(f.g, m, start);
    AbortedKeeps(f, i, TaskAfter(terms, routes, f.g, f.tasks[i]), L.Step(f.g, m), start);
  }

  /** What a settlement moves, in books whose reservation is still open. */
  lemma SettlingMoves(terms: Terms, routes: map<string, string>, g: L.Gateway, v: Visit, r: M.Reservation)
    requires Used(v).Some? && r.id !in g.sys.book.done
    ensures var g' := L.Step(g, L.Settles(r, Used(v).value.total, Charge(terms, routes, v), v.at.now));
            var task := TaskAfter(terms, routes, g, Holding(v, r));
            && task.Owes() && task.d.r == r && g'.open == g.open - {r} && g'.debts == g.debts + [task.d]
            && g'.sys.pending == g.sys.pending + (if task.Saving? then {task.snap} else {})
            && (task.Saving? ==> task.snap.number == M.At(g.sys.book.seqNo, task.snap.row.tenant) + 1)
            && g'.sys.book.seqNo == (if task.Saving? then g.sys.book.seqNo[task.snap.row.tenant := task.snap.number] else g.sys.book.seqNo)
            && g'.sys.book.nextID == g.sys.book.nextID
  {
  }

  lemma SettlingKeeps(terms: Terms, routes: map<string, string>, f: Floor, i: nat, start: int)
    requires Inv(f, start) && Sound(terms) && i < |f.tasks| && f.tasks[i].Holding? && Timely(f, Work(i))
    requires Used(f.tasks[i].v).Some?
    ensures Inv(Step(terms, routes, f, Work(i)), start)
  {
    MomentAllowed(terms, routes, f, i, start);
    var v := f.tasks[i].v;
    var m := L.Settles(f.tasks[i].r, Used(v).value.total, Charge(terms, routes, v), v.at.now);
    L.StepKeeps(f.g, m, start);
    L.EnforcerAllows(f.g, m, start);
    SettlingMoves(terms, routes, f.g, v, f.tasks[i].r);
    SettledKeeps(f, i, TaskAfter(terms, routes, f.g, f.tasks[i]), L.Step(f.g, m), start);
  }

  lemma SavingKeeps(terms: Terms, routes: map<string, string>, f: Floor, i: nat, start: int)
    requires Inv(f, start) && Sound(terms) && i < |f.tasks| && f.tasks[i].Saving? && Timely(f, Work(i))
    ensures Inv(Step(terms, routes, f, Work(i)), start)
  {
    MomentAllowed(terms, routes, f, i, start);
    var m := L.Saves(f.tasks[i].snap, f.tasks[i].v.at.saves);
    L.StepKeeps(f.g, m, start);
    SavedKeeps(f, i, TaskAfter(terms, routes, f.g, f.tasks[i]), L.Step(f.g, m), start);
  }

  lemma RecordingKeeps(terms: Terms, routes: map<string, string>, f: Floor, i: nat, start: int)
    requires Inv(f, start) && Sound(terms) && i < |f.tasks| && f.tasks[i].Recording? && Timely(f, Work(i))
    ensures Inv(Step(terms, routes, f, Work(i)), start)
  {
    MomentAllowed(terms, routes, f, i, start);
    var task := f.tasks[i];
    var m := L.Records(IndexOf(f.g.debts, task.d), task.v.at.stamp, terms.keepsLedger && task.v.at.writes);
    L.StepKeeps(f.g, m, start);
    assert OwedBy(f.tasks, task.d);
    IndexFound(f.g.debts, task.d);
    RecordedKeeps(f, i, TaskAfter(terms, routes, f.g, task), L.Step(f.g, m), m.i, start);
  }

  lemma WorkKeeps(terms: Terms, routes: map<string, string>, f: Floor, i: nat, start: int)
    requires Inv(f, start) && Sound(terms) && i < |f.tasks| && Timely(f, Work(i))
    ensures Inv(Step(terms, routes, f, Work(i)), start)
  {
    match f.tasks[i]
    case Arriving(_) => ArrivingKeeps(terms, routes, f, i, start);
    case Holding(v, _) =>
      if Used(v).None? { AbortingKeeps(terms, routes, f, i, start); } else { SettlingKeeps(terms, routes, f, i, start); }
    case Saving(_, _, _) => SavingKeeps(terms, routes, f, i, start);
    case Recording(_, _) => RecordingKeeps(terms, routes, f, i, start);
    case Over(_, _) => assert f.tasks[i := f.tasks[i]] == f.tasks;
  }

  lemma StepKeeps(terms: Terms, routes: map<string, string>, f: Floor, turn: Turn, start: int)
    requires Inv(f, start) && Sound(terms) && Timely(f, turn)
    ensures Inv(Step(terms, routes, f, turn), start)
  {
    match turn
    case Work(i) => if i < |f.tasks| { WorkKeeps(terms, routes, f, i, start); }
    case Peek(t, now) => L.StepKeeps(f.g, L.Reads(t, now), start);
    case Mark(healthy) => L.StepKeeps(f.g, L.Marks(healthy), start);
  }

  lemma {:induction false} RunKeeps(terms: Terms, routes: map<string, string>, f: Floor, turns: seq<Turn>, start: int)
    requires Inv(f, start) && Sound(terms) && AllTimely(terms, routes, f, turns)
    ensures Inv(Run(terms, routes, f, turns), start)
    decreases turns
  {
    if turns != [] {
      StepKeeps(terms, routes, f, turns[0], start);
      RunKeeps(terms, routes, Step(terms, routes, f, turns[0]), turns[1..], start);
    }
  }

  lemma OpenedIsGood(limits: map<M.TenantID, M.Limits>, durable: bool, start: int, vs: seq<Visit>)
    ensures Inv(Opened(limits, durable, start, vs), start)
  {
    L.OpenedIsGood(limits, durable, start);
  }

  /** At any moment of any schedule: Spent is what the ledger holds for its windows, what is on its
      way there and what was lost; every settlement is exactly one of these; a reservation is open
      exactly while a handler holds it, and closed, once, from then on. */
  lemma AlwaysAccounted(terms: Terms, routes: map<string, string>, limits: map<M.TenantID, M.Limits>, durable: bool,
                        start: int, vs: seq<Visit>, turns: seq<Turn>, t: M.TenantID, now: int)
    requires Sound(terms) && AllTimely(terms, routes, Opened(limits, durable, start, vs), turns)
    ensures var f := Run(terms, routes, Opened(limits, durable, start, vs), turns);
            var c := T.Shown(f.g.sys, t, now);
            && c.dailySpent == L.Accounted(f.g, t, c.dailyStart) && c.monthlySpent == L.Accounted(f.g, t, c.monthlyStart)
            && (forall id :: L.AccountedTimes(f.g, id) == L.SettledTimes(f.g.sys.log, id) <= 1)
            && (forall r :: R.Issued(f.g.sys.log, r) ==> (HeldBy(f.tasks, r) <==> r.id !in R.ClosedIds(f.g.sys.log)))
  {
    var f0 := Opened(limits, durable, start, vs);
    var f := Run(terms, routes, f0, turns);
    OpenedIsGood(limits, durable, start, vs);
    RunKeeps(terms, routes, f0, turns, start);
    L.LedgerAccountsForSpend(f.g, start, t, now);
    L.ClosedExactlyOnce(f.g, start);
  }

  // ----- when everybody is done

  predicate AllOver(f: Floor) { forall i :: 0 <= i < |f.tasks| ==> f.tasks[i].Over? }

  lemma SomebodyOwes(tasks: seq<Task>, debts: seq<L.Debt>)
    requires DebtsOK(tasks, debts) && debts != []
    ensures exists i :: 0 <= i < |tasks| && tasks[i].Owes()
  {
    assert OwedBy(tasks, debts[0]);
  }

  lemma NothingOwed(tasks: seq<Task>, debts: seq<L.Debt>)
    requires DebtsOK(tasks, debts) && forall i :: 0 <= i < |tasks| ==> tasks[i].Over?
    ensures debts == []
  {
    if debts != [] { SomebodyOwes(tasks, debts); }
  }

  /** Nothing is left open and no row unwritten. */
  lemma NothingLeft(f: Floor, start: int)
    requires Inv(f, start) && AllOver(f)
    ensures f.g.open == {} && f.g.debts == []
  {
    NothingOwed(f.tasks, f.g.debts);
  }

  /** Every ledger write succeeds. */
  predicate LedgerTakes(terms: Terms, tasks: seq<Task>) {
    terms.keepsLedger && forall i :: 0 <= i < |tasks| ==> tasks[i].v.at.writes
  }

  lemma {:induction false} NothingLost(terms: Terms, routes: map<string, string>, f: Floor, turns: seq<Turn>)
    requires LedgerTakes(terms, f.tasks)
    ensures Run(terms, routes, f, turns).g.lost == f.g.lost
    decreases turns
  {
    if turns != [] {
      OneTurnLosesNothing(terms, routes, f, turns[0]);
      NothingLost(terms, routes, Step(terms, routes, f, turns[0]), turns[1..]);
    }
  }

  lemma OneTurnLosesNothing(terms: Terms, routes: map<string, string>, f: Floor, turn: Turn)
    requires LedgerTakes(terms, f.tasks)
    ensures Step(terms, routes, f, turn).g.lost == f.g.lost && LedgerTakes(terms, Step(terms, routes, f, turn).tasks)
  {
    if turn.Work? && turn.i < |f.tasks| {
      var after := TaskAfter(terms, routes, f.g, f.tasks[turn.i]);
      assert after.v == f.tasks[turn.i].v;
    }
  }

  /** Any requests, any schedule of their handlers, any cached hits, whole answers, streams, upstream
      failures and lost clients among them: once all are done and the ledger took its rows, no
      reservation is open, nothing is committed, every settlement is one row and no row is anything
      else, and the rows of each tenant add up to what Spent shows and what was billed before its
      window, which inside the first day is nothing. */
  lemma BooksBalance(terms: Terms, routes: map<string, string>, limits: map<M.TenantID, M.Limits>, durable: bool,
                     start: int, vs: seq<Visit>, turns: seq<Turn>, t: M.TenantID, now: int)
    requires Sound(terms) && AllTimely(terms, routes, Opened(limits, durable, start, vs), turns)
    requires AllOver(Run(terms, routes, Opened(limits, durable, start, vs), turns))
    requires terms.keepsLedger && forall i :: 0 <= i < |vs| ==> vs[i].at.writes
    ensures var g := Run(terms, routes, Opened(limits, durable, start, vs), turns).g;
            var c := T.Shown(g.sys, t, now);
            && g.open == {} && c.committed == 0.0
            && (forall id :: L.Times(L.Debts(g.rows), id) == L.SettledTimes(g.sys.log, id) <= 1)
            && L.Billed(g.rows, t) == c.dailySpent + L.Earlier(g.rows, t, c.dailyStart)
            && L.Billed(g.rows, t) == c.monthlySpent + L.Earlier(g.rows, t, c.monthlyStart)
            && L.Earlier(g.rows, t, c.dailyStart) >= 0.0 && L.Earlier(g.rows, t, c.monthlyStart) >= 0.0
            && (g.sys.clock <= now < start + M.DAILY_WINDOW ==> L.Billed(g.rows, t) == c.dailySpent == c.monthlySpent)
  {
    var f0 := Opened(limits, durable, start, vs);
    var f := Run(terms, routes, f0, turns);
    OpenedIsGood(limits, durable, start, vs);
    RunKeeps(terms, routes, f0, turns, start);
    NothingLeft(f, start);
    NothingLost(terms, routes, f0, turns);
    L.NothingOpenNothingCommitted(f.g, start, t, now);
    L.ClosedExactlyOnce(f.g, start);
    forall id ensures L.Times(L.Debts(f.g.rows), id) == L.AccountedTimes(f.g, id) { }
    L.LedgerAgrees(f.g, start, t, now);
    if f.g.sys.clock <= now < start + M.DAILY_WINDOW { L.FirstDayAgrees(f.g, start, t, now); }
  }
}
