/** The durable mirror: which snapshot the store holds under late, reordered and failing
    writes, and what a crash costs. */
module BudgetDurability {
  import opened Common
  import opened BudgetModel
  import opened BudgetRuns

  // ----- snapshots, numbered per tenant in settlement order; number 0 is the restored row

  predicate SettledFor(e: Entry, t: TenantID) { e.Settled? && e.r.tenant == t }

  function Count(log: Log, t: TenantID): nat {
    match log
    case Start => 0
    case Then(past, e) => Count(past, t) + if SettledFor(e, t) then 1 else 0
  }

  function RowAt(log: Log, base: Option<SpendRow>, t: TenantID, k: nat): Option<SpendRow> {
    match log
    case Start => base
    case Then(past, e) => if SettledFor(e, t) && k == Count(log, t) then Some(e.row) else RowAt(past, base, t, k)
  }

  /** Cost of t's settlements numbered above k. */
  function CostAfter(log: Log, t: TenantID, k: nat): real {
    match log
    case Start => 0.0
    case Then(past, e) => if SettledFor(e, t) && k < Count(log, t) then CostAfter(past, t, k) + e.usd else CostAfter(past, t, k)
  }

  function Lookup(m: map<TenantID, SpendRow>, t: TenantID): Option<SpendRow> {
    if t in m then Some(m[t]) else None
  }

  function Numbered(s: Sys, t: TenantID, k: nat): Option<SpendRow> {
    RowAt(s.log, Lookup(s.base, t), t, k)
  }

  ghost predicate AwaitsWrite(s: Sys, t: TenantID, k: nat) {
    Numbered(s, t, k).Some? && Snapshot(Numbered(s, t, k).value, k) in s.pending + s.failed
  }

  ghost predicate StoreFollows(s: Sys, t: TenantID) {
    && At(s.book.written, t) <= At(s.book.seqNo, t) == Count(s.log, t)
    && Lookup(s.book.store, t) == Numbered(s, t, At(s.book.written, t))
    && (forall k :: At(s.book.written, t) < k <= Count(s.log, t) ==> AwaitsWrite(s, t, k))
  }

  predicate Genuine(s: Sys, p: Snapshot) {
    0 < p.number <= Count(s.log, p.row.tenant) && Numbered(s, p.row.tenant, p.number) == Some(p.row)
  }

  /** One window against one snapshot of it: the same window plus what was settled since, or
      a window that has rolled since, in which case the newest snapshot leaves nothing. */
  predicate Explains(rowUSD: real, rowStart: int, spent: real, start: int, len: int, since: real, newest: bool) {
    && rowStart <= start
    && (rowStart == start ==> spent == rowUSD + since)
    && (rowStart < start ==> rowStart + len <= start && (newest ==> spent == 0.0))
  }

  ghost predicate Accounted(log: Log, base: Option<SpendRow>, c: Counters, t: TenantID) {
    && (forall k :: 0 <= k <= Count(log, t) && RowAt(log, base, t, k).Some? ==>
          var row := RowAt(log, base, t, k).value;
          && Explains(row.dailyUSD, row.dailyStart, c.dailySpent, c.dailyStart, DAILY_WINDOW, CostAfter(log, t, k), k == Count(log, t))
          && Explains(row.monthlyUSD, row.monthlyStart, c.monthlySpent, c.monthlyStart, MONTHLY_WINDOW, CostAfter(log, t, k), k == Count(log, t)))
    && (base.None? && Count(log, t) == 0 ==> c.dailySpent == 0.0 == c.monthlySpent)
    && (base.None? && Count(log, t) > 0 ==>
          RowAt(log, base, t, 1).Some? &&
          var row := RowAt(log, base, t, 1).value;
          && (row.dailyStart == c.dailyStart ==> c.dailySpent == CostAfter(log, t, 0))
          && (row.monthlyStart == c.monthlyStart ==> c.monthlySpent == CostAfter(log, t, 0)))
  }

  ghost predicate LossOK(s: Sys, t: TenantID) {
    if t in s.book.state then t in s.book.limits ==> Accounted(s.log, Lookup(s.base, t), s.book.state[t], t)
    else Count(s.log, t) == 0 && (t in s.book.limits ==> t !in s.base)
  }

  /** Only configured tenants are admitted, and each settlement's row is labelled with its tenant. */
  predicate OnlyConfigured(log: Log, limits: map<TenantID, Limits>) {
    log.Then? ==>
      && log.last.r.tenant in limits
      && (log.last.Settled? ==> log.last.row.tenant == log.last.r.tenant)
      && OnlyConfigured(log.past, limits)
  }

  ghost predicate DurInv(s: Sys) {
    && s.book.durable
    && (forall t :: t in s.base ==> s.base[t].tenant == t)
    && (forall t :: t in s.book.store ==> s.book.store[t].tenant == t)
    && (forall p :: p in s.pending || p in s.failed ==> Genuine(s, p))
    && OnlyConfigured(s.log, s.book.limits)
    && (forall t :: StoreFollows(s, t))
    && (forall t :: LossOK(s, t))
  }

  // ----- preservation

  lemma {:induction false} RowExists(log: Log, base: Option<SpendRow>, t: TenantID, k: nat)
    requires 0 < k <= Count(log, t)
    ensures RowAt(log, base, t, k).Some?
  {
    if !(SettledFor(log.last, t) && k == Count(log, t)) { RowExists(log.past, base, t, k); }
  }

  lemma {:induction false} NoCostAfterLast(log: Log, t: TenantID, k: nat)
    requires Count(log, t) <= k
    ensures CostAfter(log, t, k) == 0.0
  {
    if log.Then? { NoCostAfterLast(log.past, t, k); }
  }

  lemma RollExplains(usd: real, from: int, spent: real, start: int, len: int, since: real, newest: bool, now: int)
    requires Explains(usd, from, spent, start, len, since, newest) && len > 0
    ensures now - start >= len ==> Explains(usd, from, 0.0, now, len, since, newest)
  {
  }

  lemma RollAccounts(log: Log, base: Option<SpendRow>, c: Counters, t: TenantID, now: int)
    requires Accounted(log, base, c, t)
    ensures Accounted(log, base, Roll(c, now), t)
  {
    forall k: nat | k <= Count(log, t) && RowAt(log, base, t, k).Some?
      ensures var row := RowAt(log, base, t, k).value;
              var c' := Roll(c, now);
              && Explains(row.dailyUSD, row.dailyStart, c'.dailySpent, c'.dailyStart, DAILY_WINDOW, CostAfter(log, t, k), k == Count(log, t))
              && Explains(row.monthlyUSD, row.monthlyStart, c'.monthlySpent, c'.monthlyStart, MONTHLY_WINDOW, CostAfter(log, t, k), k == Count(log, t))
    {
      var row := RowAt(log, base, t, k).value;
      RollExplains(row.dailyUSD, row.dailyStart, c.dailySpent, c.dailyStart, DAILY_WINDOW, CostAfter(log, t, k), k == Count(log, t), now);
      RollExplains(row.monthlyUSD, row.monthlyStart, c.monthlySpent, c.monthlyStart, MONTHLY_WINDOW, CostAfter(log, t, k), k == Count(log, t), now);
    }
  }

  lemma TouchAccounts(s: Sys, t: TenantID, now: int)
    requires LossOK(s, t) && t in s.book.limits
    ensures Accounted(s.log, Lookup(s.base, t), CountersFor(s.book, t, now), t)
  {
    if t in s.book.state {
      RollAccounts(s.log, Lookup(s.base, t), s.book.state[t], t, now);
    } else {
      forall k | 0 <= k <= Count(s.log, t) ensures RowAt(s.log, None, t, k) == None {
        NoRows(s.log, t, k);
      }
    }
  }

  lemma {:induction false} NoRows(log: Log, t: TenantID, k: nat)
    requires Count(log, t) == 0
    ensures RowAt(log, None, t, k) == None
  {
    if log.Then? { NoRows(log.past, t, k); }
  }

  lemma ChargeAccounts(log: Log, base: Option<SpendRow>, c: Counters, c': Counters, r: Reservation, total: int, usd: real, now: int)
    requires Accounted(log, base, c, r.tenant)
    requires c'.dailySpent == c.dailySpent + usd && c'.dailyStart == c.dailyStart
    requires c'.monthlySpent == c.monthlySpent + usd && c'.monthlyStart == c.monthlyStart
    ensures Accounted(Then(log, Settled(r, total, usd, now, RowOf(r.tenant, c'))), base, c', r.tenant)
  {
    var t := r.tenant;
    var log' := Then(log, Settled(r, total, usd, now, RowOf(t, c')));
    var n := Count(log, t);
    NoCostAfterLast(log', t, n + 1);
    NoCostAfterLast(log, t, n);
    forall k | 0 <= k <= n
      ensures RowAt(log', base, t, k) == RowAt(log, base, t, k) && CostAfter(log', t, k) == CostAfter(log, t, k) + usd
    {
    }
  }

  lemma {:induction false} IssuedConfigured(log: Log, limits: map<TenantID, Limits>, r: Reservation)
    requires Issued(log, r) && OnlyConfigured(log, limits)
    ensures r.tenant in limits
  {
    if log.last != Admitted(r) { IssuedConfigured(log.past, limits, r); }
  }

  /** A step that neither settles nor writes, and touches at most t's counters. */
  lemma QuietKeeps(s: Sys, s': Sys, t: TenantID, now: int)
    requires DurInv(s) && DurInvFrame(s, s')
    requires s'.log == s.log || (s'.log.Then? && s'.log.past == s.log && !s'.log.last.Settled? && s'.log.last.r.tenant == t && t in s.book.limits)
    requires forall u :: u != t ==> (u in s'.book.state <==> u in s.book.state)
    requires forall u :: u != t && u in s.book.state ==> s'.book.state[u] == s.book.state[u]
    requires t in s'.book.state && SameSpend(s'.book.state[t], CountersFor(s.book, t, now))
    ensures DurInv(s')
  {
    forall u, k: nat ensures Numbered(s', u, k) == Numbered(s, u, k) { }
    forall u ensures Count(s'.log, u) == Count(s.log, u) { }
    forall p | p in s'.pending || p in s'.failed ensures Genuine(s', p) { assert Genuine(s, p); }
    forall u ensures StoreFollows(s', u) {
      assert StoreFollows(s, u);
      forall k | At(s'.book.written, u) < k <= Count(s'.log, u) ensures AwaitsWrite(s', u, k) {
        assert AwaitsWrite(s, u, k);
      }
    }
    forall u ensures LossOK(s', u) {
      assert LossOK(s, u);
      if u == t && t in s.book.limits {
        TouchAccounts(s, t, now);
      }
      if u in s.book.limits {
        var c := if u == t then CountersFor(s.book, t, now) else if u in s.book.state then s.book.state[u] else Opened(now);
        if u in s'.book.state { SameLogAccounts(s.log, s'.log, Lookup(s.base, u), c, s'.book.state[u], u); }
      }
    }
  }

  predicate SameSpend(c: Counters, d: Counters) {
    c.dailySpent == d.dailySpent && c.dailyStart == d.dailyStart && c.monthlySpent == d.monthlySpent && c.monthlyStart == d.monthlyStart
  }

  predicate DurInvFrame(s: Sys, s': Sys) {
    && s'.base == s.base && s'.pending == s.pending && s'.failed == s.failed
    && s'.book.limits == s.book.limits && s'.book.durable == s.book.durable
    && s'.book.seqNo == s.book.seqNo && s'.book.written == s.book.written && s'.book.store == s.book.store
  }

  lemma SameLogAccounts(log: Log, log': Log, base: Option<SpendRow>, c: Counters, c': Counters, t: TenantID)
    requires Accounted(log, base, c, t) && SameSpend(c, c')
    requires log' == log || (log'.Then? && log'.past == log && !SettledFor(log'.last, t))
    ensures Accounted(log', base, c', t)
  {
    forall k: nat ensures RowAt(log', base, t, k) == RowAt(log, base, t, k) && CostAfter(log', t, k) == CostAfter(log, t, k) { }
  }

  lemma {:induction false} RowLabel(log: Log, limits: map<TenantID, Limits>, base: Option<SpendRow>, t: TenantID, k: nat)
    requires OnlyConfigured(log, limits) && (base.Some? ==> base.value.tenant == t)
    ensures RowAt(log, base, t, k).Some? ==> RowAt(log, base, t, k).value.tenant == t
  {
    if log.Then? { RowLabel(log.past, limits, base, t, k); }
  }

  /** Numbering and the store after t's next settlement is cut as a snapshot. */
  lemma CutKeepsStore(s: Sys, s': Sys, t: TenantID, row: SpendRow)
    requires DurInv(s) && row.tenant == t && s'.log.Then? && s'.log.past == s.log
    requires SettledFor(s'.log.last, t) && s'.log.last.row == row
    requires s'.base == s.base && s'.failed == s.failed
    requires s'.pending == s.pending + {Snapshot(row, Count(s.log, t) + 1)}
    requires s'.book.written == s.book.written && s'.book.store == s.book.store
    requires s'.book.seqNo == s.book.seqNo[t := At(s.book.seqNo, t) + 1]
    ensures forall p :: p in s'.pending || p in s'.failed ==> Genuine(s', p)
    ensures forall u :: StoreFollows(s', u)
  {
    forall u, k: nat | u != t || k <= Count(s.log, t) ensures Numbered(s', u, k) == Numbered(s, u, k) { }
    forall p | p in s'.pending || p in s'.failed ensures Genuine(s', p) {
      if p in s.pending || p in s.failed { assert Genuine(s, p); }
    }
    forall u ensures StoreFollows(s', u) {
      assert StoreFollows(s, u);
      forall k | At(s'.book.written, u) < k <= Count(s'.log, u) ensures AwaitsWrite(s', u, k) {
        if u != t || k <= Count(s.log, u) { assert AwaitsWrite(s, u, k); }
      }
    }
  }

  lemma SettlingDurable(s: Sys, r: Reservation, tokens: int, usd: real, now: int)
    requires DurInv(s) && Issued(s.log, r)
    ensures DurInv(Step(s, Settling(r, tokens, usd, now)))
  {
    if r.id !in s.book.done {
      var s' := Step(s, Settling(r, tokens, usd, now));
      var t := r.tenant;
      IssuedConfigured(s.log, s.book.limits, r);
      assert StoreFollows(s, t);
      CutKeepsStore(s, s', t, RowOf(t, s'.book.state[t]));
      forall u ensures LossOK(s', u) {
        assert LossOK(s, u);
        if u == t {
          TouchAccounts(s, t, now);
          ChargeAccounts(s.log, Lookup(s.base, t), CountersFor(s.book, t, now), s'.book.state[t], r, tokens, usd, now);
        } else if u in s.book.state && u in s.book.limits {
          SameLogAccounts(s.log, s'.log, Lookup(s.base, u), s.book.state[u], s.book.state[u], u);
        }
      }
    }
  }

  lemma SavingDurable(s: Sys, snap: Snapshot, saves: bool)
    requires DurInv(s) && snap in s.pending
    ensures DurInv(Step(s, Saving(snap, saves)))
  {
    var s' := Step(s, Saving(snap, saves));
    assert Genuine(s, snap);
    forall u, k: nat ensures Numbered(s', u, k) == Numbered(s, u, k) { }
    forall p | p in s'.pending || p in s'.failed ensures Genuine(s', p) { assert Genuine(s, p); }
    forall u ensures StoreFollows(s', u) {
      assert StoreFollows(s, u);
      forall k | At(s'.book.written, u) < k <= Count(s'.log, u) ensures AwaitsWrite(s', u, k) {
        assert AwaitsWrite(s, u, k);
        RowLabel(s.log, s.book.limits, Lookup(s.base, u), u, k);
      }
    }
    forall u ensures LossOK(s', u) { assert LossOK(s, u); }
  }

  lemma BootedIsDurable(limits: map<TenantID, Limits>, store: map<TenantID, SpendRow>, now: int)
    requires forall t :: t in store ==> store[t].tenant == t
    ensures DurInv(Booted(limits, true, store, now))
  {
  }

  lemma StepDurable(s: Sys, e: Event)
    requires DurInv(s) && Enabled(s, e)
    ensures DurInv(Step(s, e))
  {
    var s' := Step(s, e);
    match e
    case Reserving(t, est, now) =>
      if s'.book.state != s.book.state || s'.log != s.log { QuietKeeps(s, s', t, now); } else { SameTables(s, s'); }
    case Settling(r, tokens, usd, now) => SettlingDurable(s, r, tokens, usd, now);
    case Saving(snap, saves) => SavingDurable(s, snap, saves);
    case Releasing(r, now) =>
      IssuedConfigured(s.log, s.book.limits, r);
      if r.id !in s.book.done { QuietKeeps(s, s', r.tenant, now); }
    case Reading(t, now) => QuietKeeps(s, s', t, now);
    case Marking(_) => SameTables(s, s');
    case Restarting(limits, now) => BootedIsDurable(limits, s.book.store, now);
  }

  lemma SameTables(s: Sys, s': Sys)
    requires DurInv(s) && DurInvFrame(s, s') && s'.log == s.log && s'.book.state == s.book.state
    ensures DurInv(s')
  {
    forall u, k: nat ensures Numbered(s', u, k) == Numbered(s, u, k) { }
    forall p | p in s'.pending || p in s'.failed ensures Genuine(s', p) { assert Genuine(s, p); }
    forall u ensures StoreFollows(s', u) && LossOK(s', u) {
      assert StoreFollows(s, u) && LossOK(s, u);
      forall k | At(s'.book.written, u) < k <= Count(s'.log, u) ensures AwaitsWrite(s', u, k) {
        assert AwaitsWrite(s, u, k);
      }
    }
  }

  lemma {:induction false} RunDurable(s: Sys, es: seq<Event>)
    requires DurInv(s) && Allowed(s, es)
    ensures DurInv(Run(s, es))
    decreases es
  {
    if es != [] {
      StepDurable(s, es[0]);
      RunDurable(Step(s, es[0]), es[1..]);
    }
  }
}
